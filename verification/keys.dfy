/** Object keys: where the pages and the manifest of a document live in an object store. */
module Keys {
  import opened Wrappers
  import opened Strings

  const OBJECT_ROOT := "documents"

  datatype KeyError = MissingDocumentID | MissingHash | UnsafeHash

  function DocumentObjectPrefix(documentID: string): string {
    Join([OBJECT_ROOT, documentID]) + "/"
  }

  function ManifestObjectKey(documentID: string): string {
    Join([DocumentObjectPrefix(documentID), "manifest.json"])
  }

  function ContentTypeExt(contentType: string): string {
    match contentType
    case "image/webp" => "webp"
    case "image/jpeg" => "jpg"
    case "image/png" => "png"
    case "image/avif" => "avif"
    case _ => "bin"
  }

  predicate UnsafeSegment(hash: string) {
    hash == "." || hash == ".." || '/' in hash || '\\' in hash
  }

  function PageObjectKey(documentID: string, hash: string, contentType: string): Outcome<string, KeyError> {
    var id := TrimSpace(documentID);
    var h := TrimSpace(hash);
    if id == "" then Err(MissingDocumentID)
    else if h == "" then Err(MissingHash)
    else if UnsafeSegment(h) then Err(UnsafeHash)
    else Ok(Join([DocumentObjectPrefix(id), "pages", h + "." + ContentTypeExt(contentType)]))
  }

  // ----- the keys of a numbered document -----

  function PrefixOf(id: nat): string {
    DocumentObjectPrefix(Itoa(id))
  }

  function ManifestKeyOf(id: nat): string {
    ManifestObjectKey(Itoa(id))
  }

  function PageKeyOf(id: nat, hash: string, contentType: string): Outcome<string, KeyError> {
    PageObjectKey(Itoa(id), hash, contentType)
  }

  predicate UsableHash(hash: string) {
    var h := TrimSpace(hash);
    h != "" && !UnsafeSegment(h)
  }

  /** The name of a page object inside its document's "pages" directory. */
  function PageFile(hash: string, contentType: string): string {
    TrimSpace(hash) + "." + ContentTypeExt(contentType)
  }

  lemma FixedNames()
    ensures IsName(OBJECT_ROOT) && IsName("pages") && IsName("manifest.json")
    ensures NoSlash(OBJECT_ROOT) && NoSlash("pages") && NoSlash("manifest.json")
  {
  }

  lemma DecimalIsName(s: string)
    requires IsDecimal(s)
    ensures IsName(s) && NoSlash(s) && TrimSpace(s) == s
  {
    assert s[0] in s && s[|s| - 1] in s;
    TrimSpaceKeeps(s);
  }

  lemma PageFileIsName(hash: string, contentType: string)
    requires UsableHash(hash)
    ensures IsName(PageFile(hash, contentType))
  {
    var h, ext := TrimSpace(hash), ContentTypeExt(contentType);
    assert '/' !in ext && |ext| >= 3;
  }

  /** All keys begin with one word; each known content type has its own extension, and all others share one. */
  lemma ExtensionsOfTypes(contentType: string)
    ensures OBJECT_ROOT == "documents"
    ensures ContentTypeExt("image/webp") == "webp" && ContentTypeExt("image/jpeg") == "jpg"
    ensures ContentTypeExt("image/png") == "png" && ContentTypeExt("image/avif") == "avif"
    ensures contentType !in {"image/webp", "image/jpeg", "image/png", "image/avif"} <==> ContentTypeExt(contentType) == "bin"
  {
  }

  lemma ExtHasNoDot(contentType: string)
    ensures '.' !in ContentTypeExt(contentType)
  {
  }

  /** The prefix of document n is "documents/n/". */
  lemma PrefixShape(id: nat)
    ensures PrefixOf(id) == OBJECT_ROOT + "/" + Itoa(id) + "/"
  {
    FixedNames();
    DecimalIsName(Itoa(id));
    JoinNames(OBJECT_ROOT, Itoa(id));
  }

  /** The manifest of document n is "documents/n/manifest.json". */
  lemma ManifestKeyShape(id: nat)
    ensures ManifestKeyOf(id) == Glue([OBJECT_ROOT, Itoa(id), "manifest.json"])
  {
    FixedNames();
    DecimalIsName(Itoa(id));
    PrefixShape(id);
    JoinFile(OBJECT_ROOT, Itoa(id), "manifest.json");
  }

  /** A page key exists exactly for usable hashes, and is documents/n/pages/hash.ext. */
  lemma PageKeyShape(id: nat, hash: string, contentType: string)
    ensures PageKeyOf(id, hash, contentType).Ok? <==> UsableHash(hash)
    ensures UsableHash(hash) <==> var h := TrimSpace(hash);
              h != "" && h != "." && h != ".." && '/' !in h && '\\' !in h
    ensures UsableHash(hash) ==>
              PageKeyOf(id, hash, contentType).value
              == Glue([OBJECT_ROOT, Itoa(id), "pages", PageFile(hash, contentType)])
  {
    hide Join, Glue, TrimSpace, Itoa, ContentTypeExt;
    DecimalIsName(Itoa(id));
    if UsableHash(hash) {
      FixedNames();
      PageFileIsName(hash, contentType);
      PrefixShape(id);
      JoinNested(OBJECT_ROOT, Itoa(id), "pages", PageFile(hash, contentType));
    }
  }

  lemma PageKeySegments(id: nat, hash: string, contentType: string)
    requires PageKeyOf(id, hash, contentType).Ok?
    ensures Split(PageKeyOf(id, hash, contentType).value)
            == [OBJECT_ROOT, Itoa(id), "pages", PageFile(hash, contentType)]
  {
    hide Join, Glue, TrimSpace, Itoa, Split, PageFile, PageKeyOf;
    PageKeyShape(id, hash, contentType);
    FixedNames();
    DecimalIsName(Itoa(id));
    PageFileIsName(hash, contentType);
    SplitGlue4(OBJECT_ROOT, Itoa(id), "pages", PageFile(hash, contentType));
  }

  lemma ManifestKeySegments(id: nat)
    ensures Split(ManifestKeyOf(id)) == [OBJECT_ROOT, Itoa(id), "manifest.json"]
  {
    hide Join, Glue, Itoa, Split, ManifestKeyOf, NoSlash, IsName;
    ManifestKeyShape(id);
    FixedNames();
    DecimalIsName(Itoa(id));
    SplitGlue3(OBJECT_ROOT, Itoa(id), "manifest.json");
  }

  // ----- what the archive relies on -----

  /** Every key of a document starts with that document's prefix. */
  lemma KeysUnderOwnPrefix(id: nat, hash: string, contentType: string)
    ensures HasPrefix(ManifestKeyOf(id), PrefixOf(id))
    ensures PageKeyOf(id, hash, contentType).Ok?
            ==> HasPrefix(PageKeyOf(id, hash, contentType).value, PrefixOf(id))
  {
    hide Join, Glue, Itoa, TrimSpace, PageFile, PageKeyOf, ManifestKeyOf, PrefixOf;
    var n := Itoa(id);
    PrefixShape(id);
    ManifestKeyShape(id);
    Glue3(OBJECT_ROOT, n, "manifest.json");
    PageKeyShape(id, hash, contentType);
    if UsableHash(hash) {
      var file := PageFile(hash, contentType);
      Glue4(OBJECT_ROOT, n, "pages", file);
      assert OBJECT_ROOT + "/" + n + "/" + "pages" + "/" + file == PrefixOf(id) + ("pages" + "/" + file);
    }
  }

  lemma PrefixSegments(id: nat, rest: string)
    ensures Split(PrefixOf(id) + rest) == [OBJECT_ROOT, Itoa(id)] + Split(rest)
  {
    hide Split, PrefixOf, NoSlash, IsName, Itoa, Join;
    FixedNames();
    DecimalIsName(Itoa(id));
    PrefixShape(id);
    SplitBelow(OBJECT_ROOT, Itoa(id), rest);
  }

  /** No string lies under the prefixes of two different documents. */
  lemma PrefixesDisjoint(i: nat, j: nat, key: string)
    requires HasPrefix(key, PrefixOf(i)) && HasPrefix(key, PrefixOf(j))
    ensures i == j
  {
    hide Split, PrefixOf, Itoa;
    var p, q := PrefixOf(i), PrefixOf(j);
    assert key == p + key[|p|..] && key == q + key[|q|..];
    PrefixSegments(i, key[|p|..]);
    PrefixSegments(j, key[|q|..]);
    assert Split(key)[1] == Itoa(i) && Split(key)[1] == Itoa(j);
    ItoaInjective(i, j);
  }

  /** Page keys are injective in the document id, the trimmed hash and the extension. */
  lemma PageKeysInjective(i: nat, hash: string, contentType: string, j: nat, hash': string, contentType': string)
    requires PageKeyOf(i, hash, contentType).Ok?
    requires PageKeyOf(i, hash, contentType) == PageKeyOf(j, hash', contentType')
    ensures i == j && TrimSpace(hash) == TrimSpace(hash')
    ensures ContentTypeExt(contentType) == ContentTypeExt(contentType')
  {
    PageKeySegments(i, hash, contentType);
    PageKeySegments(j, hash', contentType');
    var s := Split(PageKeyOf(i, hash, contentType).value);
    assert s[1] == Itoa(i) == Itoa(j);
    assert s[3] == PageFile(hash, contentType) == PageFile(hash', contentType');
    ItoaInjective(i, j);
    ExtHasNoDot(contentType);
    ExtHasNoDot(contentType');
    LastDotSplits(TrimSpace(hash), ContentTypeExt(contentType), TrimSpace(hash'), ContentTypeExt(contentType'));
  }

  /** A manifest is never stored where a page is, whatever the documents. */
  lemma ManifestIsNoPage(i: nat, hash: string, contentType: string, j: nat)
    requires PageKeyOf(i, hash, contentType).Ok?
    ensures PageKeyOf(i, hash, contentType).value != ManifestKeyOf(j)
  {
    PageKeySegments(i, hash, contentType);
    ManifestKeySegments(j);
  }

  /** A key of document j lies under the prefix of document i exactly when they are the same document. */
  lemma KeysNeverCollide(i: nat, j: nat, hash: string, contentType: string)
    ensures HasPrefix(ManifestKeyOf(j), PrefixOf(i)) <==> i == j
    ensures PageKeyOf(j, hash, contentType).Ok?
            ==> (HasPrefix(PageKeyOf(j, hash, contentType).value, PrefixOf(i)) <==> i == j)
  {
    KeysUnderOwnPrefix(j, hash, contentType);
    if HasPrefix(ManifestKeyOf(j), PrefixOf(i)) {
      PrefixesDisjoint(i, j, ManifestKeyOf(j));
    }
    if PageKeyOf(j, hash, contentType).Ok? && HasPrefix(PageKeyOf(j, hash, contentType).value, PrefixOf(i)) {
      PrefixesDisjoint(i, j, PageKeyOf(j, hash, contentType).value);
    }
  }

  /** What the recording of a page relies on. */
  lemma PageKeyFacts(id: nat, hash: string, contentType: string)
    requires PageKeyOf(id, hash, contentType).Ok?
    ensures HasPrefix(PageKeyOf(id, hash, contentType).value, PrefixOf(id))
    ensures PageKeyOf(id, hash, contentType).value != ManifestKeyOf(id)
    ensures PageKeyOf(id, hash, contentType).value != ""
  {
    hide PageKeyOf, ManifestKeyOf, Itoa;
    KeysUnderOwnPrefix(id, hash, contentType);
    ManifestIsNoPage(id, hash, contentType, id);
    PrefixShape(id);
  }

  /** The same content under the same hash shares one key, and different hashes never do. */
  lemma SameKeySameHash(id: nat, hash: string, contentType: string, hash': string, contentType': string)
    requires PageKeyOf(id, hash, contentType).Ok? && PageKeyOf(id, hash', contentType').Ok?
    requires PageKeyOf(id, hash, contentType).value == PageKeyOf(id, hash', contentType').value
    ensures TrimSpace(hash) == TrimSpace(hash')
  {
    PageKeysInjective(id, hash, contentType, id, hash', contentType');
  }

  /** A single letter is a usable hash. */
  lemma LetterIsUsable(hash: string, letter: char)
    requires hash == [letter] && 'a' <= letter <= 'z'
    ensures UsableHash(hash) && TrimSpace(hash) == hash
  {
    hide TrimSpace;
    TrimSpaceKeeps(hash);
  }
}
