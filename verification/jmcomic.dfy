/** The JMComic handler: it downloads the pages of one photo album one after the other. */
module Jmcomic {
  import opened Wrappers
  import opened Strings
  import opened Keys
  import opened Model
  import opened StoreSpec
  import opened Objects
  import opened MemoryStores
  import opened Recording
  import opened Downloads
  import opened JmcomicMetadata
  import Lifecycle

  datatype ResolvedPage = ResolvedPage(name: string, hash: string, contentType: string)

  /** A hash written in lower-case hexadecimal digits. */
  predicate IsHex(s: string) {
    |s| == 32 && forall c :: c in s ==> '0' <= c <= '9' || 'a' <= c <= 'f'
  }

  /** The file name extension with its dot, or nothing. */
  function Extension(name: string): string {
    if name == "" || name[|name| - 1] == '/' then ""
    else if name[|name| - 1] == '.' then "."
    else
      var e := Extension(name[..|name| - 1]);
      if e == "" then "" else e + [name[|name| - 1]]
  }

  function ToLower(s: string): string {
    seq(|s|, k requires 0 <= k < |s| => if 'A' <= s[k] <= 'Z' then s[k] - 'A' + 'a' else s[k])
  }

  function ImageContentType(name: string): string {
    match ToLower(Extension(name))
    case ".webp" => "image/webp"
    case ".png" => "image/png"
    case _ => "image/jpeg"
  }

  /** The extension is what follows the last dot of the last path segment, with the dot. */
  lemma {:induction false} ExtensionOf(stem: string, ext: string)
    requires '.' !in ext && '/' !in ext
    ensures Extension(stem + "." + ext) == "." + ext
  {
    var name := stem + "." + ext;
    if ext != "" {
      var front := ext[..|ext| - 1];
      assert name[..|name| - 1] == stem + "." + front;
      assert name[|name| - 1] == ext[|ext| - 1] && ext[|ext| - 1] in ext;
      ExtensionOf(stem, front);
      assert "." + front + [ext[|ext| - 1]] == "." + ext;
    } else {
      assert name[|name| - 1] == '.';
    }
  }

  /** Names ending in .webp or .png, in either case, have their own content type; all others count as JPEG. */
  lemma ContentTypesOfNames(stem: string, ext: string)
    requires '.' !in ext && '/' !in ext
    ensures ImageContentType(stem + "." + ext)
            == if ToLower("." + ext) == ".webp" then "image/webp"
               else if ToLower("." + ext) == ".png" then "image/png" else "image/jpeg"
    ensures ToLower(".webp") == ".webp" && ToLower(".WEBP") == ".webp" && ToLower(".png") == ".png" && ToLower(".PNG") == ".png"
  {
    hide Extension;
    ExtensionOf(stem, ext);
  }

  lemma HexIsUsable(s: string)
    requires IsHex(s)
    ensures UsableHash(s) && TrimSpace(s) == s && s != ""
  {
    assert s[0] in s && s[|s| - 1] in s;
    TrimSpaceKeeps(s);
  }

  type Digest = string -> string

  function PageHash(md5Hex: Digest, photo: Photo, name: string): string {
    md5Hex(photo.id + "\0" + photo.addTime + "\0" + name)
  }

  function PlanAt(md5Hex: Digest, photo: Photo, k: nat): Lifecycle.PagePlan
    requires k < |photo.images|
  {
    Lifecycle.PagePlan(k, PageHash(md5Hex, photo, photo.images[k]), ImageContentType(photo.images[k]))
  }

  method ResolvePages(md5Hex: Digest, photo: Photo) returns (pages: seq<ResolvedPage>)
    ensures |pages| == |photo.images|
    ensures forall k :: 0 <= k < |pages| ==>
              Lifecycle.PagePlan(k, pages[k].hash, pages[k].contentType) == PlanAt(md5Hex, photo, k)
    ensures forall k :: 0 <= k < |pages| ==>
              && pages[k].name == photo.images[k]
              && pages[k].hash == md5Hex(photo.id + "\0" + photo.addTime + "\0" + photo.images[k])
              && pages[k].contentType == ImageContentType(photo.images[k])
  {
    var resolved := new ResolvedPage[|photo.images|](_ => ResolvedPage("", "", ""));
    for index := 0 to |photo.images|
      invariant forall k :: 0 <= k < index ==>
                  && resolved[k].name == photo.images[k]
                  && resolved[k].hash == md5Hex(photo.id + "\0" + photo.addTime + "\0" + photo.images[k])
                  && resolved[k].contentType == ImageContentType(photo.images[k])
    {
      var name := photo.images[index];
      resolved[index] := ResolvedPage(name, PageHash(md5Hex, photo, name), ImageContentType(name));
    }
    return resolved[..];
  }

  /** What resolving yields: the metadata to store, the identity and title, and the pages found. */
  datatype ResolvedComic = ResolvedComic(
    sourceMeta: Json, sourceDocumentID: string, title: string, pages: seq<Lifecycle.PagePlan>)

  type Server<T> = string -> Outcome<T, string>

  function OrElse(id: string, other: string): string {
    if id == "" then other else id
  }

  /** The chapter of a single-chapter album resolves to its pages; the album's metadata is what is stored. */
  predicate ResolvesTo(md5Hex: Digest, sourceDocumentID: string, album: Json, chapter: Json, r: ResolvedComic) {
    && DecodeAlbum(album).Ok? && DecodePhoto(chapter).Ok?
    && var id := if DecodeAlbum(album).value.id != "" then DecodeAlbum(album).value.id else sourceDocumentID;
    && var photo := DecodePhoto(chapter).value;
    && var named := photo.(id := if photo.id != "" then photo.id else id);
    && r.sourceMeta == album && r.sourceDocumentID == id && r.title == DecodeAlbum(album).value.name
    && |r.pages| == |photo.images| && forall k :: 0 <= k < |r.pages| ==> r.pages[k] == PlanAt(md5Hex, named, k)
  }

  /** The download gets past the stored metadata: it can be read as a photo that has an id. */
  predicate Readable(sourceMeta: Json) {
    DecodePhoto(sourceMeta).Ok? && DecodePhoto(sourceMeta).value.id != ""
  }

  /** What the download will plan from stored metadata, as many pages as it lists images. */
  function PlannedCount(sourceMeta: Json): nat {
    if DecodePhoto(sourceMeta).Ok? then |DecodePhoto(sourceMeta).value.images| else 0
  }

  /** Nothing is in the way of page k: its object is there already, or an earlier page brings it, or it can be fetched. */
  predicate Acceptable(md5Hex: Digest, id: nat, photo: Photo, bucket: Bucket, fetched: nat -> Outcome<Bytes, string>, k: nat)
    requires k < |photo.images|
  {
    var key := KeyFor(id, PlanAt(md5Hex, photo, k));
    && key.Ok?
    && if key.value in bucket then Matches(bucket[key.value], PlanAt(md5Hex, photo, k).hash)
       else fetched(k).Ok? || SharedKey(md5Hex, id, photo, k)
  }

  /** An earlier page has the same key. */
  predicate SharedKey(md5Hex: Digest, id: nat, photo: Photo, k: nat)
    requires k < |photo.images|
  {
    exists j: nat :: j < k && KeyFor(id, PlanAt(md5Hex, photo, j)) == KeyFor(id, PlanAt(md5Hex, photo, k))
  }

  /** The object was fetched for page j and put under that page's hash. */
  predicate FetchedFor(md5Hex: Digest, photo: Photo, fetched: nat -> Outcome<Bytes, string>, j: nat, found: Object)
    requires j < |photo.images|
  {
    fetched(j).Ok? && Holds(found, PlanAt(md5Hex, photo, j), fetched(j).value)
  }

  /** What the bucket holds after the first n pages: the old objects, and one fetched under each key of these pages. */
  ghost predicate HoldsFirst(md5Hex: Digest, id: nat, photo: Photo, fetched: nat -> Outcome<Bytes, string>,
                             before: Bucket, after: Bucket, n: nat)
    requires n <= |photo.images|
  {
    && (forall key :: key in after && key !in before ==>
          exists j: nat :: j < n && KeyFor(id, PlanAt(md5Hex, photo, j)) == Ok(key)
                           && FetchedFor(md5Hex, photo, fetched, j, after[key]))
    && (forall j: nat :: j < n ==> var key := KeyFor(id, PlanAt(md5Hex, photo, j)); key.Ok? && key.value in after)
  }

  /** Whatever is new in the bucket was fetched for one of the pages that has this key. */
  ghost predicate NewOnesFetched(md5Hex: Digest, id: nat, photo: Photo, fetched: nat -> Outcome<Bytes, string>,
                                 before: Bucket, after: Bucket) {
    forall key :: key in after && key !in before ==>
      exists j: nat :: j < |photo.images| && KeyFor(id, PlanAt(md5Hex, photo, j)) == Ok(key)
                       && FetchedFor(md5Hex, photo, fetched, j, after[key])
  }

  lemma OneMoreFetched(md5Hex: Digest, id: nat, photo: Photo, fetched: nat -> Outcome<Bytes, string>, before: Bucket,
                       mid: Bucket, after: Bucket, k: nat)
    requires NewOnesFetched(md5Hex, id, photo, fetched, before, mid) && Extends(id, mid, after) && k < |photo.images|
    requires forall key :: key in after && key !in mid ==>
               KeyFor(id, PlanAt(md5Hex, photo, k)) == Ok(key) && FetchedFor(md5Hex, photo, fetched, k, after[key])
    ensures NewOnesFetched(md5Hex, id, photo, fetched, before, after)
  {
    hide PageKeyOf, PrefixOf, PageHash, ImageContentType, FetchedFor;
    forall key | key in after && key !in before
      ensures exists j: nat :: j < |photo.images| && KeyFor(id, PlanAt(md5Hex, photo, j)) == Ok(key)
                               && FetchedFor(md5Hex, photo, fetched, j, after[key])
    {
      if key in mid {
        var j: nat :| j < |photo.images| && KeyFor(id, PlanAt(md5Hex, photo, j)) == Ok(key)
                      && FetchedFor(md5Hex, photo, fetched, j, mid[key]);
        assert after[key] == mid[key];
      } else {
        assert k < |photo.images| && KeyFor(id, PlanAt(md5Hex, photo, k)) == Ok(key);
      }
    }
  }

  /** Before page k is archived, it is acceptable exactly when it can be obtained from what is there by now. */
  lemma AcceptableIsObtainable(md5Hex: Digest, id: nat, photo: Photo, before: Bucket, mid: Bucket,
                               fetched: nat -> Outcome<Bytes, string>, k: nat)
    requires k < |photo.images| && (forall s :: IsHex(md5Hex(s)))
    requires Extends(id, before, mid) && HoldsFirst(md5Hex, id, photo, fetched, before, mid, k)
    ensures Acceptable(md5Hex, id, photo, before, fetched, k)
            <==> Obtainable(id, PlanAt(md5Hex, photo, k), mid, fetched(k).Ok?)
  {
    hide PageKeyOf, PrefixOf, PageHash, IsHex, UsableHash, TrimSpace;
    var plan := PlanAt(md5Hex, photo, k);
    KeyExists(md5Hex, id, photo, k);
    var key := KeyFor(id, plan).value;
    if key in mid && key !in before {
      var j: nat :| j < k && KeyFor(id, PlanAt(md5Hex, photo, j)) == Ok(key)
                    && FetchedFor(md5Hex, photo, fetched, j, mid[key]);
      var other := PlanAt(md5Hex, photo, j);
      KeyExists(md5Hex, id, photo, j);
      SameKeySameHash(id, plan.hash, plan.contentType, other.hash, other.contentType);
      assert SharedKey(md5Hex, id, photo, k);
    }
  }

  lemma KeyExists(md5Hex: Digest, id: nat, photo: Photo, k: nat)
    requires k < |photo.images| && forall s :: IsHex(md5Hex(s))
    ensures KeyFor(id, PlanAt(md5Hex, photo, k)).Ok?
    ensures TrimSpace(PlanAt(md5Hex, photo, k).hash) == PlanAt(md5Hex, photo, k).hash
  {
    hide PageKeyOf, IsHex, UsableHash, TrimSpace;
    var plan := PlanAt(md5Hex, photo, k);
    HexIsUsable(plan.hash);
    PageKeyShape(id, plan.hash, plan.contentType);
  }

  lemma HoldsOneMore(md5Hex: Digest, id: nat, photo: Photo, fetched: nat -> Outcome<Bytes, string>,
                     before: Bucket, mid: Bucket, after: Bucket, k: nat)
    requires k < |photo.images| && HoldsFirst(md5Hex, id, photo, fetched, before, mid, k) && Extends(id, mid, after)
    requires forall key :: key in after && key !in mid ==>
               KeyFor(id, PlanAt(md5Hex, photo, k)) == Ok(key) && FetchedFor(md5Hex, photo, fetched, k, after[key])
    requires KeyFor(id, PlanAt(md5Hex, photo, k)).Ok? && KeyFor(id, PlanAt(md5Hex, photo, k)).value in after
    ensures HoldsFirst(md5Hex, id, photo, fetched, before, after, k + 1)
  {
    hide PageKeyOf, PrefixOf, PageHash, ImageContentType, FetchedFor;
    forall key | key in after && key !in before
      ensures exists j: nat :: j < k + 1 && KeyFor(id, PlanAt(md5Hex, photo, j)) == Ok(key)
                               && FetchedFor(md5Hex, photo, fetched, j, after[key])
    {
      if key in mid {
        var j: nat :| j < k && KeyFor(id, PlanAt(md5Hex, photo, j)) == Ok(key)
                      && FetchedFor(md5Hex, photo, fetched, j, mid[key]);
        assert j < k + 1;
      } else {
        assert k < k + 1 && KeyFor(id, PlanAt(md5Hex, photo, k)) == Ok(key);
      }
    }
  }

  function Got(fetched: Outcome<Bytes, string>): Option<Bytes> {
    if fetched.Ok? then Some(fetched.value) else None
  }

  /** Some pages have been archived in their order, each under its own position. */
  ghost predicate ArchivedFirst(md5Hex: Digest, id: nat, photo: Photo, before: Bucket, after: Bucket, docs: Docs,
                                docs': Docs, pages: seq<Page>, now: int) {
    && |pages| <= |photo.images|
    && RecordAll(docs, id, pages, now) == (docs', true)
    && (forall k :: 0 <= k < |pages| ==> StoredAs(id, PlanAt(md5Hex, photo, k), pages[k], after))
    && Extends(id, before, after)
  }

  lemma ArchivedOneMore(md5Hex: Digest, id: nat, photo: Photo, before: Bucket, mid: Bucket, after: Bucket, docs: Docs,
                        docs1: Docs, docs2: Docs, pages: seq<Page>, page: Page, now: int)
    requires ArchivedFirst(md5Hex, id, photo, before, mid, docs, docs1, pages, now) && |pages| < |photo.images|
    requires StoredAs(id, PlanAt(md5Hex, photo, |pages|), page, after) && Extends(id, mid, after)
    requires Reply(docs2, Ok(())) == AddPage(docs1, id, page, now)
    ensures ArchivedFirst(md5Hex, id, photo, before, after, docs, docs2, pages + [page], now)
  {
    hide PageKeyOf, PrefixOf, PageHash, ImageContentType, RecordAll, StoredAs, Extends;
    RecordOneMore(docs, id, pages, page, now);
    ExtendsTwice(id, before, mid, after);
    forall k | 0 <= k < |pages| ensures StoredAs(id, PlanAt(md5Hex, photo, k), pages[k], after) {
      StoredAsExtends(id, PlanAt(md5Hex, photo, k), pages[k], mid, after);
    }
  }

  /** On an emptied document the store never refuses the next page. */
  lemma NextIsRecorded(md5Hex: Digest, id: nat, photo: Photo, before: Bucket, after: Bucket, docs: Docs, docs': Docs,
                       pages: seq<Page>, page: Page, now: int)
    requires ArchivedFirst(md5Hex, id, photo, before, after, docs, docs', pages, now) && |pages| < |photo.images|
    requires Visible(docs, id) && docs[id].pages == [] && docs[id].progress.done == 0
    ensures !TurnedDown(docs', id, PlanAt(md5Hex, photo, |pages|), page, now)
  {
    hide PageKeyOf, PrefixOf, PageHash, ImageContentType, RecordAll, StoredAs, Extends;
    var plan := PlanAt(md5Hex, photo, |pages|);
    if page.index == plan.index && KeyFor(id, plan) == Ok(page.key) {
      forall k | 0 <= k < |pages| ensures pages[k].key != "" && pages[k].index == k {
        StoredPage(id, PlanAt(md5Hex, photo, k), pages[k], after);
      }
      PageKeyFacts(id, plan.hash, plan.contentType);
      RecordingSucceeds(docs, id, pages + [page], now);
      RecordOneMore(docs, id, pages, page, now);
    }
  }

  /** The loop over the pages has archived some and met nothing that was in the way. */
  ghost predicate Underway(md5Hex: Digest, id: nat, photo: Photo, fetched: nat -> Outcome<Bytes, string>, before: Bucket,
                           after: Bucket, docs: Docs, docs': Docs, pages: seq<Page>, now: int) {
    && ArchivedFirst(md5Hex, id, photo, before, after, docs, docs', pages, now)
    && |pages| <= |photo.images|
    && HoldsFirst(md5Hex, id, photo, fetched, before, after, |pages|)
    && NewOnesFetched(md5Hex, id, photo, fetched, before, after)
    && (StartsEmpty(docs, id) ==> forall k :: 0 <= k < |pages| ==> Acceptable(md5Hex, id, photo, before, fetched, k))
  }

  /** The next page is archived too, or the loop ends there; on an emptied document only for a page not acceptable. */
  lemma OneMorePage(md5Hex: Digest, id: nat, photo: Photo, fetched: nat -> Outcome<Bytes, string>, before: Bucket,
                    mid: Bucket, after: Bucket, docs: Docs, docs1: Docs, docs2: Docs, pages: seq<Page>,
                    r: Outcome<Page, string>, now: int)
    requires forall s :: IsHex(md5Hex(s))
    requires Underway(md5Hex, id, photo, fetched, before, mid, docs, docs1, pages, now) && |pages| < |photo.images|
    requires PageArchived(PlanAt(md5Hex, photo, |pages|), id, Got(fetched(|pages|)), now, mid, after, docs1, docs2, r)
    ensures r.Ok? ==> Underway(md5Hex, id, photo, fetched, before, after, docs, docs2, pages + [r.value], now)
    ensures r.Err? ==>
              && ArchivedFirst(md5Hex, id, photo, before, after, docs, docs2, pages, now)
              && NewOnesFetched(md5Hex, id, photo, fetched, before, after)
              && (StartsEmpty(docs, id) ==>
                    && HoldsFirst(md5Hex, id, photo, fetched, before, after, |pages|)
                    && (forall k :: 0 <= k < |pages| ==> Acceptable(md5Hex, id, photo, before, fetched, k))
                    && !Acceptable(md5Hex, id, photo, before, fetched, |pages|))
  {
    hide ArchivedFirst, HoldsFirst, NewOnesFetched, Acceptable, Obtainable, StoredAs, Extends, PageKeyOf, PlanAt, TurnedDown,
      AddPage, IsHex;
    var n := |pages|;
    var plan := PlanAt(md5Hex, photo, n);
    ArchivedExtends(md5Hex, id, photo, before, mid, docs, docs1, pages, now);
    AcceptableIsObtainable(md5Hex, id, photo, before, mid, fetched, n);
    OneMoreFetched(md5Hex, id, photo, fetched, before, mid, after, n);
    if r.Ok? {
      ArchivedOneMore(md5Hex, id, photo, before, mid, after, docs, docs1, docs2, pages, r.value, now);
      StoredKey(id, plan, r.value, after);
      HoldsOneMore(md5Hex, id, photo, fetched, before, mid, after, n);
    } else {
      if StartsEmpty(docs, id) && Obtainable(id, plan, mid, fetched(n).Ok?) {
        var page :| TurnedDown(docs1, id, plan, page, now);
        NextIsRecorded(md5Hex, id, photo, before, mid, docs, docs1, pages, page, now);
        assert false;
      }
      ArchivedStill(md5Hex, id, photo, before, mid, after, docs, docs1, pages, now);
    }
  }

  class Handler {
    const objects: MemoryObjectStore
    /** The store behind the hook that records pages. */
    const documents: MemoryStore
    const md5Hex: Digest

    constructor (objects: MemoryObjectStore, documents: MemoryStore, md5Hex: Digest)
      ensures this.objects == objects && this.documents == documents && this.md5Hex == md5Hex
    {
      this.objects := objects;
      this.documents := documents;
      this.md5Hex := md5Hex;
    }

    ghost predicate Valid() {
      forall s :: IsHex(md5Hex(s))
    }

    method ResolveDocument(sourceDocumentID: string, albums: Server<Json>, chapters: Server<Json>, scrambles: Server<int>)
      returns (r: Outcome<ResolvedComic, string>)
      ensures r.Ok? <==> Resolvable(sourceDocumentID, albums, chapters, scrambles)
      ensures r.Ok? ==>
                ResolvesTo(md5Hex, sourceDocumentID, albums(sourceDocumentID).value,
                           chapters(OrElse(DecodeAlbum(albums(sourceDocumentID).value).value.id, sourceDocumentID)).value,
                           r.value)
    {
      hide DecodeAlbum, DecodePhoto;
      var data := albums(sourceDocumentID);
      if data.Err? {
        return Err("get album");
      }
      var album := DecodeAlbum(data.value);
      if album.Err? {
        return Err("get album");
      }
      var albumID := OrElse(album.value.id, sourceDocumentID);
      if album.value.episodes != 0 {
        return Err("multi-chapter albums are not supported");
      }
      var chapter := chapters(albumID);
      if chapter.Err? {
        return Err("get photo");
      }
      var decoded := DecodePhoto(chapter.value);
      if decoded.Err? {
        return Err("get photo");
      }
      var photo := decoded.value.(id := OrElse(decoded.value.id, albumID));
      var scramble := scrambles(photo.id);
      if scramble.Err? {
        return Err("get photo");
      }
      var resolved := ResolvePages(md5Hex, photo);
      var pages := new Lifecycle.PagePlan[|resolved|](_ => Lifecycle.PagePlan(0, "", ""));
      for index := 0 to |resolved|
        invariant forall k :: 0 <= k < index ==> pages[k] == PlanAt(md5Hex, photo, k)
      {
        pages[index] := Lifecycle.PagePlan(index, resolved[index].hash, resolved[index].contentType);
      }
      return Ok(ResolvedComic(data.value, albumID, album.value.name, pages[..]));
    }

    /** One page of the loop: reuse the object or fetch and put it, then record the page. */
    method ArchivePage(id: nat, index: nat, page: ResolvedPage, fetched: Outcome<Bytes, string>, now: int)
      returns (r: Outcome<Page, string>)
      modifies objects, documents
      ensures var plan := Lifecycle.PagePlan(index, page.hash, page.contentType);
              PageArchived(plan, id, Got(fetched), now, old(objects.objects), objects.objects,
                           old(documents.docs), documents.docs, r)
    {
      hide PageKeyOf, PrefixOf, ManifestKeyOf;
      var key := PageKeyOf(id, page.hash, page.contentType);
      if key.Err? {
        return Err("build page object key");
      }
      ghost var plan := Lifecycle.PagePlan(index, page.hash, page.contentType);
      PageKeyFacts(id, page.hash, page.contentType);
      KeyNeedsHash(id, plan);
      var size: int;
      var head := objects.HeadObject(key.value);
      if head.Ok? {
        if head.value.etag != "" && head.value.etag != page.hash {
          return Err("object hash mismatch");
        }
        size := head.value.size;
      } else {
        if fetched.Err? {
          return Err(fetched.error);
        }
        var body := fetched.value;
        var put := objects.PutObject(ObjectInfo(key.value, |body|, page.contentType, page.hash), body, now);
        assert put.Ok?;
        size := put.value.size;
      }
      var documentPage := Page(index, key.value, page.contentType, size, page.hash);
      assert documentPage == Lifecycle.PageFor(plan, key.value, size);
      var recorded := documents.AddPage(id, documentPage, now);
      if recorded.Err? {
        assert TurnedDown(old(documents.docs), id, plan, documentPage, now);
        return Err("page download hook");
      }
      return Ok(documentPage);
    }

    /**
     * Archives the pages of a photo in order and stops at the first that cannot be archived. On an emptied document
     * that is the first page that is not acceptable, so everything is archived exactly when every page is.
     */
    method ArchiveContent(id: nat, sourceMeta: Json, scramble: Outcome<int, string>,
                          fetched: nat -> Outcome<Bytes, string>, now: int)
      returns (pages: seq<Page>, err: Option<string>)
      requires Valid()
      modifies objects, documents
      ensures err.None? ==> Readable(sourceMeta) && |pages| == PlannedCount(sourceMeta)
      ensures !Readable(sourceMeta) || scramble.Err?
              ==> pages == [] && err.Some? && documents.docs == old(documents.docs) && objects.objects == old(objects.objects)
      ensures var photo := DecodePhoto(sourceMeta);
              Readable(sourceMeta) && scramble.Ok?
              ==> ArchivedFirst(md5Hex, id, photo.value, old(objects.objects), objects.objects, old(documents.docs),
                                documents.docs, pages, now)
                  && NewOnesFetched(md5Hex, id, photo.value, fetched, old(objects.objects), objects.objects)
                  && (err.None? <==> |pages| == |photo.value.images|)
      ensures var was, photo := old(documents.docs), DecodePhoto(sourceMeta);
              Readable(sourceMeta) && scramble.Ok?
              && Visible(was, id) && was[id].pages == [] && was[id].progress.done == 0
              ==> |pages| <= |photo.value.images|
                  && HoldsFirst(md5Hex, id, photo.value, fetched, old(objects.objects), objects.objects, |pages|)
                  && (forall k :: 0 <= k < |pages| ==>
                        Acceptable(md5Hex, id, photo.value, old(objects.objects), fetched, k))
                  && (|pages| < |photo.value.images| ==>
                        !Acceptable(md5Hex, id, photo.value, old(objects.objects), fetched, |pages|))
    {
      hide ArchivedFirst, HoldsFirst, NewOnesFetched, Acceptable, PageArchived, PageKeyOf, PlanAt, DecodePhoto;
      pages := [];
      var photo := DecodePhoto(sourceMeta);
      if photo.Err? {
        return pages, Some("decode document metadata");
      }
      if photo.value.id == "" {
        return pages, Some("document metadata has no photo id");
      }
      if scramble.Err? {
        return pages, Some(scramble.error);
      }
      var resolved := ResolvePages(md5Hex, photo.value);
      ghost var before, docs := objects.objects, documents.docs;
      NothingArchived(md5Hex, id, photo.value, fetched, before, docs, now);
      for index := 0 to |resolved|
        invariant |pages| == index
        invariant Underway(md5Hex, id, photo.value, fetched, before, objects.objects, docs, documents.docs, pages, now)
      {
        ghost var mid, docs1 := objects.objects, documents.docs;
        var r := ArchivePage(id, index, resolved[index], fetched(index), now);
        OneMorePage(md5Hex, id, photo.value, fetched, before, mid, objects.objects, docs, docs1, documents.docs, pages, r,
            now);
        if r.Err? {
          return pages, Some(r.error);
        }
        pages := pages + [r.value];
      }
      return pages, None;
    }
  }

  /** The servers answer, the album has a single chapter, and all answers can be read. */
  predicate Resolvable(sourceDocumentID: string, albums: Server<Json>, chapters: Server<Json>, scrambles: Server<int>) {
    && albums(sourceDocumentID).Ok?
    && var album := DecodeAlbum(albums(sourceDocumentID).value);
    && album.Ok? && album.value.episodes == 0
    && var id := OrElse(album.value.id, sourceDocumentID);
    && chapters(id).Ok?
    && var photo := DecodePhoto(chapters(id).value);
    && photo.Ok? && scrambles(OrElse(photo.value.id, id)).Ok?
  }

  lemma NothingArchived(md5Hex: Digest, id: nat, photo: Photo, fetched: nat -> Outcome<Bytes, string>, before: Bucket,
                        docs: Docs, now: int)
    ensures Underway(md5Hex, id, photo, fetched, before, before, docs, docs, [], now)
  {
  }

  lemma ArchivedExtends(md5Hex: Digest, id: nat, photo: Photo, before: Bucket, after: Bucket, docs: Docs, docs': Docs,
                        pages: seq<Page>, now: int)
    requires ArchivedFirst(md5Hex, id, photo, before, after, docs, docs', pages, now)
    ensures Extends(id, before, after)
  {
  }

  lemma ArchivedStill(md5Hex: Digest, id: nat, photo: Photo, before: Bucket, mid: Bucket, after: Bucket, docs: Docs,
                      docs': Docs, pages: seq<Page>, now: int)
    requires ArchivedFirst(md5Hex, id, photo, before, mid, docs, docs', pages, now) && Extends(id, mid, after)
    ensures ArchivedFirst(md5Hex, id, photo, before, after, docs, docs', pages, now)
  {
    hide PageKeyOf, PrefixOf, PageHash, ImageContentType, RecordAll, StoredAs, Extends;
    ExtendsTwice(id, before, mid, after);
    forall k | 0 <= k < |pages| ensures StoredAs(id, PlanAt(md5Hex, photo, k), pages[k], after) {
      StoredAsExtends(id, PlanAt(md5Hex, photo, k), pages[k], mid, after);
    }
  }

  lemma StoredKey(id: nat, plan: Lifecycle.PagePlan, page: Page, bucket: Bucket)
    requires StoredAs(id, plan, page, bucket)
    ensures KeyFor(id, plan).Ok? && KeyFor(id, plan).value in bucket
  {
  }
}
