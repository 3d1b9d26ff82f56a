/** A gallery: which pages it has, in which order they are shown, and how the results of their downloads are collected. */
module Galleries {
  import opened Wrappers
  import opened Strings
  import opened Model
  import Lifecycle

  datatype GalleryFile = GalleryFile(name: string, hash: string)

  datatype DownloadPage = DownloadPage(index: nat, name: string, url: string, hash: string, contentType: string)

  /** What the metadata of a gallery says. */
  datatype RawGallery = RawGallery(id: string, title: string, files: seq<GalleryFile>)

  /** How the metadata text is read. */
  type Reader = string -> Outcome<RawGallery, string>

  /** Metadata that cannot be read, or lists no file, is refused. */
  function Deserialize(read: Reader, meta: string): Outcome<RawGallery, string> {
    var gallery := read(meta);
    if gallery.Ok? && gallery.value.files == [] then Err("galleryinfo has no files") else gallery
  }

  /** The files a download of this metadata has to archive. */
  function FilesOf(read: Reader, meta: string): seq<GalleryFile> {
    if Deserialize(read, meta).Ok? then Deserialize(read, meta).value.files else []
  }

  /** A gallery is accepted exactly when its metadata can be read and lists a file, and then it is what was read. */
  lemma ReadsExactly(read: Reader, meta: string)
    ensures Deserialize(read, meta).Ok? <==> read(meta).Ok? && |read(meta).value.files| > 0
    ensures Deserialize(read, meta).Ok? ==>
              Deserialize(read, meta) == read(meta) && FilesOf(read, meta) == read(meta).value.files
    ensures read(meta).Err? ==> Deserialize(read, meta).Err? && Deserialize(read, meta).error == read(meta).error
  {
  }

  /** The address of an image, or why its hash has none. */
  type Locator = string -> Outcome<string, string>

  function WebpName(name: string): string {
    var trimmed := TrimSpace(name);
    if trimmed == "" then "page.webp"
    else BeforeLastDot(trimmed) + ".webp"
  }

  /** What precedes the last dot; everything when there is none. */
  function BeforeLastDot(s: string): string {
    if '.' !in s then s
    else if s[|s| - 1] == '.' then s[..|s| - 1]
    else BeforeLastDot(s[..|s| - 1])
  }

  /** The page is named after its file, with the extension after the last dot replaced. */
  lemma WebpNames(stem: string, ext: string)
    requires '.' !in ext && TrimSpace(stem + "." + ext) == stem + "." + ext
    ensures WebpName(stem + "." + ext) == stem + ".webp"
    ensures WebpName("") == "page.webp"
    ensures '.' !in stem && stem != "" && TrimSpace(stem) == stem ==> WebpName(stem) == stem + ".webp"
  {
    hide TrimSpace;
    CutAtLastDot(stem, ext);
    assert TrimSpace("") == "" by { TrimSpaceKeeps(""); }
  }

  lemma {:induction false} CutAtLastDot(stem: string, ext: string)
    requires '.' !in ext
    ensures BeforeLastDot(stem + "." + ext) == stem
  {
    var s := stem + "." + ext;
    assert s[|stem|] == '.';
    if ext != "" {
      CutAtLastDot(stem, ext[..|ext| - 1]);
      assert s[..|s| - 1] == stem + "." + ext[..|ext| - 1];
      assert s[|s| - 1] == ext[|ext| - 1];
    } else {
      assert s[..|s| - 1] == stem;
    }
  }

  function PlanOf(page: DownloadPage): Lifecycle.PagePlan {
    Lifecycle.PagePlan(page.index, page.hash, page.contentType)
  }

  // ----- deciding what to download -----

  /** Page i of a decoded gallery describes file i. */
  predicate Decodes(files: seq<GalleryFile>, locate: Locator, pages: seq<DownloadPage>) {
    && |pages| == |files|
    && forall i :: 0 <= i < |files| ==>
         && pages[i].index == i && pages[i].hash == files[i].hash && pages[i].contentType == "image/webp"
         && locate(files[i].hash) == Ok(pages[i].url) && pages[i].name == WebpName(files[i].name)
  }

  method DecodeDownloadPages(files: seq<GalleryFile>, locate: Locator) returns (r: Outcome<seq<DownloadPage>, string>)
    ensures r.Ok? ==> Decodes(files, locate, r.value)
    ensures r.Err? <==> exists i :: 0 <= i < |files| && locate(files[i].hash).Err?
  {
    hide WebpName;
    var pages: seq<DownloadPage> := [];
    for index := 0 to |files|
      invariant |pages| == index
      invariant forall i :: 0 <= i < index ==>
                  && pages[i].index == i && pages[i].hash == files[i].hash && pages[i].contentType == "image/webp"
                  && locate(files[i].hash) == Ok(pages[i].url) && pages[i].name == WebpName(files[i].name)
    {
      var file := files[index];
      var url := locate(file.hash);
      if url.Err? {
        return Err(url.error);
      }
      pages := pages + [DownloadPage(index, WebpName(file.name), url.value, file.hash, "image/webp")];
    }
    return Ok(pages);
  }

  predicate HasIndex(pages: seq<DownloadPage>, i: nat) {
    exists a :: 0 <= a < |pages| && pages[a].index == i
  }

  lemma TwiceMeansTwo<T>(s: seq<T>, a: nat, b: nat)
    requires a < b < |s| && s[a] == s[b]
    ensures multiset(s)[s[a]] >= 2
  {
    assert s == s[..a] + [s[a]] + s[a + 1..b] + [s[b]] + s[b + 1..];
  }

  lemma OnceMeansOne(pages: seq<DownloadPage>, i: nat)
    requires i < |pages| && forall k :: 0 <= k < |pages| ==> pages[k].index == k
    ensures multiset(pages)[pages[i]] == 1
  {
    assert pages == pages[..i] + [pages[i]] + pages[i + 1..];
    assert pages[i] !in pages[..i] && pages[i] !in pages[i + 1..];
  }

  /** Sorting keeps the indexes a permutation of 0 to n - 1: no two positions share one, and none is missing. */
  lemma SortingPermutesIndexes(pages: seq<DownloadPage>, sorted: seq<DownloadPage>)
    requires forall k :: 0 <= k < |pages| ==> pages[k].index == k
    requires multiset(sorted) == multiset(pages)
    ensures |sorted| == |pages|
    ensures forall a :: 0 <= a < |sorted| ==> sorted[a].index < |sorted|
    ensures forall a, b :: 0 <= a < b < |sorted| ==> sorted[a].index != sorted[b].index
    ensures forall i: nat :: i < |sorted| ==> HasIndex(sorted, i)
  {
    assert |multiset(sorted)| == |sorted| && |multiset(pages)| == |pages|;
    forall a | 0 <= a < |sorted| ensures sorted[a].index < |sorted| && pages[sorted[a].index] == sorted[a] {
      assert sorted[a] in multiset(pages);
    }
    forall a, b | 0 <= a < b < |sorted| ensures sorted[a].index != sorted[b].index {
      if sorted[a].index == sorted[b].index {
        TwiceMeansTwo(sorted, a, b);
        OnceMeansOne(pages, sorted[a].index);
      }
    }
    forall i: nat | i < |sorted| ensures HasIndex(sorted, i) {
      assert pages[i] in multiset(sorted);
    }
  }

  /** No two positions of the sorted gallery share an index. */
  predicate DistinctIndexes(sorted: seq<DownloadPage>) {
    forall a, b :: 0 <= a < b < |sorted| ==> sorted[a].index != sorted[b].index
  }

  predicate AllLocated(files: seq<GalleryFile>, locate: Locator) {
    forall i :: 0 <= i < |files| ==> locate(files[i].hash).Ok?
  }

  /** Every permutation of the pages: what the sort of a gallery by page name may be. */
  ghost predicate Sorts(sort: seq<DownloadPage> -> seq<DownloadPage>) {
    forall pages :: multiset(sort(pages)) == multiset(pages)
  }

  /** The pages of the gallery in the order of the sort. */
  ghost predicate SortedGallery(files: seq<GalleryFile>, locate: Locator, sort: seq<DownloadPage> -> seq<DownloadPage>,
                                sorted: seq<DownloadPage>) {
    && |sorted| == |files| && DistinctIndexes(sorted)
    && (forall i: nat :: i < |sorted| ==> HasIndex(sorted, i))
    && (forall a :: 0 <= a < |sorted| ==>
          && sorted[a].index < |files| && sorted[a].hash == files[sorted[a].index].hash
          && sorted[a].contentType == "image/webp" && locate(sorted[a].hash) == Ok(sorted[a].url))
    && exists decoded :: Decodes(files, locate, decoded) && sorted == sort(decoded)
  }

  lemma GalleryIsSorted(files: seq<GalleryFile>, locate: Locator, sort: seq<DownloadPage> -> seq<DownloadPage>,
                        decoded: seq<DownloadPage>)
    requires Sorts(sort) && Decodes(files, locate, decoded)
    ensures SortedGallery(files, locate, sort, sort(decoded))
    ensures |sort(decoded)| == |files| && DistinctIndexes(sort(decoded))
    ensures forall i: nat :: i < |files| ==> HasIndex(sort(decoded), i)
    ensures forall a :: 0 <= a < |files| ==> sort(decoded)[a].index < |files|
  {
    hide WebpName;
    var sorted := sort(decoded);
    SortingPermutesIndexes(decoded, sorted);
    forall a | 0 <= a < |sorted| ensures sorted[a] == decoded[sorted[a].index] {
      assert sorted[a] in multiset(decoded);
    }
  }

  /**
   * The same metadata is resolved and planned to the same pages, each file once, even when the addresses of the images
   * have changed in between.
   */
  lemma SameMetadataSamePlan(files: seq<GalleryFile>, locate: Locator, locate': Locator,
                             sort: seq<DownloadPage> -> seq<DownloadPage>, resolved: seq<DownloadPage>,
                             planned: seq<DownloadPage>)
    requires SortedGallery(files, locate, sort, resolved) && SortedGallery(files, locate', sort, planned)
    ensures |planned| == |resolved| == |files|
    ensures forall i: nat :: i < |files| ==> PlansFile(resolved, files, i) && PlansFile(planned, files, i)
  {
    forall i: nat | i < |files| ensures PlansFile(resolved, files, i) && PlansFile(planned, files, i) {
      assert HasIndex(resolved, i) && HasIndex(planned, i);
      var a :| 0 <= a < |resolved| && resolved[a].index == i;
      var b :| 0 <= b < |planned| && planned[b].index == i;
      assert PlanOf(resolved[a]) == FilePlan(files, i) && PlanOf(planned[b]) == FilePlan(files, i);
    }
  }

  function FilePlan(files: seq<GalleryFile>, i: nat): Lifecycle.PagePlan
    requires i < |files|
  {
    Lifecycle.PagePlan(i, files[i].hash, "image/webp")
  }

  predicate PlansFile(pages: seq<DownloadPage>, files: seq<GalleryFile>, i: nat)
    requires i < |files|
  {
    exists a :: 0 <= a < |pages| && PlanOf(pages[a]) == FilePlan(files, i)
  }

  // ----- collecting the results -----

  /** Each position of the gallery once: the order in which the downloads finish. */
  predicate IsCompletionOrder(finish: seq<nat>, n: nat) {
    && |finish| == n && (forall k :: 0 <= k < n ==> finish[k] < n)
    && (forall k, l :: 0 <= k < l < n ==> finish[k] != finish[l])
  }

  /** A failure of a task; only the rate limit of the image server makes the scheduler try again. */
  datatype Failure = RateLimited | Other(message: string)

  datatype PageResult = PageResult(position: nat, page: Outcome<Page, Failure>)

  /** One result for each position, in whatever order. */
  ghost predicate OnePerPosition(results: seq<PageResult>, n: nat) {
    && |results| == n
    && (forall k :: 0 <= k < n ==> results[k].position < n)
    && (forall k, l :: 0 <= k < l < n ==> results[k].position != results[l].position)
  }

  /** The page that came in for a position. */
  function PageAt(results: seq<PageResult>, position: nat): Option<Page> {
    if results == [] then None
    else
      var last := results[|results| - 1];
      if last.position == position && last.page.Ok? then Some(last.page.value)
      else PageAt(results[..|results| - 1], position)
  }

  /** The pages that came in, in the order of their positions. */
  function InOrder(results: seq<PageResult>, n: nat): seq<Page> {
    if n == 0 then []
    else InOrder(results, n - 1) + match PageAt(results, n - 1) case Some(page) => [page] case None => []
  }

  function FirstFailure(results: seq<PageResult>): Option<Failure> {
    if results == [] then None
    else
      var earlier := FirstFailure(results[..|results| - 1]);
      if earlier.Some? then earlier
      else match results[|results| - 1].page case Err(e) => Some(e) case Ok(_) => None
  }

  lemma {:induction false} PageAtFinds(results: seq<PageResult>, position: nat)
    requires forall k, l :: 0 <= k < l < |results| ==> results[k].position != results[l].position
    ensures forall page :: PageAt(results, position) == Some(page)
                           <==> PageResult(position, Ok(page)) in results
  {
    if results != [] {
      var front, last := results[..|results| - 1], results[|results| - 1];
      PageAtFinds(front, position);
      assert results == front + [last];
      assert forall r :: r in results <==> r in front || r == last;
      assert last.position == position ==> forall page :: PageResult(position, Ok(page)) !in front;
    }
  }

  lemma {:induction false} FirstFailureFinds(results: seq<PageResult>)
    ensures FirstFailure(results).None? <==> forall r :: r in results ==> r.page.Ok?
    ensures FirstFailure(results).Some? ==>
              exists k :: 0 <= k < |results| && results[k].page == Err(FirstFailure(results).value)
                          && forall j :: 0 <= j < k ==> results[j].page.Ok?
  {
    if results != [] {
      var front, last := results[..|results| - 1], results[|results| - 1];
      FirstFailureFinds(front);
      assert results == front + [last];
      assert forall r :: r in results <==> r in front || r == last;
    }
  }

  lemma {:induction false} InOrderSame(results: seq<PageResult>, results': seq<PageResult>, n: nat)
    requires forall p: nat :: p < n ==> PageAt(results, p) == PageAt(results', p)
    ensures InOrder(results, n) == InOrder(results', n)
  {
    if n > 0 {
      InOrderSame(results, results', n - 1);
    }
  }

  /** What is collected does not depend on the order in which the downloads finish. */
  lemma CollectionIgnoresOrder(results: seq<PageResult>, results': seq<PageResult>, n: nat)
    requires OnePerPosition(results, n) && OnePerPosition(results', n)
    requires multiset(results) == multiset(results')
    ensures InOrder(results, n) == InOrder(results', n)
    ensures FirstFailure(results).None? <==> FirstFailure(results').None?
  {
    assert forall r :: r in results <==> r in multiset(results);
    assert forall r :: r in results' <==> r in multiset(results');
    forall p: nat | p < n ensures PageAt(results, p) == PageAt(results', p) {
      PageAtFinds(results, p);
      PageAtFinds(results', p);
      var found, found' := PageAt(results, p), PageAt(results', p);
      if found.Some? { assert PageResult(p, Ok(found.value)) in results; }
      if found'.Some? { assert PageResult(p, Ok(found'.value)) in results'; }
    }
    InOrderSame(results, results', n);
    FirstFailureFinds(results);
    FirstFailureFinds(results');
  }

  function Below(n: nat): (s: set<nat>)
    ensures |s| == n && forall i: nat :: i in s <==> i < n
  {
    if n == 0 then {} else Below(n - 1) + {n - 1}
  }

  function PositionsOf(results: seq<PageResult>): (s: set<nat>)
    ensures forall p :: p in s <==> exists k :: 0 <= k < |results| && results[k].position == p
  {
    if results == [] then {}
    else
      var s := PositionsOf(results[..|results| - 1]) + {results[|results| - 1].position};
      assert forall p :: p in s ==> exists k :: 0 <= k < |results| && results[k].position == p;
      s
  }

  lemma {:induction false} DistinctPositions(results: seq<PageResult>)
    requires forall k, l :: 0 <= k < l < |results| ==> results[k].position != results[l].position
    ensures |PositionsOf(results)| == |results|
  {
    if results != [] {
      DistinctPositions(results[..|results| - 1]);
    }
  }

  lemma SubsetOfSameSize(a: set<nat>, b: set<nat>)
    requires a <= b && |a| == |b|
    ensures a == b
  {
    assert |b - a| == |b| - |a|;
  }

  lemma PositionsBelow(results: seq<PageResult>, n: nat)
    requires OnePerPosition(results, n)
    ensures PositionsOf(results) <= Below(n) && |Below(n)| == n
  {
    forall p | p in PositionsOf(results) ensures p in Below(n) {
      var k :| 0 <= k < |results| && results[k].position == p;
    }
  }

  lemma PositionIn(results: seq<PageResult>, p: nat)
    ensures p in PositionsOf(results) ==> exists k :: 0 <= k < |results| && results[k].position == p
    ensures forall n: nat :: p in Below(n) <==> p < n
  {
  }

  /** Every position has its result. */
  lemma EveryPositionAnswered(results: seq<PageResult>, n: nat, p: nat)
    requires OnePerPosition(results, n) && p < n
    ensures exists k :: 0 <= k < n && results[k].position == p
  {
    hide PositionsOf, Below;
    DistinctPositions(results);
    PositionsBelow(results, n);
    PositionIn(results, p);
    SubsetOfSameSize(PositionsOf(results), Below(n));
  }

  lemma {:induction false} InOrderFull(results: seq<PageResult>, pages: seq<Page>, n: nat)
    requires n <= |pages| && forall p :: 0 <= p < n ==> PageAt(results, p) == Some(pages[p])
    ensures InOrder(results, n) == pages[..n]
  {
    if n > 0 {
      InOrderFull(results, pages, n - 1);
    }
  }

  lemma AllCompleted(results: seq<PageResult>, n: nat, pages: seq<Page>)
    requires OnePerPosition(results, n) && |pages| == n && forall r :: r in results ==> r.page.Ok?
    requires forall p :: 0 <= p < n && PageAt(results, p).Some? ==> PageAt(results, p).value == pages[p]
    ensures InOrder(results, n) == pages
    ensures forall k :: 0 <= k < n ==> results[k].page == Ok(pages[results[k].position])
  {
    forall p | 0 <= p < n ensures PageAt(results, p) == Some(pages[p]) {
      EveryPositionAnswered(results, n, p);
      PageAtFinds(results, p);
      var k :| 0 <= k < n && results[k].position == p;
      assert results[k] in results && results[k] == PageResult(p, Ok(results[k].page.value));
    }
    forall k | 0 <= k < n ensures results[k].page == Ok(pages[results[k].position]) {
      var r := results[k];
      assert r in results && r == PageResult(r.position, Ok(r.page.value));
      PageAtFinds(results, r.position);
    }
    InOrderFull(results, pages, n);
  }

  /** Collects the results as they come in, and orders the pages by position. */
  method Collect(n: nat, results: seq<PageResult>) returns (pages: seq<Page>, err: Option<Failure>)
    requires OnePerPosition(results, n)
    ensures err == FirstFailure(results)
    ensures pages == InOrder(results, n)
    ensures err.None? ==> |pages| == n && forall k :: 0 <= k < n ==> results[k].page == Ok(pages[results[k].position])
  {
    var archivedPages := new Page[n](_ => EMPTY_PAGE);
    var completed := new bool[n](_ => false);
    err := None;
    for k := 0 to n
      invariant err == FirstFailure(results[..k])
      invariant forall p :: 0 <= p < n ==>
                  PageAt(results[..k], p) == if completed[p] then Some(archivedPages[p]) else None
    {
      var result := results[k];
      assert results[..k + 1][..k] == results[..k];
      if result.page.Err? {
        if err.None? {
          err := Some(result.page.error);
        }
        continue;
      }
      archivedPages[result.position] := result.page.value;
      completed[result.position] := true;
    }
    assert results[..n] == results;
    FirstFailureFinds(results);
    if err.None? {
      AllCompleted(results, n, archivedPages[..]);
      return archivedPages[..], err;
    }
    var partial := [];
    for position := 0 to n
      invariant partial == InOrder(results, position)
    {
      if completed[position] {
        partial := partial + [archivedPages[position]];
      }
    }
    return partial, err;
  }
}
