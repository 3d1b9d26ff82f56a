/** The Hitomi handler: it downloads the pages of a gallery concurrently and collects them as they finish. */
module Hitomi {
  import opened Wrappers
  import opened Strings
  import opened Keys
  import opened Model
  import opened StoreSpec
  import opened Objects
  import opened MemoryStores
  import opened Recording
  import opened Downloads
  import opened Galleries
  import opened HitomiOutcomes
  import Lifecycle

  // ----- the downloads that have finished -----

  predicate DistinctlyIndexed(pages: seq<Page>) {
    && (forall k :: 0 <= k < |pages| ==> pages[k].key != "" && pages[k].index >= 0)
    && (forall k, l :: 0 <= k < l < |pages| ==> pages[k].index != pages[l].index)
  }

  /**
   * The first downloads have finished: the bucket holds what they put, those that succeeded have recorded
   * the page of their stored object, and on an emptied document these are exactly the ones that arrived.
   */
  ghost predicate FinishedFirst(g: Gallery, finish: seq<nat>, results: seq<PageResult>, recorded: seq<Page>,
                                after: Bucket, docs: Docs, docs': Docs) {
    && |results| <= |finish| && IsCompletionOrder(finish, |g.sorted|)
    && after == BucketAfter(g, finish, |results|)
    && (forall k :: 0 <= k < |results| ==> results[k].position == finish[k])
    && (forall k :: 0 <= k < |results| && results[k].page.Ok? ==>
          StoredAs(g.id, PlanAt(g, finish[k]), results[k].page.value, after))
    && (forall page :: page in recorded <==> HasPage(results, page))
    && DistinctlyIndexed(recorded)
    && RecordAll(docs, g.id, recorded, g.now) == (docs', true)
    && (forall k :: 0 <= k < |results| && results[k].page.Ok? ==> Arrives(g, finish, k))
    && (StartsEmpty(docs, g.id) ==> forall k :: 0 <= k < |results| && Arrives(g, finish, k) ==> results[k].page.Ok?)
  }

  predicate HasPage(results: seq<PageResult>, page: Page) {
    exists k :: 0 <= k < |results| && results[k].page == Ok(page)
  }

  lemma HasPageNext(results: seq<PageResult>, r: PageResult, page: Page)
    ensures HasPage(results + [r], page) <==> HasPage(results, page) || r.page == Ok(page)
  {
    var all := results + [r];
    if HasPage(results, page) {
      var k :| 0 <= k < |results| && results[k].page == Ok(page);
      assert all[k].page == Ok(page);
    }
    if r.page == Ok(page) {
      assert all[|results|].page == Ok(page);
    }
  }

  lemma NothingFinished(g: Gallery, finish: seq<nat>, docs: Docs)
    requires IsCompletionOrder(finish, |g.sorted|)
    ensures FinishedFirst(g, finish, [], [], g.before, docs, docs)
  {
  }

  /** What the next download to finish comes to. */
  function NextAttempt(g: Gallery, finish: seq<nat>, k: nat, mid: Bucket, docs: Docs): Attempt
    requires IsCompletionOrder(finish, |g.sorted|) && k < |finish|
  {
    var p := finish[k];
    Retried(g.id, PlanAt(g, p), g.fetches(p), 1, g.cuts(p), mid, docs, g.now)
  }

  /** Whatever the next download comes to, the pages stored so far stay stored. */
  lemma StoredStays(g: Gallery, finish: seq<nat>, results: seq<PageResult>, recorded: seq<Page>, mid: Bucket,
                    docs: Docs, docs': Docs, after: Bucket)
    requires FinishedFirst(g, finish, results, recorded, mid, docs, docs') && |results| < |finish|
    requires after == BucketAfter(g, finish, |results| + 1)
    ensures forall k :: 0 <= k < |results| && results[k].page.Ok? ==>
              StoredAs(g.id, PlanAt(g, finish[k]), results[k].page.value, after)
  {
    hide RecordAll, StoredAs, Extends, PageKeyOf, HasPage, DistinctlyIndexed, BucketAfter, Arrives;
    BucketAfterExtends(g, finish, |results|, |results| + 1);
    forall k | 0 <= k < |results| && results[k].page.Ok?
      ensures StoredAs(g.id, PlanAt(g, finish[k]), results[k].page.value, after)
    {
      StoredAsExtends(g.id, PlanAt(g, finish[k]), results[k].page.value, mid, after);
    }
  }

  lemma OneMoreFailed(g: Gallery, finish: seq<nat>, results: seq<PageResult>, recorded: seq<Page>, mid: Bucket,
                      after: Bucket, docs: Docs, docs': Docs, e: Failure)
    requires FinishedFirst(g, finish, results, recorded, mid, docs, docs') && |results| < |finish|
    requires after == BucketAfter(g, finish, |results| + 1)
    requires StartsEmpty(docs, g.id) ==> !Arrives(g, finish, |results|)
    ensures FinishedFirst(g, finish, results + [PageResult(finish[|results|], Err(e))], recorded, after, docs, docs')
  {
    hide RecordAll, StoredAs, Extends, PageKeyOf, HasPage, DistinctlyIndexed, BucketAfter, Arrives;
    var r := PageResult(finish[|results|], Err(e));
    StoredStays(g, finish, results, recorded, mid, docs, docs', after);
    forall page ensures HasPage(results + [r], page) <==> HasPage(results, page) {
      HasPageNext(results, r, page);
    }
  }

  lemma OneMoreFinished(g: Gallery, finish: seq<nat>, results: seq<PageResult>, recorded: seq<Page>, mid: Bucket,
                        after: Bucket, docs: Docs, docs1: Docs, docs2: Docs, page: Page)
    requires FinishedFirst(g, finish, results, recorded, mid, docs, docs1)
    requires DistinctIndexes(g.sorted) && |results| < |finish| && after == BucketAfter(g, finish, |results| + 1)
    requires StoredAs(g.id, PlanAt(g, finish[|results|]), page, after) && Arrives(g, finish, |results|)
    requires Reply(docs2, Ok(())) == AddPage(docs1, g.id, page, g.now)
    ensures FinishedFirst(g, finish, results + [PageResult(finish[|results|], Ok(page))], recorded + [page], after,
                          docs, docs2)
  {
    hide RecordAll, StoredAs, Extends, PageKeyOf, HasPage, DistinctlyIndexed, BucketAfter, Arrives;
    var k0 := |results|;
    var r := PageResult(finish[k0], Ok(page));
    RecordOneMore(docs, g.id, recorded, page, g.now);
    forall p ensures p in recorded + [page] <==> HasPage(results + [r], p) {
      HasPageNext(results, r, p);
    }
    StoredStays(g, finish, results, recorded, mid, docs, docs1, after);
    NewIndex(g, finish, results, recorded, mid, docs, docs1, page, after);
    DistinctlyIndexedNext(recorded, page);
  }

  /** A page of the next download has an index that no recorded page has. */
  lemma NewIndex(g: Gallery, finish: seq<nat>, results: seq<PageResult>, recorded: seq<Page>, mid: Bucket,
                 docs: Docs, docs': Docs, page: Page, after: Bucket)
    requires FinishedFirst(g, finish, results, recorded, mid, docs, docs')
    requires DistinctIndexes(g.sorted) && |results| < |finish|
    requires StoredAs(g.id, PlanAt(g, finish[|results|]), page, after)
    ensures page.key != "" && page.index >= 0
    ensures forall p :: p in recorded ==> p.index != page.index
  {
    hide RecordAll, StoredAs, Extends, PageKeyOf, HasPage, DistinctlyIndexed, BucketAfter, Arrives;
    var k0 := |results|;
    StoredPage(g.id, PlanAt(g, finish[k0]), page, after);
    forall p | p in recorded ensures p.index != page.index {
      var k := PageOrigin(results, p);
      StoredPage(g.id, PlanAt(g, finish[k]), p, mid);
      assert g.sorted[finish[k]].index != g.sorted[finish[k0]].index;
    }
  }

  ghost function PageOrigin(results: seq<PageResult>, page: Page): (k: nat)
    requires HasPage(results, page)
    ensures k < |results| && results[k].page == Ok(page)
  {
    var k :| 0 <= k < |results| && results[k].page == Ok(page);
    k
  }

  lemma DistinctlyIndexedNext(pages: seq<Page>, page: Page)
    requires DistinctlyIndexed(pages) && page.key != "" && page.index >= 0
    requires forall p :: p in pages ==> p.index != page.index
    ensures DistinctlyIndexed(pages + [page])
  {
  }

  /** One more download has finished, well or badly. */
  lemma OneMore(g: Gallery, finish: seq<nat>, results: seq<PageResult>, recorded: seq<Page>, mid: Bucket, docs: Docs,
                docs1: Docs)
    requires FinishedFirst(g, finish, results, recorded, mid, docs, docs1)
    requires DistinctIndexes(g.sorted) && |results| < |finish|
    ensures var t := NextAttempt(g, finish, |results|, mid, docs1);
            FinishedFirst(g, finish, results + [PageResult(finish[|results|], t.result)],
                          if t.result.Ok? then recorded + [t.result.value] else recorded, t.bucket, docs, t.docs)
  {
    hide RecordAll, StoredAs, Extends, PageKeyOf, HasPage, DistinctlyIndexed, BucketWith, Retried, Obtained, AddPage,
      TurnedDown, FinishedFirst;
    var k, p := |results|, finish[|results|];
    StandsAt(g, finish, results, recorded, mid, docs, docs1);
    var t := NextAttempt(g, finish, k, mid, docs1);
    RetriedExactly(g.id, PlanAt(g, p), g.fetches(p), 1, g.cuts(p), mid, docs1, g.now);
    if t.result.Ok? {
      OneMoreFinished(g, finish, results, recorded, mid, t.bucket, docs, docs1, t.docs, t.result.value);
    } else {
      if StartsEmpty(docs, g.id) && Arrives(g, finish, k) {
        var page :| TurnedDown(docs1, g.id, PlanAt(g, p), page, g.now) && StoredAs(g.id, PlanAt(g, p), page, t.bucket);
        NextIsRecorded(g, finish, results, recorded, mid, docs, docs1, page, t.bucket);
        assert false;
      }
      OneMoreFailed(g, finish, results, recorded, mid, t.bucket, docs, docs1, t.result.error);
    }
  }

  lemma StandsAt(g: Gallery, finish: seq<nat>, results: seq<PageResult>, recorded: seq<Page>, mid: Bucket, docs: Docs,
                 docs': Docs)
    requires FinishedFirst(g, finish, results, recorded, mid, docs, docs')
    ensures IsCompletionOrder(finish, |g.sorted|) && mid == BucketAfter(g, finish, |results|)
  {
  }

  /** On an emptied document the store never refuses the page of the next download. */
  lemma NextIsRecorded(g: Gallery, finish: seq<nat>, results: seq<PageResult>, recorded: seq<Page>, mid: Bucket,
                       docs: Docs, docs': Docs, page: Page, after: Bucket)
    requires FinishedFirst(g, finish, results, recorded, mid, docs, docs')
    requires DistinctIndexes(g.sorted) && |results| < |finish| && StartsEmpty(docs, g.id)
    requires StoredAs(g.id, PlanAt(g, finish[|results|]), page, after)
    ensures !TurnedDown(docs', g.id, PlanAt(g, finish[|results|]), page, g.now)
  {
    hide StoredAs, PageKeyOf, HasPage, BucketAfter, Arrives, RecordAll;
    NewIndex(g, finish, results, recorded, mid, docs, docs', page, after);
    DistinctlyIndexedNext(recorded, page);
    RecordingSucceeds(docs, g.id, recorded + [page], g.now);
    RecordOneMore(docs, g.id, recorded, page, g.now);
  }

  // ----- what the collected pages and the recorded ones have in common -----

  predicate CameInBelow(results: seq<PageResult>, n: nat, page: Page) {
    exists p: nat :: p < n && PageAt(results, p) == Some(page)
  }

  lemma CameInAt(results: seq<PageResult>, n: nat, p: nat, page: Page)
    requires p < n && PageAt(results, p) == Some(page)
    ensures CameInBelow(results, n, page)
  {
  }

  lemma CameInNext(results: seq<PageResult>, n: nat, page: Page)
    ensures CameInBelow(results, n + 1, page) <==> CameInBelow(results, n, page) || PageAt(results, n) == Some(page)
  {
    hide PageAt;
    if CameInBelow(results, n, page) {
      var p: nat :| p < n && PageAt(results, p) == Some(page);
      CameInAt(results, n + 1, p, page);
    }
    if PageAt(results, n) == Some(page) {
      CameInAt(results, n + 1, n, page);
    }
  }

  lemma {:induction false} InOrderElements(results: seq<PageResult>, n: nat, page: Page)
    ensures page in InOrder(results, n) <==> CameInBelow(results, n, page)
  {
    hide PageAt;
    if n > 0 {
      InOrderElements(results, n - 1, page);
      CameInNext(results, n - 1, page);
    }
  }

  lemma {:induction false} InOrderDistinct(results: seq<PageResult>, sorted: seq<DownloadPage>, n: nat)
    requires n <= |sorted| && DistinctIndexes(sorted)
    requires forall p: nat :: p < n && PageAt(results, p).Some? ==>
               PageAt(results, p).value.index == sorted[p].index && PageAt(results, p).value.key != ""
    ensures DistinctlyIndexed(InOrder(results, n))
  {
    hide PageAt;
    if n > 0 {
      InOrderDistinct(results, sorted, n - 1);
      var front := InOrder(results, n - 1);
      if PageAt(results, n - 1).Some? {
        var page := PageAt(results, n - 1).value;
        forall p | p in front ensures p.index != page.index {
          InOrderElements(results, n - 1, p);
        }
        DistinctlyIndexedNext(front, page);
      }
    }
  }

  function Elements(pages: seq<Page>): (s: set<Page>)
    ensures forall p :: p in s <==> p in pages
  {
    if pages == [] then {} else Elements(pages[..|pages| - 1]) + {pages[|pages| - 1]}
  }

  lemma {:induction false} DistinctCount(pages: seq<Page>)
    requires DistinctlyIndexed(pages)
    ensures |Elements(pages)| == |pages|
  {
    if pages != [] {
      DistinctCount(pages[..|pages| - 1]);
    }
  }

  lemma SameElementsSameCount(pages: seq<Page>, pages': seq<Page>)
    requires DistinctlyIndexed(pages) && DistinctlyIndexed(pages') && forall p :: p in pages <==> p in pages'
    ensures |pages| == |pages'|
  {
    hide DistinctlyIndexed;
    DistinctCount(pages);
    DistinctCount(pages');
    assert Elements(pages) == Elements(pages');
  }

  lemma ShowsSameElements(slice: seq<Page>, pages: seq<Page>, pages': seq<Page>)
    requires Shows(slice, pages) && forall p :: p in pages <==> p in pages'
    ensures Shows(slice, pages')
  {
  }

  /** On an emptied document the slice shows exactly the pages, once each, when these are what was recorded. */
  lemma RecordedShows(docs: Docs, id: nat, recorded: seq<Page>, pages: seq<Page>, now: int)
    requires Visible(docs, id) && docs[id].pages == [] && docs[id].progress.done == 0
    requires DistinctlyIndexed(recorded) && DistinctlyIndexed(pages)
    requires forall p :: p in recorded <==> p in pages
    ensures var d := RecordAll(docs, id, recorded, now).0[id];
            Shows(d.pages, pages) && d.progress.done == |pages|
  {
    hide Shows, Recordable;
    DistinctIsRecordable(recorded);
    RecordsExactly(docs, id, recorded, now);
    hide RecordAll, DistinctlyIndexed;
    SameElementsSameCount(recorded, pages);
    ShowsSameElements(RecordAll(docs, id, recorded, now).0[id].pages, recorded, pages);
  }

  /** Once all downloads have finished, what was collected is what was recorded. */
  lemma {:induction false} CollectedIsRecorded(g: Gallery, finish: seq<nat>, results: seq<PageResult>,
                                               recorded: seq<Page>, after: Bucket, docs: Docs, docs': Docs)
    requires FinishedFirst(g, finish, results, recorded, after, docs, docs')
    requires DistinctIndexes(g.sorted) && |results| == |g.sorted|
    ensures OnePerPosition(results, |g.sorted|)
    ensures DistinctlyIndexed(recorded) && DistinctlyIndexed(InOrder(results, |g.sorted|))
    ensures forall p :: p in recorded <==> p in InOrder(results, |g.sorted|)
    ensures forall p: nat :: p < |g.sorted| && PageAt(results, p).Some? ==>
              StoredAs(g.id, PlanAt(g, p), PageAt(results, p).value, after)
  {
    hide RecordAll, StoredAs, Extends, PageKeyOf, PageAt, InOrder, BucketAfter, Arrives;
    var n := |g.sorted|;
    forall p: nat | p < n && PageAt(results, p).Some?
      ensures StoredAs(g.id, PlanAt(g, p), PageAt(results, p).value, after)
      ensures PageAt(results, p).value.index == g.sorted[p].index && PageAt(results, p).value.key != ""
      ensures HasPage(results, PageAt(results, p).value)
    {
      PageAtFinds(results, p);
      var r := PageResult(p, Ok(PageAt(results, p).value));
      var k :| 0 <= k < |results| && results[k] == r;
      StoredPage(g.id, PlanAt(g, p), r.page.value, after);
    }
    InOrderDistinct(results, g.sorted, n);
    forall page ensures page in recorded <==> page in InOrder(results, n) {
      InOrderElements(results, n, page);
      if HasPage(results, page) {
        var k := PageOrigin(results, page);
        PageAtFinds(results, results[k].position);
        assert results[k] == PageResult(results[k].position, Ok(page)) && results[k] in results;
        CameInAt(results, n, results[k].position, page);
      }
    }
  }

  /** When pages with all the indexes 0 to n - 1 are shown, the slice is full. */
  lemma ShowsEveryIndex(slice: seq<Page>, pages: seq<Page>, n: nat)
    requires Shows(slice, pages) && (forall p :: p in pages ==> 0 <= p.index < n)
    requires forall i :: 0 <= i < n ==> IndexShown(pages, i)
    ensures |slice| == n && forall i :: 0 <= i < n ==> SlotExists(slice[i], i)
  {
    forall i | 0 <= i < n ensures i < |slice| && SlotExists(slice[i], i) {
      assert IndexShown(pages, i);
      var p :| p in pages && p.index == i;
    }
    assert |slice| >= n by {
      if n > 0 {
        assert IndexShown(pages, n - 1);
      }
    }
    assert |slice| <= n by {
      assert slice != [] ==> slice[|slice| - 1] in pages;
    }
  }

  predicate IndexShown(pages: seq<Page>, i: int) {
    exists p :: p in pages && p.index == i
  }

  datatype ResolvedGallery = ResolvedGallery(
    sourceMeta: string, sourceDocumentID: string, title: string, pages: seq<Lifecycle.PagePlan>)

  class Handler {
    const objects: MemoryObjectStore
    /** The store behind the hook that records pages. */
    const documents: MemoryStore
    const sort: seq<DownloadPage> -> seq<DownloadPage>
    const read: Reader

    constructor (objects: MemoryObjectStore, documents: MemoryStore, sort: seq<DownloadPage> -> seq<DownloadPage>,
                 read: Reader)
      ensures this.objects == objects && this.documents == documents && this.sort == sort && this.read == read
    {
      this.objects := objects;
      this.documents := documents;
      this.sort := sort;
      this.read := read;
    }

    ghost predicate Valid() {
      Sorts(sort)
    }

    function Left(result: Outcome<Page, Failure>): Attempt
      reads objects, documents
    {
      Attempt(objects.objects, documents.docs, result)
    }

    /** The pages of a gallery, in the order of the sort. */
    method ResolveComic(files: seq<GalleryFile>, locates: Outcome<Locator, string>)
      returns (r: Outcome<seq<DownloadPage>, string>)
      requires Valid()
      ensures r.Ok? <==> locates.Ok? && AllLocated(files, locates.value)
      ensures r.Ok? ==> SortedGallery(files, locates.value, sort, r.value)
      ensures r.Ok? ==> |r.value| == |files| && DistinctIndexes(r.value)
      ensures r.Ok? ==> forall i: nat :: i < |files| ==> HasIndex(r.value, i)
      ensures r.Ok? ==> forall a :: 0 <= a < |files| ==> r.value[a].index < |files|
    {
      hide SortedGallery, Decodes, DistinctIndexes, HasIndex;
      if locates.Err? {
        return Err(locates.error);
      }
      var decoded := DecodeDownloadPages(files, locates.value);
      if decoded.Err? {
        return Err(decoded.error);
      }
      GalleryIsSorted(files, locates.value, sort, decoded.value);
      return Ok(sort(decoded.value));
    }

    /** Page k of the resolved document describes the page at position k of the sorted gallery. */
    method ResolveDocument(galleryID: string, texts: string -> Outcome<string, string>, locates: Outcome<Locator, string>)
      returns (r: Outcome<ResolvedGallery, string>, ghost sorted: seq<DownloadPage>)
      requires Valid()
      ensures var id := TrimSpace(galleryID);
              r.Ok? <==> id != "" && texts(id).Ok? && Deserialize(read, texts(id).value).Ok? && locates.Ok?
                         && AllLocated(FilesOf(read, texts(id).value), locates.value)
      ensures r.Ok? ==>
                var meta := texts(TrimSpace(galleryID)).value;
                && r.value.sourceMeta == meta && r.value.sourceDocumentID == Deserialize(read, meta).value.id
                && r.value.title == Deserialize(read, meta).value.title
                && SortedGallery(FilesOf(read, meta), locates.value, sort, sorted)
                && |r.value.pages| == |sorted|
                && forall k :: 0 <= k < |sorted| ==>
                     r.value.pages[k] == Lifecycle.PagePlan(k, sorted[k].hash, sorted[k].contentType)
    {
      hide SortedGallery, TrimSpace, AllLocated;
      sorted := [];
      var id := TrimSpace(galleryID);
      if id == "" {
        return Err("gallery id is required"), sorted;
      }
      var text := texts(id);
      if text.Err? {
        return Err(text.error), sorted;
      }
      var gallery := Deserialize(read, text.value);
      if gallery.Err? {
        return Err(gallery.error), sorted;
      }
      var resolved := ResolveComic(gallery.value.files, locates);
      if resolved.Err? {
        return Err(resolved.error), sorted;
      }
      var comic := resolved.value;
      sorted := comic;
      var pages := new Lifecycle.PagePlan[|comic|](_ => Lifecycle.PagePlan(0, "", ""));
      for index := 0 to |comic|
        invariant forall k :: 0 <= k < index ==>
                    pages[k] == Lifecycle.PagePlan(k, comic[k].hash, comic[k].contentType)
      {
        pages[index] := Lifecycle.PagePlan(index, comic[index].hash, comic[index].contentType);
      }
      return Ok(ResolvedGallery(text.value, gallery.value.id, gallery.value.title, pages[..])), sorted;
    }

    /** One attempt: reuse the object or fetch and put it, then record the page. */
    method DownloadPage(id: nat, page: DownloadPage, fetched: Lifecycle.FetchResult, attempt: nat, cut: Cut, now: int)
      returns (r: Outcome<Page, Failure>)
      modifies objects, documents
      ensures Left(r) == Tried(id, PlanOf(page), fetched, attempt, cut, old(objects.objects), old(documents.docs), now)
      ensures forall key :: key in objects.objects && key !in old(objects.objects) ==>
                fetched.FetchedBytes? && Holds(objects.objects[key], PlanOf(page), fetched.content)
      ensures forall key :: key in old(objects.objects) ==>
                key in objects.objects && objects.objects[key] == old(objects.objects)[key]
      ensures r.Ok? ==> StoredAs(id, PlanOf(page), r.value, objects.objects)
    {
      hide PageKeyOf, PrefixOf, ManifestKeyOf;
      if cut == BeforeHead(attempt) {
        return Err(Other("context canceled"));
      }
      var key := PageKeyOf(id, page.hash, page.contentType);
      if key.Err? {
        return Err(Other("build page object key"));
      }
      ghost var plan := PlanOf(page);
      PageKeyFacts(id, page.hash, page.contentType);
      KeyNeedsHash(id, plan);
      var size: int;
      var head := objects.HeadObject(key.value);
      if head.Ok? {
        if head.value.etag != "" && head.value.etag != page.hash {
          return Err(Other("object hash mismatch"));
        }
        size := head.value.size;
      } else {
        match fetched {
          case RateLimited => return Err(Galleries.RateLimited);
          case FetchFailed => return Err(Other("failed to download page"));
          case FetchedBytes(content) =>
            size := |content|;
            var put := objects.PutObject(ObjectInfo(key.value, size, page.contentType, page.hash), content, now);
            assert put.Ok?;
        }
      }
      if cut.BeforeRecord? {
        return Err(Other("context canceled"));
      }
      var docPage := Page(page.index, key.value, page.contentType, size, page.hash);
      assert docPage == Lifecycle.PageFor(plan, key.value, size);
      var recorded := documents.AddPage(id, docPage, now);
      if recorded.Err? {
        return Err(Other("page download hook"));
      }
      return Ok(docPage);
    }

    /** A page under the scheduler: tried again after each rate limit, at most five times in all. */
    method DownloadWithRetries(id: nat, page: DownloadPage, fetches: Fetches, cut: Cut, now: int)
      returns (r: Outcome<Page, Failure>)
      modifies objects, documents
      ensures Left(r) == Retried(id, PlanOf(page), fetches, 1, cut, old(objects.objects), old(documents.docs), now)
    {
      hide Tried;
      var attempt: nat := 1;
      while true
        invariant 1 <= attempt <= Lifecycle.MAX_ATTEMPTS
        invariant Retried(id, PlanOf(page), fetches, 1, cut, old(objects.objects), old(documents.docs), now)
                  == Retried(id, PlanOf(page), fetches, attempt, cut, objects.objects, documents.docs, now)
        decreases Lifecycle.MAX_ATTEMPTS - attempt
      {
        ghost var bucket, docs := objects.objects, documents.docs;
        r := DownloadPage(id, page, fetches(attempt), attempt, cut, now);
        if r != Err(Galleries.RateLimited) {
          return;
        }
        if attempt >= Lifecycle.MAX_ATTEMPTS {
          return;
        }
        RateLimitedLeaves(id, PlanOf(page), fetches(attempt), attempt, cut, bucket, docs, now);
        attempt := attempt + 1;
      }
    }

    /**
     * Downloads a gallery whose pages finish in the order `finish`. Which downloads arrive is decided by what the
     * bucket held, what the server answers and where cancellation strikes. On an emptied document the slice then
     * shows exactly the returned pages: all of them, without a hole, when nothing failed.
     */
    method ArchiveContent(id: nat, sourceMeta: string, locates: Outcome<Locator, string>, finish: seq<nat>,
                          fetches: nat -> Fetches, cuts: nat -> Cut, now: int)
      returns (pages: seq<Page>, err: Option<Failure>, ghost sorted: seq<DownloadPage>, ghost results: seq<PageResult>)
      requires Valid() && IsCompletionOrder(finish, |FilesOf(read, sourceMeta)|)
      modifies objects, documents
      ensures !Downloadable(read, sourceMeta, locates)
              ==> pages == [] && err.Some? && documents.docs == old(documents.docs)
                  && objects.objects == old(objects.objects)
      ensures Downloadable(read, sourceMeta, locates)
              ==> && SortedGallery(FilesOf(read, sourceMeta), locates.value, sort, sorted)
                  && var g := Gallery(id, sorted, fetches, cuts, old(objects.objects), now);
                  && DownloadEnded(g, finish, results, pages, err, objects.objects, old(documents.docs), documents.docs)
                  && (err.None? ==> AllArchived(g, pages, objects.objects, old(documents.docs), documents.docs))
    {
      hide FinishedFirst, DownloadEnded, AllArchived, SortedGallery, InOrder, IsCompletionOrder, Retried, AllLocated,
        DistinctIndexes, HasIndex;
      sorted, results := [], [];
      var comic := Deserialize(read, sourceMeta);
      if comic.Err? {
        return [], Some(Other(comic.error)), sorted, results;
      }
      var resolved := ResolveComic(comic.value.files, locates);
      if resolved.Err? {
        return [], Some(Other(resolved.error)), sorted, results;
      }
      var gallery := resolved.value;
      sorted := gallery;
      ghost var g := Gallery(id, sorted, fetches, cuts, objects.objects, now);
      ghost var docs, recorded := documents.docs, [];
      NothingFinished(g, finish, docs);
      var arrived: seq<PageResult> := [];
      for k := 0 to |finish|
        invariant |arrived| == k
        invariant FinishedFirst(g, finish, arrived, recorded, objects.objects, docs, documents.docs)
      {
        OrderInRange(finish, |gallery|, k);
        OneMore(g, finish, arrived, recorded, objects.objects, docs, documents.docs);
        var position := finish[k];
        var r := DownloadWithRetries(id, gallery[position], fetches(position), cuts(position), now);
        recorded := if r.Ok? then recorded + [r.value] else recorded;
        arrived := arrived + [PageResult(position, r)];
      }
      results := arrived;
      OrderLength(finish, |gallery|);
      CollectedIsRecorded(g, finish, results, recorded, objects.objects, docs, documents.docs);
      pages, err := Collect(|gallery|, arrived);
      Ended(g, finish, results, recorded, pages, err, objects.objects, docs, documents.docs);
    }
  }

  lemma RateLimitedLeaves(id: nat, plan: Lifecycle.PagePlan, fetched: Lifecycle.FetchResult, attempt: nat, cut: Cut,
                          bucket: Bucket, docs: Docs, now: int)
    ensures var t := Tried(id, plan, fetched, attempt, cut, bucket, docs, now);
            t.result == Err(Galleries.RateLimited) ==> t.bucket == bucket && t.docs == docs
  {
    hide PageKeyOf, AddPage;
  }

  /** The metadata can be read, the addresses are known, and every file has one. */
  predicate Downloadable(read: Reader, sourceMeta: string, locates: Outcome<Locator, string>) {
    Deserialize(read, sourceMeta).Ok? && locates.Ok? && AllLocated(FilesOf(read, sourceMeta), locates.value)
  }

  /** The store has recorded these pages, in some order, and changed nothing else. */
  ghost predicate RecordedExactly(docs: Docs, docs': Docs, id: nat, pages: seq<Page>, now: int) {
    exists recorded: seq<Page> :: SameElements(recorded, pages) && RecordAll(docs, id, recorded, now) == (docs', true)
  }

  ghost predicate SameElements(pages: seq<Page>, pages': seq<Page>) {
    |pages| == |pages'| && forall p :: p in pages <==> p in pages'
  }

  /** How the whole download ends: what is returned, what is stored, and what the document shows. */
  ghost predicate DownloadEnded(g: Gallery, finish: seq<nat>, results: seq<PageResult>, pages: seq<Page>,
                                err: Option<Failure>, after: Bucket, docs: Docs, docs': Docs) {
    && IsCompletionOrder(finish, |g.sorted|) && |results| == |g.sorted|
    && (forall k :: 0 <= k < |results| ==> results[k].position == finish[k])
    && (forall k :: 0 <= k < |results| && results[k].page.Ok? ==> Arrives(g, finish, k))
    && (StartsEmpty(docs, g.id) ==> forall k :: 0 <= k < |results| ==> (results[k].page.Ok? <==> Arrives(g, finish, k)))
    && pages == InOrder(results, |g.sorted|) && err == FirstFailure(results)
    && (forall p: nat :: p < |g.sorted| && PageAt(results, p).Some? ==>
          StoredAs(g.id, PlanAt(g, p), PageAt(results, p).value, after))
    && after == BucketAfter(g, finish, |g.sorted|) && Extends(g.id, g.before, after)
    && (forall key :: key in after && key !in g.before ==>
          exists p: nat, a: nat :: p < |g.sorted| && HoldsFetched(g, p, a, key, after[key]))
    && |docs'| == |docs| && RecordedExactly(docs, docs', g.id, pages, g.now)
    && (StartsEmpty(docs, g.id) ==> Shows(docs'[g.id].pages, pages) && docs'[g.id].progress.done == |pages|)
  }

  /** Every page is returned at its position and stored, and an emptied document lists them all without a hole. */
  ghost predicate AllArchived(g: Gallery, pages: seq<Page>, after: Bucket, docs: Docs, docs': Docs) {
    && |pages| == |g.sorted| && |docs'| == |docs|
    && (forall p :: 0 <= p < |pages| ==> StoredAs(g.id, PlanAt(g, p), pages[p], after))
    && (StartsEmpty(docs, g.id) ==>
          && |docs'[g.id].pages| == |g.sorted| == docs'[g.id].progress.done
          && forall i :: 0 <= i < |g.sorted| ==> SlotExists(docs'[g.id].pages[i], i))
  }

  lemma OrderInRange(finish: seq<nat>, n: nat, k: nat)
    requires IsCompletionOrder(finish, n) && k < |finish|
    ensures finish[k] < n
  {
  }

  lemma OrderLength(finish: seq<nat>, n: nat)
    requires IsCompletionOrder(finish, n)
    ensures |finish| == n
  {
  }

  lemma Ended(g: Gallery, finish: seq<nat>, results: seq<PageResult>, recorded: seq<Page>, pages: seq<Page>,
              err: Option<Failure>, after: Bucket, docs: Docs, docs': Docs)
    requires FinishedFirst(g, finish, results, recorded, after, docs, docs') && DistinctIndexes(g.sorted)
    requires |results| == |g.sorted| && forall i: nat :: i < |g.sorted| ==> HasIndex(g.sorted, i)
    requires pages == InOrder(results, |g.sorted|) && err == FirstFailure(results)
    requires forall a :: 0 <= a < |g.sorted| ==> g.sorted[a].index < |g.sorted|
    ensures DownloadEnded(g, finish, results, pages, err, after, docs, docs')
    ensures err.None? ==> AllArchived(g, pages, after, docs, docs')
  {
    hide RecordAll, StoredAs, Extends, PageKeyOf, PageAt, InOrder, DistinctlyIndexed, Shows, FirstFailure, HasPage,
      BucketAfter, Arrives;
    CollectedIsRecorded(g, finish, results, recorded, after, docs, docs');
    StartsBefore(g, finish);
    BucketAfterExtends(g, finish, 0, |results|);
    forall key | key in after && key !in g.before
      ensures exists p: nat, a: nat :: p < |g.sorted| && HoldsFetched(g, p, a, key, after[key])
    {
      NewObjectsHoldFetched(g, finish, |results|, key);
    }
    assert |docs'| == |docs| by { RecordAllSize(docs, g.id, recorded, g.now); }
    SameElementsSameCount(recorded, pages);
    assert SameElements(recorded, pages);
    if StartsEmpty(docs, g.id) {
      RecordedShows(docs, g.id, recorded, pages, g.now);
    }
    if err.None? {
      EveryPageArrived(g, results, pages, after);
      if StartsEmpty(docs, g.id) {
        FullSlice(g, pages, after, docs'[g.id].pages);
      }
    }
  }

  lemma StartsBefore(g: Gallery, finish: seq<nat>)
    requires IsCompletionOrder(finish, |g.sorted|)
    ensures BucketAfter(g, finish, 0) == g.before
  {
  }

  lemma RecordAllSize(docs: Docs, id: int, pages: seq<Page>, now: int)
    ensures |RecordAll(docs, id, pages, now).0| == |docs|
  {
  }

  lemma EveryPageArrived(g: Gallery, results: seq<PageResult>, pages: seq<Page>, after: Bucket)
    requires OnePerPosition(results, |g.sorted|) && FirstFailure(results).None? && pages == InOrder(results, |g.sorted|)
    requires forall p: nat :: p < |g.sorted| && PageAt(results, p).Some? ==>
               StoredAs(g.id, PlanAt(g, p), PageAt(results, p).value, after)
    ensures |pages| == |g.sorted| && forall p :: 0 <= p < |pages| ==> StoredAs(g.id, PlanAt(g, p), pages[p], after)
  {
    hide StoredAs, PageAt, InOrder;
    var n := |g.sorted|;
    FirstFailureFinds(results);
    forall p: nat | p < n ensures PageAt(results, p).Some? {
      EveryPositionAnswered(results, n, p);
      var k :| 0 <= k < n && results[k].position == p;
      assert results[k] in results && results[k] == PageResult(p, Ok(results[k].page.value));
      PageAtFinds(results, p);
    }
    var came := seq(n, p requires 0 <= p < n => PageAt(results, p).value);
    InOrderFull(results, came, n);
  }

  lemma FullSlice(g: Gallery, pages: seq<Page>, after: Bucket, slice: seq<Page>)
    requires |pages| == |g.sorted| && forall p :: 0 <= p < |pages| ==> StoredAs(g.id, PlanAt(g, p), pages[p], after)
    requires Shows(slice, pages) && forall i: nat :: i < |g.sorted| ==> HasIndex(g.sorted, i)
    requires forall a :: 0 <= a < |g.sorted| ==> g.sorted[a].index < |g.sorted|
    ensures |slice| == |g.sorted| && forall i :: 0 <= i < |g.sorted| ==> SlotExists(slice[i], i)
  {
    hide StoredAs, Shows;
    forall p | 0 <= p < |pages| ensures pages[p].index == g.sorted[p].index {
      StoredPage(g.id, PlanAt(g, p), pages[p], after);
    }
    forall i | 0 <= i < |g.sorted| ensures IndexShown(pages, i) {
      assert HasIndex(g.sorted, i);
      var a :| 0 <= a < |g.sorted| && g.sorted[a].index == i;
      assert pages[a] in pages && pages[a].index == i;
    }
    ShowsEveryIndex(slice, pages, |g.sorted|);
  }
}
