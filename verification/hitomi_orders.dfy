/** What the order in which the pages of a gallery finish can change, and what it cannot. */
module HitomiOrders {
  import opened Wrappers
  import opened Strings
  import opened Keys
  import opened Model
  import opened StoreSpec
  import opened Objects
  import opened Recording
  import opened Downloads
  import opened Galleries
  import opened HitomiOutcomes
  import opened Hitomi
  import Lifecycle

  /** The page of a position comes in exactly when its download arrives on its own. */
  lemma {:induction false} ComesInAlone(g: Gallery, finish: seq<nat>, results: seq<PageResult>, pages: seq<Page>,
                                        err: Option<Failure>, after: Bucket, docs: Docs, docs': Docs, p: nat)
    requires DownloadEnded(g, finish, results, pages, err, after, docs, docs')
    requires DistinctKeys(g) && StartsEmpty(docs, g.id) && p < |g.sorted|
    ensures PageAt(results, p).Some? <==> ArrivesAlone(g, p)
    ensures exists k :: 0 <= k < |results| && results[k].position == p && (results[k].page.Ok? <==> ArrivesAlone(g, p))
  {
    hide StoredAs, PageAt, InOrder, Arrives, BucketAfter, Extends, FirstFailure, Shows, Obtained;
    EveryPositionFinishes(finish, |g.sorted|, p);
    var k :| 0 <= k < |finish| && finish[k] == p;
    ArrivesWhenever(g, finish, k);
    PageAtFinds(results, p);
    if results[k].page.Ok? {
      assert results[k] == PageResult(p, Ok(results[k].page.value)) && results[k] in results;
    }
    if PageAt(results, p).Some? {
      var r := PageResult(p, Ok(PageAt(results, p).value));
      var j :| 0 <= j < |results| && results[j] == r;
      assert finish[j] == finish[k];
    }
  }

  /** Only a download that finishes after a failure is cancelled, as the collector cancels when it reads the first one. */
  predicate CutsFollowFailure(g: Gallery, finish: seq<nat>, results: seq<PageResult>)
    requires |results| <= |finish|
  {
    forall k :: 0 <= k < |results| && !g.cuts(finish[k]).Uncut? ==> exists j :: 0 <= j < k && results[j].page.Err?
  }

  /** If all would arrive uncancelled, none of the first k fails, so none of them is cancelled. */
  lemma {:induction false} FirstOnesArrive(g: Gallery, finish: seq<nat>, results: seq<PageResult>, pages: seq<Page>,
                                           err: Option<Failure>, after: Bucket, docs: Docs, docs': Docs, k: nat)
    requires DownloadEnded(g, finish, results, pages, err, after, docs, docs') && StartsEmpty(docs, g.id)
    requires CutsFollowFailure(g, finish, results) && AllArrive(WithoutCuts(g), finish) && k <= |results|
    ensures forall i :: 0 <= i < k ==> results[i].page.Ok? && g.cuts(finish[i]).Uncut?
  {
    hide StoredAs, PageAt, InOrder, BucketAfter, Extends, FirstFailure, Shows, Obtained, RecordedExactly;
    if k > 0 {
      FirstOnesArrive(g, finish, results, pages, err, after, docs, docs', k - 1);
      BucketWithoutCuts(g, finish, k - 1);
      assert Arrives(WithoutCuts(g), finish, k - 1);
    }
  }

  /** A download succeeds exactly when all its pages would arrive if nothing were cancelled. */
  lemma SucceedsExactly(g: Gallery, finish: seq<nat>, results: seq<PageResult>, pages: seq<Page>,
                        err: Option<Failure>, after: Bucket, docs: Docs, docs': Docs)
    requires DownloadEnded(g, finish, results, pages, err, after, docs, docs') && StartsEmpty(docs, g.id)
    requires CutsFollowFailure(g, finish, results)
    ensures err.None? <==> AllArrive(WithoutCuts(g), finish)
    ensures err.None? ==> after == BucketAfter(WithoutCuts(g), finish, |g.sorted|)
    ensures err.None? ==> forall p: nat :: p < |g.sorted| ==> PageAt(results, p).Some?
  {
    hide StoredAs, PageAt, InOrder, BucketAfter, Extends, FirstFailure, Shows, Arrives, RecordedExactly;
    FirstFailureFinds(results);
    var n := |g.sorted|;
    if AllArrive(WithoutCuts(g), finish) {
      FirstOnesArrive(g, finish, results, pages, err, after, docs, docs', n);
      forall r | r in results ensures r.page.Ok? {
        var k :| 0 <= k < |results| && results[k] == r;
      }
    }
    if err.None? {
      assert forall k :: 0 <= k < n ==> results[k] in results && results[k].page.Ok? && g.cuts(finish[k]).Uncut?;
      BucketWithoutCuts(g, finish, n);
      forall k: nat | k < |finish| ensures Arrives(WithoutCuts(g), finish, k) {
        BucketWithoutCuts(g, finish, k);
        SameArrival(g, finish, k);
      }
      forall p: nat | p < n ensures PageAt(results, p).Some? {
        EveryPositionFinishes(finish, n, p);
        var k: nat :| k < n && finish[k] == p;
        PageAtFinds(results, p);
        assert results[k] == PageResult(p, Ok(results[k].page.value)) && results[k] in results;
      }
    }
  }

  lemma SameArrival(g: Gallery, finish: seq<nat>, k: nat)
    requires IsCompletionOrder(finish, |g.sorted|) && k < |finish| && g.cuts(finish[k]).Uncut?
    requires BucketAfter(g, finish, k) == BucketAfter(WithoutCuts(g), finish, k)
    ensures Arrives(WithoutCuts(g), finish, k) <==> Arrives(g, finish, k)
  {
    hide BucketAfter, Obtained;
  }

  /**
   * Two successful downloads of one gallery agree whatever the order in which their pages finish: an emptied document
   * ends with the same slice and count, the same pages are returned, and the bucket holds the same objects,
   * provided positions that share a key get the same bytes.
   */
  lemma SuccessfulOrdersAgree(g: Gallery, finish: seq<nat>, results: seq<PageResult>, pages: seq<Page>,
                              err: Option<Failure>, after: Bucket, docs': Docs, g': Gallery, finish': seq<nat>,
                              results': seq<PageResult>, pages': seq<Page>, err': Option<Failure>, after': Bucket,
                              docs'': Docs, docs: Docs)
    requires DownloadEnded(g, finish, results, pages, err, after, docs, docs') && StartsEmpty(docs, g.id)
    requires DownloadEnded(g', finish', results', pages', err', after', docs, docs'') && g' == g.(cuts := g'.cuts)
    requires CutsFollowFailure(g, finish, results) && CutsFollowFailure(g', finish', results')
    requires SharedAlike(g) && err.None? && err'.None?
    ensures pages == pages' && after == after' && |docs'| == |docs''| == |docs|
    ensures docs'[g.id].pages == docs''[g.id].pages && docs'[g.id].progress.done == docs''[g.id].progress.done
  {
    hide PageAt, InOrder, BucketAfter, Extends, FirstFailure, PageKeyOf, Arrives, AllArrive, SharedAlike, RecordedExactly,
      CutsFollowFailure;
    SucceedsExactly(g, finish, results, pages, err, after, docs, docs');
    SucceedsExactly(g', finish', results', pages', err', after', docs, docs'');
    AlikeWithoutCuts(g);
    assert WithoutCuts(g') == WithoutCuts(g);
    SuccessLeavesSameObjects(WithoutCuts(g), finish, finish');
    InOrderSame(results, results', |g.sorted|);
    ShowsUnique(docs'[g.id].pages, docs''[g.id].pages, pages, pages');
  }

  /**
   * Whether a download succeeds does not depend on the order in which its pages finish, provided positions
   * that share a key are answered alike, as they are when no two share one.
   */
  lemma SuccessIgnoresOrder(g: Gallery, finish: seq<nat>, results: seq<PageResult>, pages: seq<Page>,
                            err: Option<Failure>, after: Bucket, docs': Docs, g': Gallery, finish': seq<nat>,
                            results': seq<PageResult>, pages': seq<Page>, err': Option<Failure>, after': Bucket,
                            docs'': Docs, docs: Docs)
    requires DownloadEnded(g, finish, results, pages, err, after, docs, docs') && StartsEmpty(docs, g.id)
    requires DownloadEnded(g', finish', results', pages', err', after', docs, docs'') && g' == g.(cuts := g'.cuts)
    requires CutsFollowFailure(g, finish, results) && CutsFollowFailure(g', finish', results')
    requires AnsweredAlike(g)
    ensures err.None? <==> err'.None?
    ensures err.None? <==> forall p: nat :: p < |g.sorted| ==> Good(g, p)
  {
    hide PageAt, InOrder, BucketAfter, Extends, FirstFailure, PageKeyOf, Arrives, AllArrive, AnsweredAlike, Good, Shows,
      StoredAs, RecordedExactly, CutsFollowFailure;
    SucceedsExactly(g, finish, results, pages, err, after, docs, docs');
    SucceedsExactly(g', finish', results', pages', err', after', docs, docs'');
    AlikeWithoutCuts(g);
    assert WithoutCuts(g') == WithoutCuts(g);
    AllArriveExactly(WithoutCuts(g), finish);
    AllArriveExactly(WithoutCuts(g), finish');
  }

  // ----- a failure makes the order matter -----

  const PAGES: seq<DownloadPage> := [DownloadPage(0, "a.webp", "u0", "a", "image/webp"),
                                     DownloadPage(1, "b.webp", "u1", "b", "image/webp")]

  /** The server hands out the second page and not the first. */
  const FETCHES: nat -> Fetches := (p: nat) => (a: nat) =>
    if p == 0 then Lifecycle.FetchFailed else Lifecycle.FetchedBytes([])

  /** The second download is cancelled before it begins. */
  const SECOND_CUT: nat -> Cut := (p: nat) => if p == 1 then BeforeHead(1) else Uncut

  function Pair(cuts: nat -> Cut): Gallery {
    Gallery(0, PAGES, FETCHES, cuts, map[], 0)
  }

  lemma PairKeys(cuts: nat -> Cut)
    ensures DistinctKeys(Pair(cuts)) && KeyFor(0, PlanAt(Pair(cuts), 1)).Ok?
  {
    hide PageKeyOf, TrimSpace, UsableHash, PageFile, Itoa, Glue;
    LetterIsUsable("a", 'a');
    LetterIsUsable("b", 'b');
    PageKeyShape(0, "a", "image/webp");
    PageKeyShape(0, "b", "image/webp");
    assert "a"[0] != "b"[0];
    if PageKeyOf(0, "a", "image/webp") == PageKeyOf(0, "b", "image/webp") {
      PageKeysInjective(0, "a", "image/webp", 0, "b", "image/webp");
    }
  }

  lemma PairArrivals()
    ensures forall cuts :: !ArrivesAlone(Pair(cuts), 0)
    ensures !ArrivesAlone(Pair(SECOND_CUT), 1) && ArrivesAlone(Pair(NO_CUTS), 1)
  {
    hide PageKeyOf;
    PairKeys(NO_CUTS);
    assert forall cuts :: FetchedFrom(Pair(cuts).fetches(0), 1, Pair(cuts).cuts(0)).None?;
    assert FetchedFrom(Pair(NO_CUTS).fetches(1), 1, NO_CUTS(1)) == Some([]);
  }

  /**
   * Of two pages the first cannot be fetched. When it finishes first, the other is cancelled and nothing is returned;
   * when it finishes last, the other page is returned and recorded. Which pages a failed download has completed depends
   * on the order, even with distinct keys.
   */
  lemma FailureDependsOnOrder(results: seq<PageResult>, pages: seq<Page>, err: Option<Failure>, after: Bucket,
                              docs': Docs, results': seq<PageResult>, pages': seq<Page>, err': Option<Failure>,
                              after': Bucket, docs'': Docs, docs: Docs)
    requires DownloadEnded(Pair(SECOND_CUT), [0, 1], results, pages, err, after, docs, docs') && StartsEmpty(docs, 0)
    requires DownloadEnded(Pair(NO_CUTS), [1, 0], results', pages', err', after', docs, docs'')
    ensures CutsFollowFailure(Pair(SECOND_CUT), [0, 1], results) && CutsFollowFailure(Pair(NO_CUTS), [1, 0], results')
    ensures err.Some? && err'.Some? && pages == [] && |pages'| == 1
  {
    hide PageAt, Arrives, BucketAfter, Extends, FirstFailure, Shows, ArrivesAlone, DistinctKeys, StoredAs, RecordedExactly;
    PairKeys(SECOND_CUT);
    PairKeys(NO_CUTS);
    PairArrivals();
    ComesInAlone(Pair(SECOND_CUT), [0, 1], results, pages, err, after, docs, docs', 0);
    ComesInAlone(Pair(SECOND_CUT), [0, 1], results, pages, err, after, docs, docs', 1);
    ComesInAlone(Pair(NO_CUTS), [1, 0], results', pages', err', after', docs, docs'', 0);
    ComesInAlone(Pair(NO_CUTS), [1, 0], results', pages', err', after', docs, docs'', 1);
    FirstFailureFinds(results);
    FirstFailureFinds(results');
    assert results[0] in results && results[0].position == 0;
    assert results'[1] in results' && results'[1].position == 0;
    assert InOrder(results, 0) == [] && InOrder(results', 0) == [];
    assert InOrder(results, 1) == [] && InOrder(results', 1) == [];
  }
}
