/** What one download under the scheduler comes to, and what a whole gallery leaves in the object store. */
module HitomiOutcomes {
  import opened Wrappers
  import opened Keys
  import opened Model
  import opened StoreSpec
  import opened Objects
  import opened Downloads
  import opened Galleries
  import opened Lifecycle

  /** What the image server answers to each attempt, counted from 1. */
  type Fetches = nat -> FetchResult

  /**
   * Where the cancellation that follows the failure of another page reaches a download: nowhere, before the head
   * call of an attempt, or between the object and its recording. A fetch or put that is cancelled is a failed fetch.
   */
  datatype Cut = Uncut | BeforeHead(attempt: nat) | BeforeRecord

  datatype Attempt = Attempt(bucket: Bucket, docs: Docs, result: Outcome<Page, Failure>)

  // ----- one page -----

  /** The object is in place: the page is handed to the hook. */
  function HandedOver(id: nat, plan: PagePlan, key: string, cut: Cut, bucket: Bucket, docs: Docs, now: int): Attempt
    requires key in bucket
  {
    var page := PageFor(plan, key, |bucket[key].content|);
    var r := AddPage(docs, id, page, now);
    if cut.BeforeRecord? then Attempt(bucket, docs, Err(Other("context canceled")))
    else if r.result.Err? then Attempt(bucket, docs, Err(Other("page download hook")))
    else Attempt(bucket, r.docs, Ok(page))
  }

  /** One attempt. */
  function Tried(id: nat, plan: PagePlan, fetched: FetchResult, attempt: nat, cut: Cut, bucket: Bucket, docs: Docs,
                 now: int): Attempt
  {
    var key := KeyFor(id, plan);
    if cut == BeforeHead(attempt) then Attempt(bucket, docs, Err(Other("context canceled")))
    else if key.Err? then Attempt(bucket, docs, Err(Other("build page object key")))
    else if key.value in bucket then
      if Matches(bucket[key.value], plan.hash) then HandedOver(id, plan, key.value, cut, bucket, docs, now)
      else Attempt(bucket, docs, Err(Other("object hash mismatch")))
    else
      match fetched
      case RateLimited => Attempt(bucket, docs, Err(Galleries.RateLimited))
      case FetchFailed => Attempt(bucket, docs, Err(Other("failed to download page")))
      case FetchedBytes(content) =>
        HandedOver(id, plan, key.value, cut, bucket[key.value := ObjectFor(plan, content, now)], docs, now)
  }

  /** The attempts from one on, each following a rate limit, at most five in all. */
  function Retried(id: nat, plan: PagePlan, fetches: Fetches, attempt: nat, cut: Cut, bucket: Bucket, docs: Docs,
                   now: int): Attempt
    decreases MAX_ATTEMPTS - attempt
  {
    var t := Tried(id, plan, fetches(attempt), attempt, cut, bucket, docs, now);
    if t.result == Err(Galleries.RateLimited) && attempt < MAX_ATTEMPTS then
      Retried(id, plan, fetches, attempt + 1, cut, bucket, docs, now)
    else t
  }

  /** The bytes the image server hands out before it fails, the attempts run out, or the download is cancelled. */
  function FetchedFrom(fetches: Fetches, attempt: nat, cut: Cut): Option<Bytes>
    decreases MAX_ATTEMPTS - attempt
  {
    if cut == BeforeHead(attempt) then None
    else match fetches(attempt)
      case FetchedBytes(content) => Some(content)
      case FetchFailed => None
      case RateLimited => if attempt < MAX_ATTEMPTS then FetchedFrom(fetches, attempt + 1, cut) else None
  }

  predicate FetchedAt(fetches: Fetches, first: nat, a: nat, cut: Cut) {
    && first <= a <= 5 && fetches(a).FetchedBytes?
    && (forall b :: first <= b < a ==> fetches(b).RateLimited?)
    && (forall b :: first <= b <= a ==> cut != BeforeHead(b))
  }

  /** Bytes arrive exactly when some attempt within the limit gets them after nothing but rate limits. */
  lemma {:induction false} FetchedExactly(fetches: Fetches, attempt: nat, cut: Cut)
    requires attempt <= MAX_ATTEMPTS
    ensures FetchedFrom(fetches, attempt, cut).Some? <==> exists a :: FetchedAt(fetches, attempt, a, cut)
    ensures forall a :: FetchedAt(fetches, attempt, a, cut) ==>
              FetchedFrom(fetches, attempt, cut) == Some(fetches(a).content)
    decreases MAX_ATTEMPTS - attempt
  {
    if fetches(attempt).RateLimited? && attempt < MAX_ATTEMPTS {
      FetchedExactly(fetches, attempt + 1, cut);
      if FetchedFrom(fetches, attempt, cut).Some? {
        var a :| FetchedAt(fetches, attempt + 1, a, cut);
        FetchedLater(fetches, attempt, a, cut);
      }
      forall a | FetchedAt(fetches, attempt, a, cut)
        ensures FetchedAt(fetches, attempt + 1, a, cut) && cut != BeforeHead(attempt)
      {
        FetchedLater(fetches, attempt, a, cut);
      }
    } else if fetches(attempt).FetchedBytes? && cut != BeforeHead(attempt) {
      assert FetchedAt(fetches, attempt, attempt, cut);
    }
  }

  lemma FetchedLater(fetches: Fetches, attempt: nat, a: nat, cut: Cut)
    requires fetches(attempt).RateLimited?
    ensures FetchedAt(fetches, attempt, a, cut)
            <==> FetchedAt(fetches, attempt + 1, a, cut) && cut != BeforeHead(attempt)
  {
    assert attempt <= a && a != attempt ==> attempt + 1 <= a;
  }

  /** What the download puts into the bucket. */
  function PutBy(id: nat, plan: PagePlan, fetches: Fetches, attempt: nat, cut: Cut, bucket: Bucket): Option<Bytes> {
    var key := KeyFor(id, plan);
    if key.Ok? && key.value !in bucket then FetchedFrom(fetches, attempt, cut) else None
  }

  function BucketWith(id: nat, plan: PagePlan, fetches: Fetches, attempt: nat, cut: Cut, bucket: Bucket, now: int): Bucket {
    var put := PutBy(id, plan, fetches, attempt, cut, bucket);
    if put.Some? && KeyFor(id, plan).Ok? then bucket[KeyFor(id, plan).value := ObjectFor(plan, put.value, now)] else bucket
  }

  /** The page's object is there under its hash, or an attempt fetches it. */
  predicate Obtained(id: nat, plan: PagePlan, fetches: Fetches, attempt: nat, cut: Cut, bucket: Bucket) {
    var key := KeyFor(id, plan);
    && key.Ok? && cut != BeforeHead(attempt)
    && if key.value in bucket then Matches(bucket[key.value], plan.hash) else FetchedFrom(fetches, attempt, cut).Some?
  }

  /** A rate limit changes nothing, and the rest of the attempts decide. */
  lemma RateLimitShifts(id: nat, plan: PagePlan, fetches: Fetches, attempt: nat, cut: Cut, bucket: Bucket, docs: Docs,
                        now: int)
    requires attempt < MAX_ATTEMPTS
    requires Tried(id, plan, fetches(attempt), attempt, cut, bucket, docs, now).result == Err(Galleries.RateLimited)
    ensures BucketWith(id, plan, fetches, attempt, cut, bucket, now)
            == BucketWith(id, plan, fetches, attempt + 1, cut, bucket, now)
    ensures Obtained(id, plan, fetches, attempt, cut, bucket) <==> Obtained(id, plan, fetches, attempt + 1, cut, bucket)
  {
    hide PageKeyOf, AddPage;
  }

  /** How the attempts end, from one on. */
  ghost predicate EndsAs(id: nat, plan: PagePlan, fetches: Fetches, attempt: nat, cut: Cut, bucket: Bucket, docs: Docs,
                         now: int, t: Attempt) {
    && t.bucket == BucketWith(id, plan, fetches, attempt, cut, bucket, now)
    && (t.result.Err? ==> t.docs == docs)
    && (t.result.Ok? ==> && StoredAs(id, plan, t.result.value, t.bucket)
                         && Reply(t.docs, Ok(())) == AddPage(docs, id, t.result.value, now)
                         && Obtained(id, plan, fetches, attempt, cut, bucket) && !cut.BeforeRecord?)
    && (t.result.Err? && Obtained(id, plan, fetches, attempt, cut, bucket) && !cut.BeforeRecord?
        ==> exists page :: TurnedDown(docs, id, plan, page, now) && StoredAs(id, plan, page, t.bucket))
  }

  /**
   * Over all its attempts the download puts at most one object, and records its page at most once, under that
   * object. It fails only when the object cannot be obtained, the download is cancelled, or the store refuses the page.
   */
  lemma {:induction false} RetriedExactly(id: nat, plan: PagePlan, fetches: Fetches, attempt: nat, cut: Cut,
                                          bucket: Bucket, docs: Docs, now: int)
    ensures EndsAs(id, plan, fetches, attempt, cut, bucket, docs, now,
                   Retried(id, plan, fetches, attempt, cut, bucket, docs, now))
    decreases MAX_ATTEMPTS - attempt
  {
    hide Tried, BucketWith, Obtained, StoredAs, TurnedDown, AddPage;
    var t := Tried(id, plan, fetches(attempt), attempt, cut, bucket, docs, now);
    if t.result == Err(Galleries.RateLimited) && attempt < MAX_ATTEMPTS {
      RateLimitShifts(id, plan, fetches, attempt, cut, bucket, docs, now);
      RetriedExactly(id, plan, fetches, attempt + 1, cut, bucket, docs, now);
    } else {
      TriedExactly(id, plan, fetches, attempt, cut, bucket, docs, now);
    }
  }

  lemma HandedOverExactly(id: nat, plan: PagePlan, key: string, cut: Cut, bucket: Bucket, docs: Docs, now: int)
    requires KeyFor(id, plan) == Ok(key) && key in bucket && Matches(bucket[key], plan.hash)
    ensures var t := HandedOver(id, plan, key, cut, bucket, docs, now);
            && t.bucket == bucket
            && (t.result.Err? ==> t.docs == docs)
            && (t.result.Ok? ==> && StoredAs(id, plan, t.result.value, bucket) && !cut.BeforeRecord?
                                 && Reply(t.docs, Ok(())) == AddPage(docs, id, t.result.value, now))
            && (t.result.Err? && !cut.BeforeRecord?
                ==> exists page :: TurnedDown(docs, id, plan, page, now) && StoredAs(id, plan, page, bucket))
  {
    hide PageKeyOf;
    var page := PageFor(plan, key, |bucket[key].content|);
    assert StoredAs(id, plan, page, bucket);
    if AddPage(docs, id, page, now).result.Err? {
      assert TurnedDown(docs, id, plan, page, now);
    }
  }

  lemma TriedExactly(id: nat, plan: PagePlan, fetches: Fetches, attempt: nat, cut: Cut, bucket: Bucket, docs: Docs,
                     now: int)
    requires var t := Tried(id, plan, fetches(attempt), attempt, cut, bucket, docs, now);
             t.result != Err(Galleries.RateLimited) || attempt >= MAX_ATTEMPTS
    ensures EndsAs(id, plan, fetches, attempt, cut, bucket, docs, now,
                   Tried(id, plan, fetches(attempt), attempt, cut, bucket, docs, now))
  {
    hide PageKeyOf, HandedOver, StoredAs, AddPage, TurnedDown;
    var key := KeyFor(id, plan);
    if cut != BeforeHead(attempt) && key.Ok? {
      if key.value in bucket {
        if Matches(bucket[key.value], plan.hash) {
          HandedOverExactly(id, plan, key.value, cut, bucket, docs, now);
        }
      } else if fetches(attempt).FetchedBytes? {
        var bucket' := bucket[key.value := ObjectFor(plan, fetches(attempt).content, now)];
        HandedOverExactly(id, plan, key.value, cut, bucket', docs, now);
      }
    }
  }

  // ----- a whole gallery -----

  /** The download of a sorted gallery: what the server answers and where cancellation strikes, position by position. */
  datatype Gallery = Gallery(
    id: nat, sorted: seq<DownloadPage>, fetches: nat -> Fetches, cuts: nat -> Cut, before: Bucket, now: int)

  function PlanAt(g: Gallery, p: nat): PagePlan
    requires p < |g.sorted|
  {
    PlanOf(g.sorted[p])
  }

  /** The bucket after the first k downloads have finished. */
  function BucketAfter(g: Gallery, finish: seq<nat>, k: nat): Bucket
    requires IsCompletionOrder(finish, |g.sorted|) && k <= |finish|
  {
    if k == 0 then g.before
    else
      var p := finish[k - 1];
      BucketWith(g.id, PlanAt(g, p), g.fetches(p), 1, g.cuts(p), BucketAfter(g, finish, k - 1), g.now)
  }

  /** The k-th download to finish finds or fetches its object, and is not cancelled before it records its page. */
  predicate Arrives(g: Gallery, finish: seq<nat>, k: nat)
    requires IsCompletionOrder(finish, |g.sorted|) && k < |finish|
  {
    var p := finish[k];
    Obtained(g.id, PlanAt(g, p), g.fetches(p), 1, g.cuts(p), BucketAfter(g, finish, k)) && !g.cuts(p).BeforeRecord?
  }

  /** The download at position p gets bytes for this key from the server. */
  predicate Brings(g: Gallery, p: nat, key: string)
    requires p < |g.sorted|
  {
    KeyFor(g.id, PlanAt(g, p)) == Ok(key) && FetchedFrom(g.fetches(p), 1, g.cuts(p)).Some?
  }

  function BroughtBy(g: Gallery, p: nat): Object
    requires p < |g.sorted| && FetchedFrom(g.fetches(p), 1, g.cuts(p)).Some?
  {
    ObjectFor(PlanAt(g, p), FetchedFrom(g.fetches(p), 1, g.cuts(p)).value, g.now)
  }

  /** The j-th download is the first to bring this key. */
  predicate BringsFirst(g: Gallery, finish: seq<nat>, j: nat, key: string)
    requires IsCompletionOrder(finish, |g.sorted|) && j < |finish|
  {
    Brings(g, finish[j], key) && forall i :: 0 <= i < j ==> !Brings(g, finish[i], key)
  }

  /** A key of the bucket was there before, or was brought by the first download that got bytes for it. */
  ghost predicate HoldsKey(g: Gallery, finish: seq<nat>, k: nat, key: string, bucket: Bucket)
    requires IsCompletionOrder(finish, |g.sorted|) && k <= |finish|
  {
    && (key in g.before ==> key in bucket && bucket[key] == g.before[key])
    && (key !in g.before ==>
          && (key in bucket ==> exists j: nat :: j < k && BringsFirst(g, finish, j, key)
                                                 && bucket[key] == BroughtBy(g, finish[j]))
          && (key !in bucket ==> forall j :: 0 <= j < k ==> !Brings(g, finish[j], key)))
  }

  lemma {:induction false} BucketAfterHolds(g: Gallery, finish: seq<nat>, k: nat, key: string)
    requires IsCompletionOrder(finish, |g.sorted|) && k <= |finish|
    ensures HoldsKey(g, finish, k, key, BucketAfter(g, finish, k))
  {
    hide PageKeyOf, FetchedFrom, HoldsKey, BucketWith;
    if k > 0 {
      BucketAfterHolds(g, finish, k - 1, key);
      HoldsKeyNext(g, finish, k - 1, key, BucketAfter(g, finish, k - 1));
    } else {
      HoldsKeyAtFirst(g, finish, key);
    }
  }

  lemma HoldsKeyAtFirst(g: Gallery, finish: seq<nat>, key: string)
    requires IsCompletionOrder(finish, |g.sorted|)
    ensures HoldsKey(g, finish, 0, key, g.before)
  {
    hide Brings;
  }

  lemma HoldsKeyNext(g: Gallery, finish: seq<nat>, k: nat, key: string, mid: Bucket)
    requires IsCompletionOrder(finish, |g.sorted|) && k < |finish| && HoldsKey(g, finish, k, key, mid)
    ensures var p := finish[k];
            HoldsKey(g, finish, k + 1, key,
                     BucketWith(g.id, PlanAt(g, p), g.fetches(p), 1, g.cuts(p), mid, g.now))
  {
    hide PageKeyOf, FetchedFrom, KeyFor, ObjectFor;
    var p := finish[k];
    var after := BucketWith(g.id, PlanAt(g, p), g.fetches(p), 1, g.cuts(p), mid, g.now);
    if key !in g.before {
      if key in mid {
        var j: nat :| j < k && BringsFirst(g, finish, j, key) && mid[key] == BroughtBy(g, finish[j]);
        assert j < k + 1 && after[key] == mid[key];
      } else if key in after {
        assert k < k + 1 && BringsFirst(g, finish, k, key) && after[key] == BroughtBy(g, p);
      }
    }
  }

  /** The bytes an attempt at this position got are under the position's key, with its content type and hash. */
  predicate HoldsFetched(g: Gallery, p: nat, a: nat, key: string, found: Object)
    requires p < |g.sorted|
  {
    && KeyFor(g.id, PlanAt(g, p)) == Ok(key)
    && FetchedAt(g.fetches(p), 1, a, g.cuts(p)) && Holds(found, PlanAt(g, p), g.fetches(p)(a).content)
  }

  /** Every object that the downloads have added holds exactly the bytes that some attempt got for its key. */
  lemma NewObjectsHoldFetched(g: Gallery, finish: seq<nat>, k: nat, key: string)
    requires IsCompletionOrder(finish, |g.sorted|) && k <= |finish|
    requires key in BucketAfter(g, finish, k) && key !in g.before
    ensures exists p: nat, a: nat :: p < |g.sorted| && HoldsFetched(g, p, a, key, BucketAfter(g, finish, k)[key])
  {
    hide PageKeyOf, FetchedFrom, BucketAfter, FetchedAt;
    BucketAfterHolds(g, finish, k, key);
    var found := BucketAfter(g, finish, k)[key];
    var j: nat :| j < k && BringsFirst(g, finish, j, key) && found == BroughtBy(g, finish[j]);
    var p := finish[j];
    FetchedExactly(g.fetches(p), 1, g.cuts(p));
    var a: nat :| FetchedAt(g.fetches(p), 1, a, g.cuts(p));
    assert HoldsFetched(g, p, a, key, found);
  }

  /**
   * The k-th download arrives exactly when it is not cancelled, its hash gives it a key, and the object under that
   * key was there before under its hash, or was brought first by an earlier download with the same hash, or
   * nobody brought it earlier and an attempt of its own fetches it.
   */
  lemma ArrivesExactly(g: Gallery, finish: seq<nat>, k: nat)
    requires IsCompletionOrder(finish, |g.sorted|) && k < |finish|
    ensures var p := finish[k];
            var key := KeyFor(g.id, PlanAt(g, p));
            Arrives(g, finish, k)
            <==> && g.cuts(p) != BeforeHead(1) && !g.cuts(p).BeforeRecord? && key.Ok?
                 && if key.value in g.before then Matches(g.before[key.value], PlanAt(g, p).hash)
                    else || (exists j: nat :: j < k && BringsFirst(g, finish, j, key.value)
                                              && PlanAt(g, finish[j]).hash == PlanAt(g, p).hash)
                         || (Brings(g, p, key.value) && forall j :: 0 <= j < k ==> !Brings(g, finish[j], key.value))
  {
    hide PageKeyOf, FetchedFrom, BucketAfter;
    var p := finish[k];
    var key := KeyFor(g.id, PlanAt(g, p));
    if key.Ok? {
      BucketAfterHolds(g, finish, k, key.value);
      KeyNeedsHash(g.id, PlanAt(g, p));
      var bucket := BucketAfter(g, finish, k);
      if key.value !in g.before && key.value in bucket {
        var j: nat :| j < k && BringsFirst(g, finish, j, key.value) && bucket[key.value] == BroughtBy(g, finish[j]);
        KeyNeedsHash(g.id, PlanAt(g, finish[j]));
        forall i: nat | i < k && BringsFirst(g, finish, i, key.value) ensures i == j {
          FirstIsUnique(g, finish, i, j, key.value);
        }
      }
    }
  }

  lemma FirstIsUnique(g: Gallery, finish: seq<nat>, i: nat, j: nat, key: string)
    requires IsCompletionOrder(finish, |g.sorted|) && i < |finish| && j < |finish|
    requires BringsFirst(g, finish, i, key) && BringsFirst(g, finish, j, key)
    ensures i == j
  {
  }

  // ----- distinct keys -----

  /** No two pages of the gallery share an object. */
  predicate DistinctKeys(g: Gallery) {
    forall p, q :: 0 <= p < q < |g.sorted| && KeyFor(g.id, PlanAt(g, p)).Ok? ==>
      KeyFor(g.id, PlanAt(g, p)) != KeyFor(g.id, PlanAt(g, q))
  }

  /** The download at position p arrives whatever the others do. */
  predicate ArrivesAlone(g: Gallery, p: nat)
    requires p < |g.sorted|
  {
    Obtained(g.id, PlanAt(g, p), g.fetches(p), 1, g.cuts(p), g.before) && !g.cuts(p).BeforeRecord?
  }

  lemma ArrivesWhenever(g: Gallery, finish: seq<nat>, k: nat)
    requires IsCompletionOrder(finish, |g.sorted|) && k < |finish| && DistinctKeys(g)
    ensures Arrives(g, finish, k) <==> ArrivesAlone(g, finish[k])
  {
    hide PageKeyOf, FetchedFrom, BucketAfter;
    var p := finish[k];
    var key := KeyFor(g.id, PlanAt(g, p));
    if key.Ok? {
      BucketAfterHolds(g, finish, k, key.value);
      forall j | 0 <= j < k ensures !Brings(g, finish[j], key.value) {
        assert finish[j] != p;
      }
    }
  }

  lemma EveryPositionFinishes(finish: seq<nat>, n: nat, p: nat)
    requires IsCompletionOrder(finish, n) && p < n
    ensures exists k :: 0 <= k < n && finish[k] == p
  {
    var results := seq(n, k requires 0 <= k < n => PageResult(finish[k], Err(Galleries.RateLimited)));
    EveryPositionAnswered(results, n, p);
    var k :| 0 <= k < n && results[k].position == p;
    assert finish[k] == p;
  }

  // ----- orders in which every download arrives -----

  const NO_CUTS: nat -> Cut := (p: nat) => Uncut

  /** The same gallery when nothing is cancelled. */
  function WithoutCuts(g: Gallery): Gallery {
    g.(cuts := NO_CUTS)
  }

  /** What the server hands out for a position that is not cancelled. */
  function Answer(g: Gallery, p: nat): Option<Bytes> {
    FetchedFrom(g.fetches(p), 1, Uncut)
  }

  predicate SameKey(g: Gallery, p: nat, q: nat)
    requires p < |g.sorted| && q < |g.sorted|
  {
    KeyFor(g.id, PlanAt(g, p)).Ok? && KeyFor(g.id, PlanAt(g, p)) == KeyFor(g.id, PlanAt(g, q))
  }

  /** Positions that share a key get the same bytes wherever both get any. */
  predicate SharedAlike(g: Gallery) {
    forall p: nat, q: nat :: p < |g.sorted| && q < |g.sorted| && SameKey(g, p, q) && Answer(g, p).Some? && Answer(g, q).Some? ==>
      Answer(g, p) == Answer(g, q) && PlanAt(g, p).contentType == PlanAt(g, q).contentType
  }

  /** Positions that share a key are answered alike: with the same bytes, or all with none. */
  predicate AnsweredAlike(g: Gallery) {
    forall p: nat, q: nat :: p < |g.sorted| && q < |g.sorted| && SameKey(g, p, q) ==>
      Answer(g, p) == Answer(g, q) && PlanAt(g, p).contentType == PlanAt(g, q).contentType
  }

  /** Distinct keys are the usual case. */
  lemma DistinctKeysAnswerAlike(g: Gallery)
    ensures DistinctKeys(g) ==> AnsweredAlike(g)
    ensures AnsweredAlike(g) ==> SharedAlike(g)
  {
    hide PageKeyOf, FetchedFrom;
  }

  lemma AlikeWithoutCuts(g: Gallery)
    ensures SharedAlike(g) <==> SharedAlike(WithoutCuts(g))
    ensures AnsweredAlike(g) <==> AnsweredAlike(WithoutCuts(g))
    ensures forall p: nat :: p < |g.sorted| ==> (Good(g, p) <==> Good(WithoutCuts(g), p))
  {
    hide PageKeyOf, FetchedFrom;
    var u := WithoutCuts(g);
    assert forall p: nat, q: nat :: p < |g.sorted| && q < |g.sorted| ==> (SameKey(u, p, q) <==> SameKey(g, p, q));
    assert forall p: nat :: Answer(u, p) == Answer(g, p);
  }

  /** The page at a position can be had whatever the order, and no page with its key has another hash. */
  predicate Good(g: Gallery, p: nat)
    requires p < |g.sorted|
  {
    var key := KeyFor(g.id, PlanAt(g, p));
    && key.Ok?
    && if key.value in g.before then Matches(g.before[key.value], PlanAt(g, p).hash)
       else Answer(g, p).Some?
            && forall q: nat :: q < |g.sorted| && SameKey(g, p, q) ==> PlanAt(g, q).hash == PlanAt(g, p).hash
  }

  ghost predicate AllArrive(g: Gallery, finish: seq<nat>)
    requires IsCompletionOrder(finish, |g.sorted|)
  {
    forall k: nat :: k < |finish| ==> Arrives(g, finish, k)
  }

  /** Whoever arrives without an old object shares its hash with the first to bring the key. */
  lemma FirstHasHash(g: Gallery, finish: seq<nat>, k: nat)
    requires IsCompletionOrder(finish, |g.sorted|) && k < |finish| && Arrives(g, finish, k)
    ensures KeyFor(g.id, PlanAt(g, finish[k])).Ok?
    ensures var key := KeyFor(g.id, PlanAt(g, finish[k])).value;
            key !in g.before ==> exists j: nat :: j <= k && BringsFirst(g, finish, j, key)
                                                  && PlanAt(g, finish[j]).hash == PlanAt(g, finish[k]).hash
  {
    hide PageKeyOf, FetchedFrom, BucketAfter, Arrives;
    ArrivesExactly(g, finish, k);
    var key := KeyFor(g.id, PlanAt(g, finish[k])).value;
    if key !in g.before {
      if j: nat :| j < k && BringsFirst(g, finish, j, key) && PlanAt(g, finish[j]).hash == PlanAt(g, finish[k]).hash {
        assert j <= k;
      } else {
        assert BringsFirst(g, finish, k, key);
      }
    }
  }

  /** Without cancellation, and with shared keys answered alike, every download arrives exactly when every page is good. */
  lemma AllArriveExactly(g: Gallery, finish: seq<nat>)
    requires IsCompletionOrder(finish, |g.sorted|) && g.cuts == NO_CUTS && AnsweredAlike(g)
    ensures AllArrive(g, finish) <==> forall p: nat :: p < |g.sorted| ==> Good(g, p)
  {
    hide Good, Arrives, AnsweredAlike;
    if AllArrive(g, finish) {
      forall p: nat | p < |g.sorted| ensures Good(g, p) {
        EveryPositionFinishes(finish, |g.sorted|, p);
        var k :| 0 <= k < |finish| && finish[k] == p;
        ArrivedIsGood(g, finish, k);
      }
    }
    if forall p: nat :: p < |g.sorted| ==> Good(g, p) {
      forall k: nat | k < |finish| ensures Arrives(g, finish, k) {
        GoodArrives(g, finish, k);
      }
    }
  }

  lemma GoodArrives(g: Gallery, finish: seq<nat>, k: nat)
    requires IsCompletionOrder(finish, |g.sorted|) && k < |finish| && g.cuts == NO_CUTS && Good(g, finish[k])
    ensures Arrives(g, finish, k)
  {
    hide PageKeyOf, FetchedFrom, BucketAfter, Arrives;
    ArrivesExactly(g, finish, k);
    var key := KeyFor(g.id, PlanAt(g, finish[k])).value;
    if exists i :: 0 <= i < k && Brings(g, finish[i], key) {
      var j := FirstToBring(g, finish, k, key);
      assert SameKey(g, finish[k], finish[j]);
    }
  }

  /** The first of some downloads that bring a key. */
  lemma {:induction false} FirstToBring(g: Gallery, finish: seq<nat>, k: nat, key: string) returns (j: nat)
    requires IsCompletionOrder(finish, |g.sorted|) && k <= |finish|
    requires exists i :: 0 <= i < k && Brings(g, finish[i], key)
    ensures j < k && BringsFirst(g, finish, j, key)
  {
    hide Brings;
    var i: nat :| i < k && Brings(g, finish[i], key);
    if exists h :: 0 <= h < i && Brings(g, finish[h], key) {
      j := FirstToBring(g, finish, i, key);
    } else {
      j := i;
    }
  }

  lemma ArrivedIsGood(g: Gallery, finish: seq<nat>, k: nat)
    requires IsCompletionOrder(finish, |g.sorted|) && k < |finish| && g.cuts == NO_CUTS && AnsweredAlike(g)
    requires AllArrive(g, finish)
    ensures Good(g, finish[k])
  {
    hide PageKeyOf, FetchedFrom, BucketAfter, Arrives;
    var p := finish[k];
    ArrivesExactly(g, finish, k);
    FirstHasHash(g, finish, k);
    var key := KeyFor(g.id, PlanAt(g, p)).value;
    if key !in g.before {
      var j: nat :| j <= k && BringsFirst(g, finish, j, key) && PlanAt(g, finish[j]).hash == PlanAt(g, p).hash;
      assert SameKey(g, p, finish[j]);
      forall q: nat | q < |g.sorted| && SameKey(g, p, q) ensures PlanAt(g, q).hash == PlanAt(g, p).hash {
        SameKeySameFirst(g, finish, j, q, key);
      }
    }
  }

  /** When all arrive, every position with a key has the hash of the first to bring it. */
  lemma SameKeySameFirst(g: Gallery, finish: seq<nat>, j: nat, q: nat, key: string)
    requires IsCompletionOrder(finish, |g.sorted|) && AllArrive(g, finish) && j < |finish| && q < |g.sorted|
    requires key !in g.before && BringsFirst(g, finish, j, key) && KeyFor(g.id, PlanAt(g, q)) == Ok(key)
    ensures PlanAt(g, q).hash == PlanAt(g, finish[j]).hash
  {
    hide PageKeyOf, FetchedFrom, BucketAfter, Arrives, Brings;
    EveryPositionFinishes(finish, |g.sorted|, q);
    var k: nat :| k < |finish| && finish[k] == q;
    FirstHasHash(g, finish, k);
    var i: nat :| i <= k && BringsFirst(g, finish, i, key) && PlanAt(g, finish[i]).hash == PlanAt(g, q).hash;
    FirstIsUnique(g, finish, i, j, key);
  }

  /** When all arrive in two orders, and shared keys are answered alike, the same objects are left. */
  lemma SuccessLeavesSameObjects(g: Gallery, finish: seq<nat>, finish': seq<nat>)
    requires IsCompletionOrder(finish, |g.sorted|) && IsCompletionOrder(finish', |g.sorted|)
    requires g.cuts == NO_CUTS && SharedAlike(g) && AllArrive(g, finish) && AllArrive(g, finish')
    ensures BucketAfter(g, finish, |g.sorted|) == BucketAfter(g, finish', |g.sorted|)
  {
    hide BucketAfter, AllArrive, SharedAlike;
    var n := |g.sorted|;
    var a, b := BucketAfter(g, finish, n), BucketAfter(g, finish', n);
    forall key | key in a ensures key in b && b[key] == a[key] {
      SuccessLeavesObject(g, finish, finish', key);
    }
    forall key | key in b ensures key in a {
      SuccessLeavesObject(g, finish', finish, key);
    }
  }

  lemma SuccessLeavesObject(g: Gallery, finish: seq<nat>, finish': seq<nat>, key: string)
    requires IsCompletionOrder(finish, |g.sorted|) && IsCompletionOrder(finish', |g.sorted|)
    requires g.cuts == NO_CUTS && SharedAlike(g) && AllArrive(g, finish) && AllArrive(g, finish')
    requires key in BucketAfter(g, finish, |g.sorted|)
    ensures key in BucketAfter(g, finish', |g.sorted|)
    ensures BucketAfter(g, finish', |g.sorted|)[key] == BucketAfter(g, finish, |g.sorted|)[key]
  {
    hide BucketAfter, AllArrive, FetchedFrom, PageKeyOf, SharedAlike;
    var n := |g.sorted|;
    var a, b := BucketAfter(g, finish, n), BucketAfter(g, finish', n);
    BucketAfterHolds(g, finish, n, key);
    BucketAfterHolds(g, finish', n, key);
    if key !in g.before {
      var j: nat :| j < n && BringsFirst(g, finish, j, key) && a[key] == BroughtBy(g, finish[j]);
      var p := finish[j];
      EveryPositionFinishes(finish', n, p);
      var k: nat :| k < n && finish'[k] == p;
      assert Brings(g, finish'[k], key);
      var i: nat :| i < n && BringsFirst(g, finish', i, key) && b[key] == BroughtBy(g, finish'[i]);
      SameKeySameFirst(g, finish, j, finish'[i], key);
      AlikeBroughtAlike(g, p, finish'[i], key);
    }
  }

  lemma AlikeBroughtAlike(g: Gallery, p: nat, q: nat, key: string)
    requires p < |g.sorted| && q < |g.sorted| && g.cuts == NO_CUTS && SharedAlike(g)
    requires Brings(g, p, key) && Brings(g, q, key) && PlanAt(g, p).hash == PlanAt(g, q).hash
    ensures BroughtBy(g, p) == BroughtBy(g, q)
  {
    hide PageKeyOf, FetchedFrom;
    assert SameKey(g, p, q);
  }

  /** As long as only uncancelled downloads have finished, the bucket is that of the uncancelled gallery. */
  lemma {:induction false} BucketWithoutCuts(g: Gallery, finish: seq<nat>, k: nat)
    requires IsCompletionOrder(finish, |g.sorted|) && k <= |finish|
    requires forall i :: 0 <= i < k ==> g.cuts(finish[i]).Uncut?
    ensures BucketAfter(g, finish, k) == BucketAfter(WithoutCuts(g), finish, k)
  {
    hide PageKeyOf, FetchedFrom, BucketWith;
    if k > 0 {
      BucketWithoutCuts(g, finish, k - 1);
    }
  }

  /** Downloading adds objects below the document's prefix and changes none. */
  lemma {:induction false} BucketAfterExtends(g: Gallery, finish: seq<nat>, j: nat, k: nat)
    requires IsCompletionOrder(finish, |g.sorted|) && j <= k <= |finish|
    ensures Extends(g.id, BucketAfter(g, finish, j), BucketAfter(g, finish, k))
  {
    hide PageKeyOf, FetchedFrom, PrefixOf, Extends;
    if j < k {
      BucketAfterExtends(g, finish, j, k - 1);
      var p := finish[k - 1];
      var mid := BucketAfter(g, finish, k - 1);
      BucketWithExtends(g.id, PlanAt(g, p), g.fetches(p), g.cuts(p), mid, g.now);
      ExtendsTwice(g.id, BucketAfter(g, finish, j), mid, BucketAfter(g, finish, k));
    } else {
      ExtendsSelf(g.id, BucketAfter(g, finish, j));
    }
  }

  lemma ExtendsSelf(id: nat, bucket: Bucket)
    ensures Extends(id, bucket, bucket)
  {
  }

  lemma BucketWithExtends(id: nat, plan: PagePlan, fetches: Fetches, cut: Cut, bucket: Bucket, now: int)
    ensures Extends(id, bucket, BucketWith(id, plan, fetches, 1, cut, bucket, now))
  {
    hide PageKeyOf, FetchedFrom, PrefixOf, Extends;
    var put := PutBy(id, plan, fetches, 1, cut, bucket);
    if put.Some? {
      PutExtends(id, plan, bucket, ObjectFor(plan, put.value, now));
    } else {
      ExtendsSelf(id, bucket);
    }
  }
}
