/** What each call comes to, and what the worker does with a document when nothing comes between its calls. */
module LifecycleConduct {
  import opened Wrappers
  import opened Keys
  import opened Model
  import opened StoreSpec
  import opened Objects
  import opened Arithmetic
  import opened Strings
  import opened Batches
  import opened Recording
  import opened Downloads
  import opened Processing
  import opened Lifecycle
  import Queries

  // ----- API calls -----

  /** A request adds a queued, empty document exactly when all it names is known and its identity is new. */
  lemma RequestExactly(s: State, source: string, sourceDocumentID: string, backend: string, now: int)
    ensures var s' := Next(s, ApiRequest(source, sourceDocumentID, backend, now));
            if && source != "" && sourceDocumentID != "" && source in s.factories && backend in s.buckets
               && forall i :: 0 <= i < |s.docs| ==>
                    s.docs[i].source != source || s.docs[i].sourceDocumentID != sourceDocumentID
            then
              && s'.docs == s.docs + [Document(|s.docs|, source, sourceDocumentID, "", "", backend, Progress(0, 0), "", [],
                                               now, now, Queued)]
              && s' == s.(docs := s'.docs, ledgers := s'.ledgers)
            else s' == s
  {
    CreatesExactly(s.docs, NewDocument(source, sourceDocumentID, backend), now);
  }

  /** A refresh queues a document that is archived, failed or queued, and a full one remembers to clear its pages. */
  lemma RefreshExactly(s: State, id: int, all: bool, now: int)
    ensures var s' := Next(s, ApiRefresh(id, all, now));
            if 0 <= id < |s.docs| && s.docs[id].status in {Queued, Archived, Failed} then
              s' == s.(docs := s.docs[id := s.docs[id].(status := Queued, updatedAt := now)],
                       pending := if all then s.pending + multiset{id} else s.pending)
            else s' == s
  {
    TransitionsExactly(s.docs, id, Queued, now);
  }

  /** Deleting hides a visible document, and restoring queues a deleted or purged one; nothing else changes. */
  lemma DeleteAndRestoreExactly(s: State, id: int, now: int)
    ensures Next(s, ApiDelete(id, now))
            == if 0 <= id < |s.docs| && s.docs[id].status in VISIBLE
               then s.(docs := s.docs[id := s.docs[id].(status := Deleted, updatedAt := now)]) else s
    ensures Next(s, ApiRestore(id, now))
            == if 0 <= id < |s.docs| && s.docs[id].status in {Deleted, Purged}
               then s.(docs := s.docs[id := s.docs[id].(status := Queued, updatedAt := now)]) else s
  {
    if 0 <= id < |s.docs| {
      RefreshAndDeleteSucceed(s.docs, id, now);
    }
  }

  /** The second half of a full refresh empties a document that is still visible, once for each refresh. */
  lemma ClearExactly(s: State, id: int, now: int)
    ensures var s' := Next(s, ApiClear(id, now));
            if id !in s.pending then s' == s
            else
              && s'.pending == s.pending - multiset{id} && s'.worker == s.worker && s'.buckets == s.buckets
              && s'.docs == (if 0 <= id < |s.docs| && s.docs[id].status in VISIBLE
                             then s.docs[id := s.docs[id].(pages := [],
                                                           progress := Progress(0, s.docs[id].progress.total),
                                                           updatedAt := now)]
                             else s.docs)
  {
    if 0 <= id < |s.docs| {
      MovesAreTheGraph(s.docs[id].status, Queued);
    }
  }

  // ----- batches -----

  /** An idle worker takes the first five queued documents, by id, or stays idle when there is none. */
  lemma QueueBatchExactly(s: State)
    requires s.worker.Idle? && IdsInOrder(s.docs)
    ensures var w, n := Next(s, BeginQueue).worker, Min(5, CountBefore(s.docs, Queued, |s.docs|));
            if n == 0 then w == Idle
            else
              && w.Draining? && w.position == Loading && |w.rest| == n - 1
              && IsQueuedAt(s.docs, w.id, 0)
              && forall k :: 0 <= k < |w.rest| ==> IsQueuedAt(s.docs, w.rest[k], k + 1)
  {
    hide Queries.Run, Ids;
    BatchIsFirstFew(s.docs, Queued, 5);
    IdsOf(Queries.Run(Queries.StatusQuery(Queued, QUEUE_BATCH), s.docs));
  }

  /** A queued document that k queued ones precede. */
  predicate IsQueuedAt(docs: Docs, id: int, k: nat) {
    0 <= id < |docs| && docs[id].status == Queued && CountBefore(docs, Queued, id) == k
  }

  lemma {:induction false} IdsOf(found: seq<Document>)
    ensures |Ids(found)| == |found| && forall k :: 0 <= k < |found| ==> Ids(found)[k] == found[k].id
  {
    if found != [] {
      IdsOf(found[1..]);
      assert forall k :: 1 <= k < |found| ==> Ids(found)[k] == Ids(found[1..])[k - 1] && found[k] == found[1..][k - 1];
    }
  }

  lemma SweepBegins(s: State)
    requires s.worker.Idle?
    ensures Next(s, BeginSweep) == s.(worker := Sweeping(0, 0, [], Querying))
  {
  }

  /** A sweep takes the first five deleted documents, by id, and begins with the first; it ends when there is none. */
  lemma SweepBatchExactly(s: State)
    requires s.worker.Sweeping? && s.worker.at.Querying? && IdsInOrder(s.docs)
    ensures var w, n := Next(s, SweepQuery).worker, Min(5, CountBefore(s.docs, Deleted, |s.docs|));
            if n == 0 then w == Idle
            else
              && w.Sweeping? && w.batch == n && w.purged == 0 && |w.left| == n - 1
              && w.at.Deleting? && IsDeletedAt(s.docs, w.at.document, 0)
              && forall k :: 0 <= k < |w.left| ==> IsDeletedAt(s.docs, w.left[k], k + 1)
  {
    hide Queries.Run;
    BatchIsFirstFew(s.docs, Deleted, 5);
  }

  /** The document as it stands in the store, deleted, with k deleted ones before it. */
  predicate IsDeletedAt(docs: Docs, d: Document, k: nat) {
    0 <= d.id < |docs| && docs[d.id] == d && d.status == Deleted && CountBefore(docs, Deleted, d.id) == k
  }

  /** Where a sweep stands once it is done with a document: at the next of its batch, at a new query, or at its end. */
  function SweepNext(batch: nat, purged: nat, left: seq<Document>): Worker {
    if left != [] then Sweeping(batch, purged, left[1..], Deleting(left[0]))
    else if batch == 5 && purged > 0 then Sweeping(0, 0, [], Querying)
    else Idle
  }

  /** A stuck document is passed over; of any other the objects are removed, and then it is emptied and purged. */
  lemma SweepDocumentExactly(s: State, d: Document, now: int)
    requires s.worker.Sweeping? && s.worker.at == Deleting(d) && s.worker.batch <= 5
    requires 0 <= d.id < |s.docs| && s.docs[d.id].status == Deleted
    ensures var w, s' := s.worker, Next(s, SweepDelete(false));
            s' == s.(worker := SweepNext(w.batch, w.purged, w.left))
    ensures var w, s' := s.worker, Next(Next(s, SweepDelete(true)), SweepPurge(now));
            d.storageBackend in s.buckets ==>
              && s'.worker == SweepNext(w.batch, w.purged + 1, w.left)
              && s'.docs == s.docs[d.id := s.docs[d.id].(pages := [], progress := Progress(0, 0), status := Purged,
                                                         updatedAt := now)]
              && s'.buckets.Keys == s.buckets.Keys
              && (forall key :: key in s'.buckets[d.storageBackend] <==>
                    key in s.buckets[d.storageBackend] && !HasPrefix(key, PrefixOf(d.id)))
              && (forall b, key :: b in s'.buckets && key in s'.buckets[b] ==>
                    key in s.buckets[b] && s'.buckets[b][key] == s.buckets[b][key])
              && (forall b :: b in s.buckets && b != d.storageBackend ==> s'.buckets[b] == s.buckets[b])
  {
    hide PrefixOf;
  }

  // ----- faults -----

  /** The worker turns to the failure path with the first thing that is wrong. */
  lemma FaultsExactly(s: State, e: string, usable: bool, now: int)
    requires s.worker.Draining?
    ensures s.worker.position.Claiming? ==>
              var d := s.worker.position.document;
              && (d.source !in s.factories ==> Next(s, Claim(usable, now)) == Goto(s, SavingError(Message(NoFactory))))
              && (d.source in s.factories && d.storageBackend !in s.buckets ==>
                    Next(s, Claim(usable, now)) == Goto(s, SavingError(Message(NoStorage))))
              && (d.source in s.factories && d.storageBackend in s.buckets && !usable ==>
                    Next(s, Claim(usable, now)) == Goto(s, SavingError(Message(NoHandler))))
    ensures s.worker.position.ResolvingSource? ==> Next(s, ResolveSource(Err(e))) == Goto(s, SavingError(e))
    ensures s.worker.position.Planning? ==> Next(s, PlanPages(Err(e))) == Goto(s, SavingError(e))
    ensures s.worker.position.WritingManifest? ==> Next(s, PutManifest(Err(e))) == Goto(s, SavingError(e))
  {
    hide Message, PageStep, DoLoad, DoSaveMeta, DoClearPages, DoOpen, DoReload, DoFinish, DoSaveError, DoMarkFailed;
  }

  /** A task can be abandoned until it is over, and a page that the store refuses abandons its task. */
  lemma AbandonsExactly(s: State, k: nat, now: int)
    requires s.worker.Draining? && s.worker.position.Archiving? && k < |s.worker.position.tasks|
    ensures var task := s.worker.position.tasks[k];
            && Next(s, AbandonPage(k))
               == (if task.stage.Recorded? || task.stage.Abandoned? then s else SetStage(s, k, Abandoned))
            && (task.stage.Ready? && AddPage(s.docs, s.worker.id, task.stage.page, now).result.Err? ==>
                  Next(s, RecordPage(k, now)) == SetStage(s, k, Abandoned))
  {
    hide AddPage;
  }

  /** A download is collected once all its tasks are over, and fails when any was abandoned. */
  lemma CollectExactly(s: State)
    requires s.worker.Draining? && s.worker.position.Archiving?
    ensures var tasks := s.worker.position.tasks;
            Next(s, Collect)
            == if exists k :: 0 <= k < |tasks| && !tasks[k].stage.Recorded? && !tasks[k].stage.Abandoned? then s
               else if exists k :: 0 <= k < |tasks| && tasks[k].stage.Abandoned? then
                 Goto(s, SavingError(Message(ContentFailed)))
               else Goto(s, Reloading)
  {
    hide Message;
  }

  // ----- one page -----

  /** A rate-limited page starts again, up to five attempts; bytes are kept as they came; any other answer ends it. */
  lemma AnswersExactly(attempt: nat, content: Bytes)
    ensures AfterFetch(RateLimited, attempt) == if attempt < 5 then Starting(attempt + 1) else Abandoned
    ensures AfterFetch(FetchedBytes(content), attempt) == Fetched(content)
    ensures AfterFetch(FetchFailed, attempt) == Abandoned
  {
  }

  /** The head call: an object under the page's hash, or without an ETag, is reused; another one is an error. */
  lemma HeadsExactly(id: nat, plan: PagePlan, bucket: Bucket, attempt: nat)
    ensures var key := PageKeyOf(id, plan.hash, plan.contentType);
            AfterHead(id, plan, bucket, attempt)
            == if key.Err? then Abandoned
               else if key.value !in bucket then Missing(attempt)
               else if bucket[key.value].etag == "" || bucket[key.value].etag == plan.hash then
                 Ready(Page(plan.index, key.value, plan.contentType, |bucket[key.value].content|, plan.hash))
               else Abandoned
  {
    hide PageKeyOf;
  }

  /** The bytes that were fetched are put under the page's key, and the page to be recorded tells their number. */
  lemma PutStoresBytes(s: State, k: nat, now: int)
    requires s.worker.Draining? && s.worker.position.Archiving? && k < |s.worker.position.tasks| && s.worker.id >= 0
    requires s.worker.position.tasks[k].stage.Fetched?
    ensures var plan, content := s.worker.position.tasks[k].plan, s.worker.position.tasks[k].stage.content;
            var key, s' := PageKeyOf(s.worker.id, plan.hash, plan.contentType), Next(s, PutPage(k, now));
            key.Ok? ==>
              && s.worker.backend in s'.buckets && key.value in s'.buckets[s.worker.backend]
              && Holds(s'.buckets[s.worker.backend][key.value], plan, content)
              && s'.worker.Draining? && s'.worker.position.Archiving? && k < |s'.worker.position.tasks|
              && s'.worker.position.tasks[k].stage
                 == Ready(Page(plan.index, key.value, plan.contentType, |content|, plan.hash))
  {
    hide PageKeyOf;
  }

  // ----- a whole visit -----

  /** Every page has its own key, and none of them is in the bucket yet. */
  predicate NewPages(id: nat, plans: seq<PagePlan>, bucket: Bucket) {
    && (forall k :: 0 <= k < |plans| ==> KeyFor(id, plans[k]).Ok? && KeyFor(id, plans[k]).value !in bucket)
    && (forall j, k :: 0 <= j < k < |plans| ==> KeyFor(id, plans[j]) != KeyFor(id, plans[k]))
  }

  /** The pages that a download of these bytes records. */
  function PagesOf(id: nat, plans: seq<PagePlan>, contents: seq<Bytes>): (pages: seq<Page>)
    requires |contents| == |plans| && forall k :: 0 <= k < |plans| ==> KeyFor(id, plans[k]).Ok?
    ensures |pages| == |plans|
  {
    seq(|plans|, k requires 0 <= k < |plans| =>
          Page(plans[k].index, KeyFor(id, plans[k]).value, plans[k].contentType, |contents[k]|, plans[k].hash))
  }

  /** The bucket with the first k pages. */
  function BucketOfPages(id: nat, plans: seq<PagePlan>, contents: seq<Bytes>, bucket: Bucket, now: int, k: nat): Bucket
    requires |contents| == |plans| && k <= |plans| && forall k :: 0 <= k < |plans| ==> KeyFor(id, plans[k]).Ok?
  {
    if k == 0 then bucket
    else
      BucketOfPages(id, plans, contents, bucket, now, k - 1)[
        KeyFor(id, plans[k - 1]).value := Object(contents[k - 1], plans[k - 1].contentType, plans[k - 1].hash, now)]
  }

  function TasksAfter(plans: seq<PagePlan>, k: nat): seq<Task> {
    seq(|plans|, j requires 0 <= j < |plans| => Task(plans[j], if j < k then Recorded else Starting(1)))
  }

  function OnePage(s: State, k: nat, content: Bytes, now: int): State {
    Next(Next(Next(Next(s, HeadPage(k)), FetchPage(k, FetchedBytes(content))), PutPage(k, now)), RecordPage(k, now))
  }

  function FirstPages(s: State, contents: seq<Bytes>, now: int, k: nat): State
    requires k <= |contents|
  {
    if k == 0 then s else OnePage(FirstPages(s, contents, now, k - 1), k - 1, contents[k - 1], now)
  }

  /** The worker in the middle of a download, with the first k pages recorded. */
  predicate AtPages(s: State, id: nat, rest: seq<int>, backend: string, plans: seq<PagePlan>, k: nat) {
    s.worker == Draining(id, rest, backend, Archiving(TasksAfter(plans, k))) && backend in s.buckets
  }

  lemma KeyNotYetIn(id: nat, plans: seq<PagePlan>, contents: seq<Bytes>, bucket: Bucket, now: int, k: nat, j: nat)
    requires |contents| == |plans| && NewPages(id, plans, bucket) && k <= j < |plans|
    ensures KeyFor(id, plans[j]).value !in BucketOfPages(id, plans, contents, bucket, now, k)
  {
    hide KeyFor;
    if k > 0 {
      KeyNotYetIn(id, plans, contents, bucket, now, k - 1, j);
    }
  }

  lemma OnePageStep(s: State, id: nat, rest: seq<int>, backend: string, plans: seq<PagePlan>, k: nat, content: Bytes,
                    now: int)
    requires AtPages(s, id, rest, backend, plans, k) && k < |plans|
    requires KeyFor(id, plans[k]).Ok? && KeyFor(id, plans[k]).value !in s.buckets[backend]
    requires AddPage(s.docs, id, Page(plans[k].index, KeyFor(id, plans[k]).value, plans[k].contentType, |content|,
                                      plans[k].hash), now).result.Ok?
    ensures var s', key := OnePage(s, k, content, now), KeyFor(id, plans[k]).value;
            && AtPages(s', id, rest, backend, plans, k + 1)
            && s'.docs == AddPage(s.docs, id, Page(plans[k].index, key, plans[k].contentType, |content|, plans[k].hash),
                                  now).docs
            && s'.buckets == s.buckets[backend := s.buckets[backend][
                               key := Object(content, plans[k].contentType, plans[k].hash, now)]]
            && s' == s.(worker := s'.worker, docs := s'.docs, buckets := s'.buckets, ledgers := s'.ledgers)
  {
    hide PageKeyOf, AddPage;
    var key := KeyFor(id, plans[k]).value;
    var s1 := Next(s, HeadPage(k));
    assert s1 == SetStage(s, k, Missing(1));
    var s2 := Next(s1, FetchPage(k, FetchedBytes(content)));
    assert s2 == SetStage(s1, k, Fetched(content));
    var s3 := Next(s2, PutPage(k, now));
    var page := Page(plans[k].index, key, plans[k].contentType, |content|, plans[k].hash);
    assert s3.worker.position.tasks[k].stage == Ready(page);
    var s4 := Next(s3, RecordPage(k, now));
    assert s4.worker.position.tasks == TasksAfter(plans, k + 1);
  }

  /** The document store and the bucket after the first k pages. */
  ghost predicate PagesIn(s: State, t: State, id: nat, rest: seq<int>, backend: string, plans: seq<PagePlan>,
                          contents: seq<Bytes>, now: int, k: nat)
    requires backend in s.buckets && |contents| == |plans| && k <= |plans|
    requires forall k :: 0 <= k < |plans| ==> KeyFor(id, plans[k]).Ok?
  {
    && AtPages(t, id, rest, backend, plans, k)
    && (t.docs, true) == RecordAll(s.docs, id, PagesOf(id, plans, contents)[..k], now)
    && t.buckets == s.buckets[backend := BucketOfPages(id, plans, contents, s.buckets[backend], now, k)]
    && t == s.(worker := t.worker, docs := t.docs, buckets := t.buckets, ledgers := t.ledgers)
  }

  lemma {:induction false} FirstPagesIn(s: State, id: nat, rest: seq<int>, backend: string, plans: seq<PagePlan>,
                                        contents: seq<Bytes>, now: int, k: nat)
    requires AtPages(s, id, rest, backend, plans, 0) && |contents| == |plans| && k <= |plans|
    requires NewPages(id, plans, s.buckets[backend])
    requires RecordAll(s.docs, id, PagesOf(id, plans, contents), now).1
    ensures PagesIn(s, FirstPages(s, contents, now, k), id, rest, backend, plans, contents, now, k)
  {
    hide OnePage, KeyFor, AddPage;
    var pages := PagesOf(id, plans, contents);
    if k > 0 {
      FirstPagesIn(s, id, rest, backend, plans, contents, now, k - 1);
      var t := FirstPages(s, contents, now, k - 1);
      KeyNotYetIn(id, plans, contents, s.buckets[backend], now, k - 1, k - 1);
      assert pages[..k][..k - 1] == pages[..k - 1];
      if !RecordAll(s.docs, id, pages[..k], now).1 {
        RecordAllStops(s.docs, id, pages, k, now);
      }
      OnePageStep(t, id, rest, backend, plans, k - 1, contents[k - 1], now);
    } else {
      assert s.buckets == s.buckets[backend := s.buckets[backend]];
      assert pages[..0] == [];
    }
  }

  function Begun(s: State, resolved: Resolved, now: int): State {
    Next(Next(Next(Next(s, Load), Claim(true, now)), ResolveSource(Ok(resolved))), SaveMeta(now))
  }

  function Unfolded(s: State, plans: seq<PagePlan>, now: int): State {
    Next(Next(Next(s, ClearPages(now)), Open(now)), PlanPages(Ok(plans)))
  }

  function Ended(s: State, manifest: Object, now: int): State {
    Next(Next(Next(Next(s, Reload), PutManifest(Ok(manifest))), Finish(now)), Return)
  }

  /** The worker's steps for one document, from the load to the return, with nothing in between. */
  function Visited(s: State, resolved: Resolved, plans: seq<PagePlan>, contents: seq<Bytes>, manifest: Object, now: int)
    : State
  {
    var begun := Begun(s, resolved, now);
    var fetched :=
      if begun.worker.Draining? && begun.worker.position.ClearingPages? then
        Next(FirstPages(Unfolded(begun, plans, now), contents, now, |contents|), Collect)
      else begun;
    Ended(fetched, manifest, now)
  }

  /** The worker is about to load a queued document whose source and backend are known. */
  predicate AboutToLoad(s: State, id: nat, rest: seq<int>) {
    && s.worker.Draining? && s.worker.id == id && s.worker.rest == rest && s.worker.position.Loading?
    && id < |s.docs| && s.docs[id].status.Queued?
    && s.docs[id].source in s.factories && s.docs[id].storageBackend in s.buckets
  }

  /** A draining worker's own step. */
  lemma Drains(s: State, a: Action)
    requires s.worker.Draining?
    requires !a.ApiRequest? && !a.ApiDelete? && !a.ApiRefresh? && !a.ApiClear? && !a.ApiRestore?
    ensures Next(s, a) == DrainStep(s, a)
  {
    hide DrainStep;
  }

  lemma LoadExactly(s: State, id: nat, rest: seq<int>)
    requires AboutToLoad(s, id, rest)
    ensures Next(s, Load) == s.(worker := Draining(id, rest, s.docs[id].storageBackend, Claiming(s.docs[id])))
  {
    hide Next;
    Drains(s, Load);
    hide PageStep, Message, DoClaim, DoSaveMeta, DoClearPages, DoOpen, DoPlanPages, DoReload, DoPutManifest,
      DoFinish, DoSaveError, DoMarkFailed;
  }

  lemma ClaimExactly(s: State, id: nat, rest: seq<int>, d: Document, now: int)
    requires s.worker == Draining(id, rest, d.storageBackend, Claiming(d)) && id < |s.docs| && s.docs[id] == d
    requires d.status.Queued? && d.source in s.factories && d.storageBackend in s.buckets
    ensures var t := Next(s, Claim(true, now));
            && t.worker == Draining(id, rest, d.storageBackend, ResolvingSource)
            && t.docs == s.docs[id := SetStatus(d, Resolving, now)]
            && t == s.(worker := t.worker, docs := t.docs, ledgers := t.ledgers)
  {
    hide Next;
    Drains(s, Claim(true, now));
    hide PageStep, Message, DoLoad, DoSaveMeta, DoClearPages, DoOpen, DoPlanPages, DoReload, DoPutManifest,
      DoFinish, DoSaveError, DoMarkFailed;
  }

  lemma ResolveExactly(s: State, resolved: Resolved)
    requires s.worker.Draining? && s.worker.position.ResolvingSource?
    ensures Next(s, ResolveSource(Ok(resolved))) == Goto(s, SavingMeta(resolved))
  {
    hide Next;
    Drains(s, ResolveSource(Ok(resolved)));
    hide PageStep, Message, DoLoad, DoClaim, DoSaveMeta, DoClearPages, DoOpen, DoPlanPages, DoReload,
      DoPutManifest, DoFinish, DoSaveError, DoMarkFailed;
  }

  lemma SaveMetaExactly(s: State, id: nat, rest: seq<int>, backend: string, d: Document, resolved: Resolved, now: int)
    requires s.worker == Draining(id, rest, backend, SavingMeta(resolved)) && id < |s.docs|
    requires s.docs[id] == SetStatus(d, Resolving, now)
    ensures var t := Next(s, SaveMeta(now));
            && t.worker == Draining(id, rest, backend, if NeedsDownload(d, resolved, now) then ClearingPages else Reloading)
            && t.docs == s.docs[id := Refilled(d, resolved, now)]
            && t == s.(worker := t.worker, docs := t.docs, ledgers := t.ledgers)
  {
    hide Next;
    Drains(s, SaveMeta(now));
    hide PageStep, Message, DoLoad, DoClaim, DoClearPages, DoOpen, DoPlanPages, DoReload, DoPutManifest,
      DoFinish, DoSaveError, DoMarkFailed;
  }

  lemma BegunExactly(s: State, id: nat, rest: seq<int>, resolved: Resolved, now: int)
    requires AboutToLoad(s, id, rest)
    ensures var d, t := s.docs[id], Begun(s, resolved, now);
            && t.worker == Draining(id, rest, d.storageBackend,
                                    if NeedsDownload(d, resolved, now) then ClearingPages else Reloading)
            && t.docs == s.docs[id := Refilled(d, resolved, now)]
            && t == s.(worker := t.worker, docs := t.docs, ledgers := t.ledgers)
  {
    hide Next, Refilled, NeedsDownload;
    var d := s.docs[id];
    LoadExactly(s, id, rest);
    var s1 := Next(s, Load);
    ClaimExactly(s1, id, rest, d, now);
    var s2 := Next(s1, Claim(true, now));
    ResolveExactly(s2, resolved);
    SaveMetaExactly(Goto(s2, SavingMeta(resolved)), id, rest, d.storageBackend, d, resolved, now);
  }

  lemma ClearPagesExactly(s: State, id: nat, rest: seq<int>, backend: string, now: int)
    requires s.worker == Draining(id, rest, backend, ClearingPages) && id < |s.docs| && s.docs[id].status.Resolving?
    ensures var t := Next(s, ClearPages(now));
            && t.worker == Draining(id, rest, backend, Opening)
            && t.docs == s.docs[id := s.docs[id].(pages := [], progress := s.docs[id].progress.(done := 0), updatedAt := now)]
            && t == s.(worker := t.worker, docs := t.docs, ledgers := t.ledgers, torn := s.torn - {id})
  {
    hide Next;
    Drains(s, ClearPages(now));
    hide PageStep, Message, DoLoad, DoClaim, DoSaveMeta, DoOpen, DoPlanPages, DoReload, DoPutManifest,
      DoFinish, DoSaveError, DoMarkFailed;
  }

  lemma OpenExactly(s: State, id: nat, rest: seq<int>, backend: string, now: int)
    requires s.worker == Draining(id, rest, backend, Opening) && id < |s.docs| && s.docs[id].status.Resolving?
    ensures Next(s, Open(now))
            == s.(worker := Draining(id, rest, backend, Planning), docs := s.docs[id := SetStatus(s.docs[id], Downloading, now)])
  {
    hide Next;
    Drains(s, Open(now));
    hide PageStep, Message, DoLoad, DoClaim, DoSaveMeta, DoClearPages, DoPlanPages, DoReload, DoPutManifest,
      DoFinish, DoSaveError, DoMarkFailed;
  }

  lemma PlanExactly(s: State, id: nat, rest: seq<int>, backend: string, plans: seq<PagePlan>)
    requires s.worker == Draining(id, rest, backend, Planning)
    ensures var t := Next(s, PlanPages(Ok(plans)));
            && t.worker == Draining(id, rest, backend, Archiving(TasksAfter(plans, 0)))
            && t == s.(worker := t.worker, ledgers := t.ledgers)
  {
    hide Next;
    Drains(s, PlanPages(Ok(plans)));
    hide PageStep, Message, DoLoad, DoClaim, DoSaveMeta, DoClearPages, DoOpen, DoReload, DoPutManifest,
      DoFinish, DoSaveError, DoMarkFailed;
    assert NewTasks(plans) == TasksAfter(plans, 0);
  }

  lemma UnfoldedExactly(s: State, id: nat, rest: seq<int>, backend: string, plans: seq<PagePlan>, now: int)
    requires s.worker == Draining(id, rest, backend, ClearingPages) && id < |s.docs| && s.docs[id].status.Resolving?
    ensures var t := Unfolded(s, plans, now);
            && t.worker == Draining(id, rest, backend, Archiving(TasksAfter(plans, 0)))
            && t.docs == s.docs[id := s.docs[id].(pages := [], progress := s.docs[id].progress.(done := 0),
                                                  status := Downloading, updatedAt := now)]
            && t == s.(worker := t.worker, docs := t.docs, ledgers := t.ledgers, torn := s.torn - {id})
  {
    hide Next;
    ClearPagesExactly(s, id, rest, backend, now);
    var s1 := Next(s, ClearPages(now));
    OpenExactly(s1, id, rest, backend, now);
    PlanExactly(Next(s1, Open(now)), id, rest, backend, plans);
  }

  lemma ReloadExactly(s: State, id: nat, rest: seq<int>, backend: string)
    requires s.worker == Draining(id, rest, backend, Reloading) && id < |s.docs| && IsVisible(s.docs[id].status)
    ensures Next(s, Reload) == Goto(s, WritingManifest)
  {
    hide Next;
    Drains(s, Reload);
    hide PageStep, Message, DoLoad, DoClaim, DoSaveMeta, DoClearPages, DoOpen, DoPlanPages, DoPutManifest,
      DoFinish, DoSaveError, DoMarkFailed;
  }

  lemma PutManifestExactly(s: State, id: nat, rest: seq<int>, backend: string, manifest: Object)
    requires s.worker == Draining(id, rest, backend, WritingManifest) && backend in s.buckets
    ensures Next(s, PutManifest(Ok(manifest)))
            == s.(worker := Draining(id, rest, backend, Finishing),
                  buckets := s.buckets[backend := s.buckets[backend][ManifestKeyOf(id) := manifest]])
  {
    hide Next, ManifestKeyOf;
    Drains(s, PutManifest(Ok(manifest)));
    hide PageStep, Message, DoLoad, DoClaim, DoSaveMeta, DoClearPages, DoOpen, DoPlanPages, DoReload,
      DoFinish, DoSaveError, DoMarkFailed;
  }

  lemma FinishExactly(s: State, id: nat, rest: seq<int>, backend: string, now: int)
    requires s.worker == Draining(id, rest, backend, Finishing) && id < |s.docs|
    requires s.docs[id].status.Resolving? || s.docs[id].status.Downloading?
    ensures Next(s, Finish(now))
            == s.(worker := Draining(id, rest, backend, Returning), docs := s.docs[id := SetStatus(s.docs[id], Archived, now)])
    ensures Next(Next(s, Finish(now)), Return) == Leave(Next(s, Finish(now)))
  {
    hide Next;
    Drains(s, Finish(now));
    hide PageStep, Message, DoLoad, DoClaim, DoSaveMeta, DoClearPages, DoOpen, DoPlanPages, DoReload,
      DoPutManifest, DoSaveError, DoMarkFailed;
    Drains(Next(s, Finish(now)), Return);
  }

  lemma EndedExactly(s: State, id: nat, rest: seq<int>, backend: string, manifest: Object, now: int)
    requires s.worker == Draining(id, rest, backend, Reloading) && id < |s.docs| && backend in s.buckets
    requires s.docs[id].status.Resolving? || s.docs[id].status.Downloading?
    ensures var t := Ended(s, manifest, now);
            && t.docs == s.docs[id := SetStatus(s.docs[id], Archived, now)]
            && t.buckets == s.buckets[backend := s.buckets[backend][ManifestKeyOf(id) := manifest]]
            && t == Leave(s).(docs := t.docs, buckets := t.buckets)
  {
    hide Next, ManifestKeyOf;
    ReloadExactly(s, id, rest, backend);
    PutManifestExactly(Goto(s, WritingManifest), id, rest, backend, manifest);
    FinishExactly(Next(Goto(s, WritingManifest), PutManifest(Ok(manifest))), id, rest, backend, now);
  }

  /** When all tasks have recorded their pages, the collector goes on. */
  lemma CollectedExactly(s: State, id: nat, rest: seq<int>, backend: string, plans: seq<PagePlan>)
    requires AtPages(s, id, rest, backend, plans, |plans|)
    ensures Next(s, Collect) == Goto(s, Reloading)
  {
  }

  /** What the worker leaves of a visit without interference. */
  ghost predicate LeftBy(s: State, t: State, id: nat, rest: seq<int>, doc: Document, bucket: Bucket)
    requires id < |s.docs|
  {
    && t.docs == s.docs[id := doc] && t.buckets == s.buckets[s.docs[id].storageBackend := bucket]
    && t.worker == (if rest == [] then Idle else Draining(rest[0], rest[1..], "", Loading))
    && t.factories == s.factories && t.pending == s.pending
  }

  /**
   * Without interference the worker of the machine does what processing a document by itself comes to: the
   * document ends archived with what was resolved and downloaded, every page's object holds the bytes that
   * were fetched, the manifest is stored, and everything else is as it was.
   */
  lemma VisitIsProcessing(s: State, id: nat, rest: seq<int>, resolved: Resolved, plans: seq<PagePlan>,
                          contents: seq<Bytes>, manifest: Object, now: int)
    requires AboutToLoad(s, id, rest) && |contents| == |plans|
    requires NewPages(id, plans, s.buckets[s.docs[id].storageBackend])
    requires Archives(s.docs, id, Visit(true, Ok(resolved), PagesOf(id, plans, contents), Ok(()), Ok(manifest.content)), now)
    ensures var visit := Visit(true, Ok(resolved), PagesOf(id, plans, contents), Ok(()), Ok(manifest.content));
            var d := s.docs[id];
            var bucket :=
              if NeedsDownload(d, resolved, now)
              then BucketOfPages(id, plans, contents, s.buckets[d.storageBackend], now, |plans|)
              else s.buckets[d.storageBackend];
            LeftBy(s, Visited(s, resolved, plans, contents, manifest, now), id, rest,
                   Finished(s.docs, id, visit, now), bucket[ManifestKeyOf(id) := manifest])
  {
    hide Begun, Unfolded, Ended, Next, ManifestKeyOf, BucketOfPages, KeyFor, RecordAll;
    var d := s.docs[id];
    var backend := d.storageBackend;
    BegunExactly(s, id, rest, resolved, now);
    var begun := Begun(s, resolved, now);
    if NeedsDownload(d, resolved, now) {
      UnfoldedExactly(begun, id, rest, backend, plans, now);
      var unfolded := Unfolded(begun, plans, now);
      assert unfolded.docs == s.docs[id := Opened(d, resolved, now)];
      FirstPagesIn(unfolded, id, rest, backend, plans, contents, now, |plans|);
      var t := FirstPages(unfolded, contents, now, |plans|);
      var pages := PagesOf(id, plans, contents);
      assert pages[..|plans|] == pages;
      CollectedExactly(t, id, rest, backend, plans);
      RecordAllTouchesPages(unfolded.docs, id, pages, now);
      EndedExactly(Goto(t, Reloading), id, rest, backend, manifest, now);
    } else {
      EndedExactly(begun, id, rest, backend, manifest, now);
    }
  }

  /** Each page's object is in the bucket in the end, with the bytes that were fetched for it. */
  lemma {:induction false} PagesHoldBytes(id: nat, plans: seq<PagePlan>, contents: seq<Bytes>, bucket: Bucket, now: int,
                                          n: nat, k: nat)
    requires |contents| == |plans| && NewPages(id, plans, bucket) && k < n <= |plans|
    ensures var after, key := BucketOfPages(id, plans, contents, bucket, now, n), KeyFor(id, plans[k]).value;
            key in after && Holds(after[key], plans[k], contents[k])
    ensures forall key :: key in bucket ==>
              var after := BucketOfPages(id, plans, contents, bucket, now, n);
              key in after && after[key] == bucket[key]
  {
    hide KeyFor;
    if k < n - 1 {
      PagesHoldBytes(id, plans, contents, bucket, now, n - 1, k);
    } else if n > 1 {
      PagesHoldBytes(id, plans, contents, bucket, now, n - 1, 0);
    } else {
      assert BucketOfPages(id, plans, contents, bucket, now, 0) == bucket;
    }
  }
}
