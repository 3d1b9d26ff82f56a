/** Two interleavings that show the conditions of the theorems are needed. */
module LifecycleRaces {
  import opened Wrappers
  import opened Strings
  import opened Keys
  import opened Model
  import opened StoreSpec
  import opened Objects
  import opened Lifecycle
  import opened LifecycleTheorems
  import Queries

  const SOURCE := "hitomi"
  const BACKEND := "memory"
  const MANIFEST := Object([], "application/json", "m", 0)
  const PLAN := PagePlan(0, "h", "image/webp")
  const RESOLVED := Resolved("meta", "title", Some(1))

  lemma {:induction false} RunThen(s: State, actions: seq<Action>, a: Action)
    ensures Run(s, actions + [a]) == Next(Run(s, actions), a)
    decreases actions
  {
    hide Next;
    if actions == [] {
      assert [a][1..] == [];
      assert Run(s, [a]) == Run(Next(s, a), []);
    } else {
      assert (actions + [a])[1..] == actions[1..] + [a];
      RunThen(Next(s, actions[0]), actions[1..], a);
    }
  }

  lemma Go(s: State, a: Action) returns (s': State)
    requires Reachable(s)
    ensures s' == Next(s, a) && Reachable(s')
  {
    hide Next, Run, Initial;
    var factories, backends, actions :| s == Run(Initial(factories, backends), actions);
    RunThen(Initial(factories, backends), actions, a);
    s' := Next(s, a);
    assert s' == Run(Initial(factories, backends), actions + [a]);
  }

  lemma Begin() returns (s: State)
    ensures Reachable(s) && s == Initial({SOURCE}, {BACKEND})
  {
    s := Initial({SOURCE}, {BACKEND});
    assert s == Run(Initial({SOURCE}, {BACKEND}), []);
  }

  lemma OneDocument(d: Document, status: Status)
    ensures Queries.Run(Queries.StatusQuery(status, 5), [d]) == if d.status == status then [d] else []
  {
    var q := Queries.StatusQuery(status, 5);
    assert [d][..0] == [];
    assert Queries.Filter(q, [d]) == if d.status == status then [d] else [];
    assert Queries.StableSort(q, []) == [];
    assert Queries.StableSort(q, [d]) == [d];
  }

  /** The worker alone, processing the only document, at some position. */
  predicate Alone(s: State, position: Position) {
    && s.worker == Draining(0, [], BACKEND, position)
    && |s.docs| == 1 && |s.ledgers| == 1 && s.docs[0].id == 0
    && s.docs[0].storageBackend == BACKEND && s.docs[0].source == SOURCE
    && s.factories == {SOURCE} && s.buckets.Keys == {BACKEND}
  }

  predicate Resting(s: State) {
    && s.worker.Idle?
    && |s.docs| == 1 && |s.ledgers| == 1 && s.docs[0].id == 0
    && s.docs[0].storageBackend == BACKEND && s.docs[0].source == SOURCE
    && s.factories == {SOURCE} && s.buckets.Keys == {BACKEND}
  }

  predicate SameHistory(s: State, s': State) {
    s'.torn == s.torn && s'.pending == s.pending && s'.buckets == s.buckets
  }

  /** A step of the draining worker. */
  lemma Work(s: State, a: Action) returns (s': State)
    requires Reachable(s) && s.worker.Draining?
    requires !a.ApiRequest? && !a.ApiDelete? && !a.ApiRefresh? && !a.ApiClear? && !a.ApiRestore?
    ensures s' == DrainStep(s, a) && Reachable(s')
  {
    hide DrainStep, Reachable;
    s' := Go(s, a);
  }

  lemma Taken(s: State) returns (s': State)
    requires Reachable(s) && Resting(s) && s.docs[0].status.Queued?
    ensures Reachable(s') && s' == s.(worker := Draining(0, [], "", Loading))
  {
    hide Reachable, Queries.Run, DrainStep, SweepStep;
    OneDocument(s.docs[0], Queued);
    assert s.docs == [s.docs[0]];
    assert Ids([s.docs[0]]) == [0] by {
      assert [s.docs[0]][1..] == [];
    }
    s' := Go(s, BeginQueue);
  }

  lemma ClaimedDocument(s: State) returns (s': State)
    requires Reachable(s) && Resting(s) && s.docs[0].status.Queued?
    ensures Reachable(s') && Alone(s', ResolvingSource)
    ensures s'.docs[0] == SetStatus(s.docs[0], Resolving, 0)
    ensures SameHistory(s, s')
  {
    hide Reachable, Next, PageStep, DoSaveMeta, DoClearPages, DoOpen, DoPlanPages, DoReload, DoPutManifest, DoFinish,
      DoSaveError, DoMarkFailed;
    var s1 := Taken(s);
    var s2 := Work(s1, Load);
    assert s2 == s.(worker := Draining(0, [], BACKEND, Claiming(s.docs[0])));
    s' := Work(s2, Claim(true, 0));
  }

  /** A queued document is claimed, resolved to one page, and its metadata saved. */
  lemma Resolved1(s: State) returns (s': State)
    requires Reachable(s) && Resting(s) && s.docs[0].status.Queued?
    ensures Reachable(s')
    ensures Alone(s', if s.docs[0].progress.done < 1 then ClearingPages else Reloading)
    ensures s'.docs[0].status.Resolving? && s'.docs[0].pages == s.docs[0].pages
    ensures s'.docs[0].progress == Progress(s.docs[0].progress.done, 1)
    ensures SameHistory(s, s') && s'.ledgers == [Ledger(1, s.docs[0].progress.done, 0, 0)]
  {
    hide Reachable, Next, PageStep, DoLoad, DoClaim, DoClearPages, DoOpen, DoPlanPages, DoReload, DoPutManifest,
      DoFinish, DoSaveError, DoMarkFailed;
    var s1 := ClaimedDocument(s);
    var s2 := Work(s1, ResolveSource(Ok(RESOLVED)));
    assert s2 == Goto(s1, SavingMeta(RESOLVED));
    s' := Work(s2, SaveMeta(0));
  }

  lemma ManifestWritten(s: State) returns (s': State)
    requires Reachable(s) && Alone(s, Reloading) && IsVisible(s.docs[0].status)
    ensures Reachable(s') && Alone(s', Finishing) && s'.docs == s.docs && s'.ledgers == s.ledgers
    ensures SameHistory(s.(buckets := s'.buckets), s')
  {
    hide Reachable, Next, PageStep, DoLoad, DoClaim, DoSaveMeta, DoClearPages, DoOpen, DoPlanPages, DoSaveError,
      DoMarkFailed, DoFinish, ManifestKeyOf;
    var s1 := Work(s, Reload);
    assert s1 == Goto(s, WritingManifest);
    s' := Work(s1, PutManifest(Ok(MANIFEST)));
  }

  /** With the content in place, the manifest is written and the document archived. */
  lemma ArchivedDocument(s: State) returns (s': State)
    requires Reachable(s) && Alone(s, Reloading)
    requires s.docs[0].status.Resolving? || s.docs[0].status.Downloading?
    ensures Reachable(s') && Resting(s') && s'.docs[0] == SetStatus(s.docs[0], Archived, 0) && s'.ledgers == s.ledgers
    ensures SameHistory(s.(buckets := s'.buckets), s')
  {
    hide Reachable, Next, PageStep, DoLoad, DoClaim, DoSaveMeta, DoClearPages, DoOpen, DoPlanPages, DoSaveError,
      DoMarkFailed, DoReload, DoPutManifest;
    var s2 := ManifestWritten(s);
    var s3 := Work(s2, Finish(0));
    assert Alone(s3, Returning);
    s' := Work(s3, Return);
  }

  // ----- one page is downloaded -----

  function TaskAt(stage: Stage): Position {
    Archiving([Task(PLAN, stage)])
  }

  lemma PlanHasKey()
    ensures PageKeyOf(0, PLAN.hash, PLAN.contentType).Ok?
    ensures PageKeyOf(0, PLAN.hash, PLAN.contentType).value != ""
  {
    hide PageKeyOf, PrefixOf, ManifestKeyOf, PageFile, Itoa, Glue, UsableHash, TrimSpace;
    LetterIsUsable(PLAN.hash, 'h');
    PageKeyShape(0, PLAN.hash, PLAN.contentType);
    PageKeyFacts(0, PLAN.hash, PLAN.contentType);
  }

  lemma Opened(s: State, plans: seq<PagePlan>) returns (s': State)
    requires Reachable(s) && Alone(s, ClearingPages) && s.docs[0].status.Resolving? && s.docs[0].progress.total == 1
    ensures Reachable(s') && Alone(s', Archiving(NewTasks(plans))) && s'.docs[0].status.Downloading?
    ensures s'.docs[0].pages == [] && s'.docs[0].progress == Progress(0, 1)
    ensures SameHistory(s.(torn := s.torn - {0}), s')
    ensures s'.ledgers == [Ledger(s.ledgers[0].resolved, |plans|, 0, 0)]
  {
    hide Reachable, Next, PageStep, DoLoad, DoClaim, DoSaveMeta, DoReload, DoPutManifest, DoFinish, DoSaveError,
      DoMarkFailed;
    var s1 := Work(s, ClearPages(0));
    assert Alone(s1, Opening);
    var s2 := Work(s1, Open(0));
    assert Alone(s2, Planning);
    s' := Work(s2, PlanPages(Ok(plans)));
  }

  lemma WorkPage(s: State, a: Action) returns (s': State)
    requires Reachable(s) && s.worker.Draining? && s.worker.position.Archiving?
    requires !a.ApiRequest? && !a.ApiDelete? && !a.ApiRefresh? && !a.ApiClear? && !a.ApiRestore?
    ensures s' == PageStep(s, a) && Reachable(s')
  {
    hide PageStep, Reachable;
    s' := Work(s, a);
  }

  lemma OneTask(s: State, stage: Stage, next: Stage)
    requires Alone(s, TaskAt(stage))
    ensures SetStage(s, 0, next) == Goto(s, TaskAt(next))
  {
    assert [Task(PLAN, stage)][0 := Task(PLAN, next)] == [Task(PLAN, next)];
  }

  lemma Fetched1(s: State, key: string) returns (s': State)
    requires Reachable(s) && Alone(s, TaskAt(Starting(1)))
    requires s.buckets[BACKEND] == map[] && PageKeyOf(0, PLAN.hash, PLAN.contentType) == Ok(key)
    ensures Reachable(s') && s' == Goto(s, TaskAt(Fetched([])))
  {
    hide Reachable, PageKeyOf, DoRecordPage, DoCollect, DoPutPage;
    assert AfterHead(0, PLAN, BucketOf(s), 1) == Missing(1);
    OneTask(s, Starting(1), Missing(1));
    var s1 := WorkPage(s, HeadPage(0));
    assert s1 == Goto(s, TaskAt(Missing(1)));
    OneTask(s1, Missing(1), Fetched([]));
    s' := WorkPage(s1, FetchPage(0, FetchedBytes([])));
  }

  lemma Stored1(s: State, key: string) returns (s': State)
    requires Reachable(s) && Alone(s, TaskAt(Starting(1)))
    requires s.buckets[BACKEND] == map[] && PageKeyOf(0, PLAN.hash, PLAN.contentType) == Ok(key)
    ensures Reachable(s') && s'.docs == s.docs && SameHistory(s.(buckets := s'.buckets), s')
    ensures Alone(s', TaskAt(Ready(PageFor(PLAN, key, 0))))
  {
    hide Reachable, PageKeyOf, DoRecordPage, DoCollect, AfterHead;
    var s1 := Fetched1(s, key);
    OneTask(s1, Fetched([]), Ready(PageFor(PLAN, key, 0)));
    s' := WorkPage(s1, PutPage(0, 0));
  }

  lemma PageIsIn(s: State, page: Page) returns (s': State)
    requires Reachable(s) && Alone(s, TaskAt(Ready(page))) && s.docs[0].status.Downloading?
    requires s.docs[0].pages == [] && s.docs[0].progress == Progress(0, 1) && page.index == 0
    ensures Reachable(s') && Alone(s', TaskAt(Recorded)) && SameHistory(s, s') && s'.docs[0].status.Downloading?
    ensures s'.docs[0].pages == [page] && s'.docs[0].progress == Progress(1, 1)
  {
    hide Reachable, AfterHead, AfterFetch, DoPutPage, DoCollect, PageKeyOf, SweepStep, DrainStep, Next;
    s' := WorkPage(s, RecordPage(0, 0));
    assert Place([], page) == [page];
    assert s'.worker.position == TaskAt(Recorded);
  }

  lemma Recorded1(s: State, page: Page) returns (s': State)
    requires Reachable(s) && Alone(s, TaskAt(Ready(page))) && s.docs[0].status.Downloading?
    requires s.docs[0].pages == [] && s.docs[0].progress == Progress(0, 1) && page.index == 0
    ensures Reachable(s') && Alone(s', Reloading) && SameHistory(s, s') && s'.docs[0].status.Downloading?
    ensures s'.docs[0].pages == [page] && s'.docs[0].progress == Progress(1, 1)
  {
    hide Reachable, AfterHead, AfterFetch, DoPutPage, DoRecordPage, PageKeyOf, SweepStep, DrainStep, Next;
    var s1 := PageIsIn(s, page);
    s' := WorkPage(s1, Collect);
  }

  /** A request is made and the document archived with its one page. */
  lemma FirstArchive() returns (s: State)
    ensures Reachable(s) && Resting(s) && s.docs[0].status.Archived? && s.torn == {} && s.pending == multiset{}
    ensures Occupied(s.docs[0].pages, 0) && s.docs[0].progress == Progress(1, 1)
  {
    hide Reachable, Next, PageKeyOf;
    PlanHasKey();
    var s0 := Requested();
    var s1 := Resolved1(s0);
    var s2 := Opened(s1, [PLAN]);
    assert NewTasks([PLAN]) == [Task(PLAN, Starting(1))];
    var s3 := Stored1(s2, PageKeyOf(0, PLAN.hash, PLAN.contentType).value);
    var s4 := Recorded1(s3, s3.worker.position.tasks[0].stage.page);
    s := ArchivedDocument(s4);
  }

  lemma Requested() returns (s: State)
    ensures Reachable(s) && Resting(s) && s.docs[0].status.Queued? && s.torn == {} && s.pending == multiset{}
    ensures s.docs[0].pages == [] && s.docs[0].progress == Progress(0, 0) && s.buckets == map[BACKEND := map[]]
  {
    hide Reachable;
    var s0 := Begin();
    s := Go(s0, ApiRequest(SOURCE, "1", BACKEND, 0));
    assert s0.buckets == map[BACKEND := map[]];
  }

  // ----- a handler that plans fewer pages than it resolved -----

  /**
   * Without any API call but the request, the archive reaches a state where an archived document has fewer pages
   * than its total: one page was resolved, and the download planned none.
   */
  lemma ShortPlanArchivesShort() returns (s: State)
    ensures Reachable(s) && |s.docs| == 1 && s.docs[0].status.Archived?
    ensures s.docs[0].pages == [] && s.docs[0].progress == Progress(0, 1)
    ensures s.ledgers == [Ledger(1, 0, 0, 0)]
  {
    hide Reachable, Next, DrainStep;
    var s0 := Requested();
    var s1 := Resolved1(s0);
    var s2 := Opened(s1, []);
    assert NewTasks([]) == [];
    var s3 := WorkPage(s2, Collect);
    s := ArchivedDocument(s3);
  }

  // ----- a restore inside a sweep -----

  /** Deleted, its objects removed by the sweep, restored before the purge: queued again, pages still recorded. */
  lemma RestoredInSweep(s: State) returns (s': State)
    requires Reachable(s) && Resting(s) && s.docs[0].status.Archived? && s.torn == {}
    ensures Reachable(s') && Resting(s') && s'.docs[0].status.Queued? && 0 in s'.torn
    ensures s'.docs[0].pages == s.docs[0].pages && s'.docs[0].progress == s.docs[0].progress
  {
    hide Reachable, Queries.Run, PrefixOf, DrainStep;
    var s1 := Go(s, ApiDelete(0, 0));
    assert Resting(s1) && s1.docs[0].status.Deleted?;
    s' := SweptAndRestored(s1);
  }

  lemma SweptAndRestored(s: State) returns (s': State)
    requires Reachable(s) && Resting(s) && s.docs[0].status.Deleted?
    ensures Reachable(s') && Resting(s') && s'.docs[0] == SetStatus(s.docs[0], Queued, 0) && 0 in s'.torn
  {
    hide Reachable, Queries.Run, PrefixOf, DrainStep;
    OneDocument(s.docs[0], Deleted);
    assert s.docs == [s.docs[0]];
    var s1 := Go(s, BeginSweep);
    assert [s.docs[0]][1..] == [];
    var s2 := Go(s1, SweepQuery);
    assert s2 == s.(worker := Sweeping(1, 0, [], Deleting(s.docs[0])));
    var s3 := Go(s2, SweepDelete(true));
    assert s3.worker == Sweeping(1, 0, [], Purging(s.docs[0])) && s3.docs == s.docs && 0 in s3.torn;
    var s4 := Go(s3, ApiRestore(0, 0));
    s' := Go(s4, SweepPurge(0));
  }

  /**
   * The archive can reach a state where an archived document records a page whose object is gone: the
   * document was deleted, a sweep removed its objects, and a restore came before the purge.
   */
  lemma RestoreInSweepLosesObjects() returns (s: State)
    ensures Reachable(s) && |s.docs| == 1 && s.docs[0].status.Archived?
    ensures Occupied(s.docs[0].pages, 0) && !Backed(s, 0, s.docs[0].pages[0])
  {
    hide Reachable, Backed;
    var s0 := FirstArchive();
    var s1 := RestoredInSweep(s0);
    var s2 := Resolved1(s1);
    s := ArchivedDocument(s2);
    PagesAreBackedUnlessTorn(s, 0, 0);
  }

  // ----- a full refresh cut in two -----

  /**
   * The archive can reach a state where an archived document has fewer pages than its total: the second
   * half of a full refresh ran after the worker had archived the document again.
   */
  lemma LateClearEmptiesArchivedDocument() returns (s: State)
    ensures Reachable(s) && |s.docs| == 1 && s.docs[0].status.Archived?
    ensures s.docs[0].pages == [] && s.docs[0].progress == Progress(0, 1)
  {
    hide Reachable, DrainStep, SweepStep;
    var s0 := FirstArchive();
    var s1 := Go(s0, ApiRefresh(0, true, 0));
    assert Resting(s1) && s1.docs[0].status.Queued? && 0 in s1.pending;
    var s2 := Resolved1(s1);
    var s3 := ArchivedDocument(s2);
    s := Go(s3, ApiClear(0, 0));
  }
}
