/** Every step of the worker keeps the invariant, position by position. */
module LifecycleSteps {
  import opened Arithmetic
  import opened Wrappers
  import opened Strings
  import opened Keys
  import opened Model
  import opened StoreSpec
  import opened PageSlices
  import opened Objects
  import opened Lifecycle
  import opened LifecycleInvariant
  import Queries

  /** The closing argument of a step that changes no object. */
  lemma RecordStepKeeps(s: State, s': State, id: int)
    requires Inv(s) && RecordStep(s, s', id) && WorkerOk(s')
    requires forall i :: i in s'.torn ==> InRange(s.docs, i)
    requires InRange(s.docs, id) ==> DocOk(id, ViewOf(s', id))
    ensures Inv(s')
  {
    hide PrefixOf, WorkerOk, DocOk, ViewOf;
    RecordStepKeepsOthers(s, s', id);
    FrameStep(s, s');
    LocalStep(s, s', id);
  }

  /** The worker of a draining state, seen from its document. */
  lemma AtWork(s: State)
    requires Inv(s) && s.worker.Draining?
    ensures InRange(s.docs, s.worker.id)
    ensures DocOk(s.worker.id, ViewOf(s, s.worker.id))
    ensures PhaseOf(s, s.worker.id)
            == if s.worker.position.Loading? then Away else Inside(s.worker.position)
  {
    hide DocOk;
  }

  /** Moving on to another position without touching any record. */
  lemma GotoKeeps(s: State, position: Position)
    requires Inv(s) && s.worker.Draining? && !s.worker.position.Loading? && !position.Loading?
    requires position.Claiming? ==> position.document.storageBackend == s.worker.backend
    requires Bound(position) ==> s.worker.backend in s.buckets
    requires DocOk(s.worker.id, ViewOf(s, s.worker.id).(phase := Inside(position)))
    ensures Inv(Goto(s, position))
  {
    hide PrefixOf, DocOk;
    RecordStepKeeps(s, Goto(s, position), s.worker.id);
  }

  /** From any position inside a document the worker may turn to the failure path. */
  lemma FailKeeps(s: State, cause: string)
    requires Inv(s) && s.worker.Draining? && !s.worker.position.Loading?
    ensures Inv(Fail(s, cause))
  {
    hide PrefixOf, PageKeyOf, ManifestKeyOf, TrimSpace, Tidy, MineOf;
    AtWork(s);
    GotoKeeps(s, SavingError(cause));
  }

  /** The worker may leave a document that is in none of the two active statuses. */
  lemma LeaveKeeps(s: State)
    requires Inv(s) && s.worker.Draining?
    requires !s.docs[s.worker.id].status.Resolving? && !s.docs[s.worker.id].status.Downloading?
    ensures Inv(Leave(s))
  {
    hide PrefixOf, PageKeyOf, ManifestKeyOf, TrimSpace, Tidy, MineOf;
    AtWork(s);
    var s' := Leave(s);
    RecordStepKeepsOthers(s, s', s.worker.id);
    assert ViewOf(s', s.worker.id) == ViewOf(s, s.worker.id).(phase := Away);
    RecordStepKeeps(s, s', s.worker.id);
  }

  // ----- entering -----

  lemma {:induction false} IdsInRange(s: State, found: seq<Document>)
    requires forall d :: d in found ==> InRange(s.docs, d.id)
    ensures forall i :: i in Ids(found) ==> InRange(s.docs, i)
  {
    if found != [] {
      assert found[0] in found;
      IdsInRange(s, found[1..]);
    }
  }

  /** What a status query returns are documents of the store, found at their own ids. */
  lemma FoundInStore(s: State, status: Status, limit: int, d: Document)
    requires Inv(s) && d in Queries.Run(Queries.StatusQuery(status, limit), s.docs)
    ensures InRange(s.docs, d.id) && s.docs[d.id] == d && d.status == status
  {
    hide DocOk, PrefixOf, Queries.Run;
    Queries.RunMembers(Queries.StatusQuery(status, limit), s.docs, d);
    var i :| 0 <= i < |s.docs| && s.docs[i] == d;
    OwnId(s, i);
  }

  lemma OwnId(s: State, i: nat)
    requires Inv(s) && i < |s.docs|
    ensures s.docs[i].id == i
  {
    hide PrefixOf, PageKeyOf, ManifestKeyOf, TrimSpace, Tidy, MineOf;
    assert DocOk(i, ViewOf(s, i));
  }

  lemma BeginQueueKeeps(s: State)
    requires Inv(s) && s.worker.Idle?
    ensures Inv(Next(s, BeginQueue))
  {
    hide PrefixOf, DocOk, Queries.Run;
    var found := Queries.Run(Queries.StatusQuery(Queued, QUEUE_BATCH), s.docs);
    forall d | d in found ensures InRange(s.docs, d.id) {
      FoundInStore(s, Queued, QUEUE_BATCH, d);
    }
    IdsInRange(s, found);
    RecordStepKeeps(s, Next(s, BeginQueue), -1);
  }

  lemma LoadKeeps(s: State)
    requires Inv(s) && s.worker.Draining? && s.worker.position.Loading?
    ensures Inv(Next(s, Load))
  {
    hide PrefixOf, PageKeyOf, ManifestKeyOf, TrimSpace, Tidy, MineOf;
    AtWork(s);
    var id := s.worker.id;
    if Visible(s.docs, id) {
      var s' := DoLoad(s);
      RecordStepKeepsOthers(s, s', id);
      assert ViewOf(s', id) == ViewOf(s, id).(phase := Inside(Claiming(s.docs[id])));
      RecordStepKeeps(s, s', id);
    } else {
      LeaveKeeps(s);
    }
  }

  /** Claiming a queued document. */
  lemma ClaimedView(id: nat, v: View, now: int)
    requires DocOk(id, v) && v.phase.Inside? && v.phase.position.Claiming? && v.doc.status.Queued?
    ensures DocOk(id, v.(doc := SetStatus(v.doc, Resolving, now), ledger := v.ledger.(lost := 0),
                         phase := Inside(ResolvingSource)))
  {
    hide PageKeyOf, ManifestKeyOf, TrimSpace, Tidy, PagesOk, HashesOk;
  }

  lemma NotYetClaimed(id: nat, v: View)
    requires DocOk(id, v) && v.phase.Inside? && v.phase.position.Claiming?
    ensures CanTransition(v.doc.status, Resolving) ==> v.doc.status.Queued?
  {
    hide PageKeyOf, ManifestKeyOf, TrimSpace, Tidy, PagesOk, HashesOk;
  }

  lemma ClaimKeeps(s: State, usable: bool, now: int)
    requires Inv(s) && s.worker.Draining? && s.worker.position.Claiming?
    ensures Inv(Next(s, Claim(usable, now)))
  {
    hide PrefixOf, PageKeyOf, ManifestKeyOf, TrimSpace, MineOf, DocOk;
    AtWork(s);
    var id := s.worker.id;
    var s' := DoClaim(s, s.worker.position.document, usable, now);
    if s'.worker.position.SavingError? {
      FailKeeps(s, s'.worker.position.cause);
    } else {
      NotYetClaimed(id, ViewOf(s, id));
      RecordStepKeepsOthers(s, s', id);
      ClaimedView(id, ViewOf(s, id), now);
      RecordStepKeeps(s, s', id);
    }
  }

  lemma ResolveKeeps(s: State, resolved: Outcome<Resolved, string>)
    requires Inv(s) && s.worker.Draining? && s.worker.position.ResolvingSource?
    ensures Inv(Next(s, ResolveSource(resolved)))
  {
    hide PrefixOf, PageKeyOf, ManifestKeyOf, TrimSpace, Tidy, MineOf;
    AtWork(s);
    if resolved.Err? {
      FailKeeps(s, resolved.error);
    } else {
      GotoKeeps(s, SavingMeta(resolved.value));
    }
  }

  lemma SaveMetaKeeps(s: State, now: int)
    requires Inv(s) && s.worker.Draining? && s.worker.position.SavingMeta?
    ensures Inv(Next(s, SaveMeta(now)))
  {
    hide PrefixOf, PageKeyOf, ManifestKeyOf, TrimSpace, Tidy, MineOf;
    AtWork(s);
    var id := s.worker.id;
    var s' := DoSaveMeta(s, s.worker.position.resolved, now);
    if Visible(s.docs, id) {
      RecordStepKeepsOthers(s, s', id);
      assert s'.docs[id].pages == s.docs[id].pages && s'.docs[id].progress.done == s.docs[id].progress.done;
      RecordStepKeeps(s, s', id);
    } else {
      FailKeeps(s, s'.worker.position.cause);
    }
  }

  lemma ClearPagesKeeps(s: State, now: int)
    requires Inv(s) && s.worker.Draining? && s.worker.position.ClearingPages?
    ensures Inv(Next(s, ClearPages(now)))
  {
    hide PrefixOf, PageKeyOf, ManifestKeyOf, TrimSpace, MineOf;
    AtWork(s);
    var id := s.worker.id;
    var s' := DoClearPages(s, now);
    if Visible(s.docs, id) {
      RecordStepKeepsOthers(s, s', id);
      RecordStepKeeps(s, s', id);
    } else {
      FailKeeps(s, s'.worker.position.cause);
    }
  }

  lemma OpenKeeps(s: State, now: int)
    requires Inv(s) && s.worker.Draining? && s.worker.position.Opening?
    ensures Inv(Next(s, Open(now)))
  {
    hide PrefixOf, PageKeyOf, ManifestKeyOf, TrimSpace, Tidy, MineOf;
    AtWork(s);
    var id := s.worker.id;
    var s' := DoOpen(s, now);
    if CanTransition(s.docs[id].status, Downloading) {
      RecordStepKeepsOthers(s, s', id);
      RecordStepKeeps(s, s', id);
    } else {
      FailKeeps(s, s'.worker.position.cause);
    }
  }

  lemma {:induction false} FreshTasksCount(plans: seq<PagePlan>)
    ensures CountRecorded(NewTasks(plans)) == 0
  {
    if plans != [] {
      FreshTasksCount(plans[..|plans| - 1]);
      assert NewTasks(plans)[..|plans| - 1] == NewTasks(plans[..|plans| - 1]);
    }
  }

  lemma PlanKeeps(s: State, plans: Outcome<seq<PagePlan>, string>)
    requires Inv(s) && s.worker.Draining? && s.worker.position.Planning?
    ensures Inv(Next(s, PlanPages(plans)))
  {
    hide PrefixOf, PageKeyOf, ManifestKeyOf, TrimSpace, Tidy, MineOf;
    AtWork(s);
    var id := s.worker.id;
    if plans.Err? {
      FailKeeps(s, plans.error);
    } else {
      var s' := DoPlanPages(s, plans);
      FreshTasksCount(plans.value);
      RecordStepKeepsOthers(s, s', id);
      RecordStepKeeps(s, s', id);
    }
  }

  // ----- downloading -----

  lemma {:induction false} CountAfter(tasks: seq<Task>, k: nat, stage: Stage)
    requires k < |tasks|
    ensures CountRecorded(tasks[k := tasks[k].(stage := stage)])
            == CountRecorded(tasks) - One(tasks[k].stage.Recorded?) + One(stage.Recorded?)
  {
    var n := |tasks| - 1;
    var tasks' := tasks[k := tasks[k].(stage := stage)];
    if k == n {
      assert tasks'[..n] == tasks[..n];
    } else {
      assert tasks'[..n] == tasks[..n][k := tasks[k].(stage := stage)];
      CountAfter(tasks[..n], k, stage);
    }
  }

  lemma {:induction false} CountRecordedBound(tasks: seq<Task>)
    ensures CountRecorded(tasks) <= |tasks|
    ensures CountRecorded(tasks) == |tasks| <==> forall k :: 0 <= k < |tasks| ==> tasks[k].stage.Recorded?
  {
    if tasks != [] {
      CountRecordedBound(tasks[..|tasks| - 1]);
    }
  }

  /** A page task may move to any stage that is sound and not recorded. */
  lemma SetStageKeeps(s: State, k: nat, stage: Stage)
    requires Inv(s) && s.worker.Draining? && s.worker.position.Archiving? && k < |s.worker.position.tasks|
    requires !s.worker.position.tasks[k].stage.Recorded? && !stage.Recorded?
    requires TaskOk(s.worker.id, s.worker.position.tasks[k].(stage := stage), MineOf(s, s.worker.id))
    ensures Inv(SetStage(s, k, stage))
  {
    hide PrefixOf, PageKeyOf, ManifestKeyOf, TrimSpace, Tidy, MineOf, PagesOk, HashesOk;
    AtWork(s);
    CountAfter(s.worker.position.tasks, k, stage);
    var s' := SetStage(s, k, stage);
    GotoKeeps(s, s'.worker.position);
  }

  lemma AbandonKeeps(s: State, k: nat)
    requires Inv(s) && s.worker.Draining? && s.worker.position.Archiving?
    ensures Inv(Next(s, AbandonPage(k)))
  {
    hide Inv, MineOf;
    if k < |s.worker.position.tasks| && !Over(s.worker.position.tasks[k].stage) {
      SetStageKeeps(s, k, Abandoned);
    }
  }

  lemma FetchKeeps(s: State, k: nat, result: FetchResult)
    requires Inv(s) && s.worker.Draining? && s.worker.position.Archiving?
    ensures Inv(Next(s, FetchPage(k, result)))
  {
    hide Inv, MineOf;
    var tasks := s.worker.position.tasks;
    if k < |tasks| && tasks[k].stage.Missing? {
      SetStageKeeps(s, k, AfterFetch(result, tasks[k].stage.attempt));
    }
  }

  lemma InMine(s: State, key: string)
    requires Inv(s) && s.worker.Draining? && Bound(s.worker.position)
    requires HasPrefix(key, PrefixOf(s.worker.id)) && key in BucketOf(s)
    ensures key in MineOf(s, s.worker.id)
  {
    hide PrefixOf, DocOk;
  }

  lemma HeadKeeps(s: State, k: nat)
    requires Inv(s) && s.worker.Draining? && s.worker.position.Archiving?
    ensures Inv(Next(s, HeadPage(k)))
  {
    hide Inv, MineOf, PrefixOf, PageKeyOf, ManifestKeyOf;
    AtWork(s);
    var id, tasks := s.worker.id, s.worker.position.tasks;
    if k < |tasks| && tasks[k].stage.Starting? {
      var plan := tasks[k].plan;
      var stage := AfterHead(id, plan, BucketOf(s), tasks[k].stage.attempt);
      if stage.Ready? {
        var key := stage.page.key;
        PageKeyFacts(id, plan.hash, plan.contentType);
        InMine(s, key);
      }
      SetStageKeeps(s, k, stage);
    }
  }

  // ----- writing objects -----

  lemma PutMine(bucket: Bucket, key: string, stored: Object, id: nat, j: nat)
    requires HasPrefix(key, PrefixOf(id))
    ensures Mine(bucket[key := stored], j) == if j == id then Mine(bucket, j)[key := stored] else Mine(bucket, j)
  {
    hide PrefixOf;
    if HasPrefix(key, PrefixOf(j)) {
      PrefixesDisjoint(id, j, key);
    }
  }

  /** Putting an object below the worker's document leaves the other documents' views alone. */
  lemma PutKeepsOthers(s: State, s': State, key: string, stored: Object)
    requires Inv(s) && s.worker.Draining? && Bound(s.worker.position) && HasPrefix(key, PrefixOf(s.worker.id))
    requires s' == PutInto(s, key, stored).(worker := s'.worker)
    requires s'.worker.Draining? && s'.worker.id == s.worker.id && !s'.worker.position.Loading?
    ensures OthersKept(s, s', s.worker.id) && Owned(s')
    ensures MineOf(s', s.worker.id) == MineOf(s, s.worker.id)[key := stored]
  {
    hide PrefixOf, DocOk;
    var id, b := s.worker.id, s.worker.backend;
    forall j: nat | j < |s.docs|
      ensures MineOf(s', j) == if j == id then MineOf(s, j)[key := stored] else MineOf(s, j)
    {
      PutMine(s.buckets[b], key, stored, id, j);
      if j != id && s.docs[j].storageBackend == b {
        assert s'.buckets[b] == s.buckets[b][key := stored];
      }
    }
    forall c, k, n: nat | c in s'.buckets && k in s'.buckets[c] && HasPrefix(k, PrefixOf(n))
      ensures n < |s'.docs| && s'.docs[n].storageBackend == c
    {
      if c == b && k == key {
        PrefixesDisjoint(id, n, key);
      } else {
        assert k in s.buckets[c];
      }
    }
  }

  /** A page object put where its hash says it belongs. */
  lemma PutPageMine(id: nat, mine: Bucket, plan: PagePlan, stored: Object)
    requires HashesOk(id, mine) && stored.etag == plan.hash
    requires PageKeyOf(id, plan.hash, plan.contentType).Ok?
    ensures HashesOk(id, mine[PageKeyOf(id, plan.hash, plan.contentType).value := stored])
  {
    hide PageKeyOf, TrimSpace;
    var at := PageKeyOf(id, plan.hash, plan.contentType).value;
    forall hash, contentType |
      PageKeyOf(id, hash, contentType).Ok? && PageKeyOf(id, hash, contentType).value == at
      ensures TrimSpace(hash) == TrimSpace(plan.hash)
    {
      PageKeysInjective(id, hash, contentType, id, plan.hash, plan.contentType);
    }
  }

  lemma GrownMine(id: nat, v: View, v': View, key: string, stored: Object)
    requires DocOk(id, v) && v.phase.Inside? && v'.phase.Inside?
    requires v' == v.(mine := v.mine[key := stored], phase := v'.phase)
    requires HashesOk(id, v'.mine)
    requires v.torn ==> key == ManifestKeyOf(id) && !Downloads(v'.phase)
    ensures PagesOk(id, v'.doc.pages, v'.mine, v'.torn) && RecordOk(id, v'.doc)
    ensures TornOk(id, v')
  {
    hide PageKeyOf, ManifestKeyOf, TrimSpace, Tidy, ProgressOk, TasksOk, HashesOk;
  }

  lemma PutPageKeeps(s: State, k: nat, now: int)
    requires Inv(s) && s.worker.Draining? && s.worker.position.Archiving?
    ensures Inv(Next(s, PutPage(k, now)))
  {
    hide PrefixOf, PageKeyOf, ManifestKeyOf, TrimSpace, Tidy, MineOf, Inv, DocOk;
    AtWork(s);
    var id, tasks := s.worker.id, s.worker.position.tasks;
    if k < |tasks| && tasks[k].stage.Fetched? {
      var plan, content := tasks[k].plan, tasks[k].stage.content;
      var key := PageKeyOf(id, plan.hash, plan.contentType);
      if key.Err? {
        SetStageKeeps(s, k, Abandoned);
      } else {
        PutPageStep(s, k, plan, content, key.value, now);
      }
    }
  }

  lemma PutPageStep(s: State, k: nat, plan: PagePlan, content: Bytes, key: string, now: int)
    requires Inv(s) && s.worker.Draining? && s.worker.position.Archiving? && k < |s.worker.position.tasks|
    requires s.worker.id >= 0
    requires s.worker.position.tasks[k] == Task(plan, Fetched(content))
    requires PageKeyOf(s.worker.id, plan.hash, plan.contentType) == Ok(key)
    ensures Inv(DoPutPage(s, k, now))
  {
    hide PrefixOf, PageKeyOf, ManifestKeyOf, TrimSpace, Tidy, MineOf, PagesOk, HashesOk, RecordOk;
    AtWork(s);
    var id := s.worker.id;
    var stored := ObjectFor(plan, content, now);
    var stage := Ready(PageFor(plan, key, |content|));
    var s' := DoPutPage(s, k, now);
    PageKeyFacts(id, plan.hash, plan.contentType);
    PutKeepsOthers(s, s', key, stored);
    CountAfter(s.worker.position.tasks, k, stage);
    var v, v' := ViewOf(s, id), ViewOf(s', id);
    PutPageMine(id, v.mine, plan, stored);
    GrownMine(id, v, v', key, stored);
    assert TasksOk(id, v');
    assert DocOk(id, v');
    LocalStep(s, s', id);
  }

  lemma RecordedPageOk(id: nat, pages: seq<Page>, mine: Bucket, page: Page)
    requires PagesOk(id, pages, mine, false) && page.index >= 0
    requires PageKeyOf(id, page.hash, page.contentType) == Ok(page.key) && page.key in mine
    ensures PagesOk(id, Place(pages, page), mine, false)
  {
    hide PageKeyOf;
    var pages' := Place(pages, page);
    forall i | 0 <= i < |pages'| && SlotExists(pages'[i], i)
      ensures PageKeyOf(id, pages'[i].hash, pages'[i].contentType) == Ok(pages'[i].key) && pages'[i].key in mine
    {
      if i != page.index {
        assert i < |pages| && pages[i] == pages'[i];
      }
    }
  }

  lemma RecordPageKeeps(s: State, k: nat, now: int)
    requires Inv(s) && s.worker.Draining? && s.worker.position.Archiving?
    ensures Inv(Next(s, RecordPage(k, now)))
  {
    hide PrefixOf, PageKeyOf, ManifestKeyOf, TrimSpace, MineOf, Inv, DocOk;
    AtWork(s);
    var id, tasks := s.worker.id, s.worker.position.tasks;
    if k < |tasks| && tasks[k].stage.Ready? {
      var page := tasks[k].stage.page;
      if AddPage(s.docs, id, page, now).result.Ok? {
        RecordPageStep(s, k, page, now);
      } else {
        SetStageKeeps(s, k, Abandoned);
      }
    }
  }

  /** One task of the download has recorded its page. */
  lemma RecordedView(id: nat, v: View, v': View, k: nat, page: Page, now: int)
    requires DocOk(id, v) && v.phase.Inside? && v.phase.position.Archiving? && IsVisible(v.doc.status)
    requires k < |v.phase.position.tasks| && v.phase.position.tasks[k].stage == Ready(page)
    requires page.index >= 0 && !Occupied(v.doc.pages, page.index)
    requires v'.doc == WithPage(v.doc, page, now)
    requires v' == v.(doc := v'.doc, ledger := v.ledger.(peak := Max(v.ledger.peak, v'.doc.progress.done)),
                      phase := Inside(Archiving(v.phase.position.tasks[k := v.phase.position.tasks[k].(stage := Recorded)])))
    ensures DocOk(id, v')
  {
    hide PageKeyOf, ManifestKeyOf, TrimSpace, PagesOk, HashesOk, Tidy, Place;
    var tasks := v.phase.position.tasks;
    CountAfter(tasks, k, Recorded);
    CountRecordedBound(tasks);
    CountPlace(v.doc.pages, page);
    TidyPlace(v.doc.pages, page);
    assert TaskOk(id, tasks[k], v.mine);
    RecordedPageOk(id, v.doc.pages, v.mine, page);
  }

  lemma RecordPageStep(s: State, k: nat, page: Page, now: int)
    requires Inv(s) && s.worker.Draining? && s.worker.position.Archiving? && k < |s.worker.position.tasks|
    requires s.worker.position.tasks[k].stage == Ready(page)
    requires AddPage(s.docs, s.worker.id, page, now).result.Ok?
    ensures Inv(DoRecordPage(s, k, now))
  {
    hide PrefixOf, PageKeyOf, ManifestKeyOf, TrimSpace, MineOf, DocOk, Place, Occupied;
    AtWork(s);
    var id := s.worker.id;
    var s' := DoRecordPage(s, k, now);
    RecordStepKeepsOthers(s, s', id);
    RecordedView(id, ViewOf(s, id), ViewOf(s', id), k, page, now);
    RecordStepKeeps(s, s', id);
  }

  lemma CollectKeeps(s: State)
    requires Inv(s) && s.worker.Draining? && s.worker.position.Archiving?
    ensures Inv(Next(s, Collect))
  {
    hide PrefixOf, PageKeyOf, ManifestKeyOf, TrimSpace, Tidy, MineOf, PagesOk, HashesOk;
    AtWork(s);
    var tasks := s.worker.position.tasks;
    var s' := DoCollect(s);
    if s'.worker.position.SavingError? {
      FailKeeps(s, s'.worker.position.cause);
    } else if s'.worker.position.Reloading? {
      CountRecordedBound(tasks);
      GotoKeeps(s, Reloading);
    }
  }

  // ----- leaving -----

  lemma ReloadKeeps(s: State)
    requires Inv(s) && s.worker.Draining? && s.worker.position.Reloading?
    ensures Inv(Next(s, Reload))
  {
    hide PrefixOf, PageKeyOf, ManifestKeyOf, TrimSpace, Tidy, MineOf, PagesOk, HashesOk;
    AtWork(s);
    if Get(s.docs, s.worker.id).Err? {
      FailKeeps(s, Message(DocumentGone));
    } else {
      GotoKeeps(s, WritingManifest);
    }
  }

  lemma ManifestHashes(id: nat, mine: Bucket, stored: Object)
    requires HashesOk(id, mine)
    ensures HashesOk(id, mine[ManifestKeyOf(id) := stored])
  {
    hide PageKeyOf, ManifestKeyOf, TrimSpace;
    forall hash, contentType | PageKeyOf(id, hash, contentType).Ok?
      ensures PageKeyOf(id, hash, contentType).value != ManifestKeyOf(id)
    {
      ManifestIsNoPage(id, hash, contentType, id);
    }
  }

  lemma PutManifestKeeps(s: State, manifest: Outcome<Object, string>)
    requires Inv(s) && s.worker.Draining? && s.worker.position.WritingManifest?
    ensures Inv(Next(s, PutManifest(manifest)))
  {
    hide PrefixOf, PageKeyOf, ManifestKeyOf, TrimSpace, Tidy, MineOf, PagesOk, HashesOk, RecordOk;
    AtWork(s);
    var id := s.worker.id;
    if manifest.Err? {
      FailKeeps(s, manifest.error);
    } else {
      var s' := DoPutManifest(s, manifest);
      var key := ManifestKeyOf(id);
      KeysUnderOwnPrefix(id, "", "");
      PutKeepsOthers(s, s', key, manifest.value);
      var v, v' := ViewOf(s, id), ViewOf(s', id);
      ManifestHashes(id, v.mine, manifest.value);
      GrownMine(id, v, v', key, manifest.value);
      assert DocOk(id, v');
      LocalStep(s, s', id);
    }
  }

  lemma FinishKeeps(s: State, now: int)
    requires Inv(s) && s.worker.Draining? && s.worker.position.Finishing?
    ensures Inv(Next(s, Finish(now)))
  {
    hide PrefixOf, PageKeyOf, ManifestKeyOf, TrimSpace, Tidy, MineOf, PagesOk, HashesOk;
    AtWork(s);
    var id := s.worker.id;
    var s' := DoFinish(s, now);
    if CanTransition(s.docs[id].status, Archived) {
      RecordStepKeepsOthers(s, s', id);
      RecordStepKeeps(s, s', id);
    } else {
      FailKeeps(s, s'.worker.position.cause);
    }
  }

  lemma ReturnKeeps(s: State)
    requires Inv(s) && s.worker.Draining? && s.worker.position.Returning?
    ensures Inv(Next(s, Return))
  {
    hide PrefixOf, PageKeyOf, ManifestKeyOf, TrimSpace, Tidy, MineOf, PagesOk, HashesOk;
    AtWork(s);
    LeaveKeeps(s);
  }

  /** A document whose failure is being noted keeps everything but the error text, and then the status. */
  lemma ErrorSaved(s: State, now: int)
    requires Inv(s) && s.worker.Draining? && s.worker.position.SavingError? && Visible(s.docs, s.worker.id)
    ensures var s' := Next(s, SaveError(now)); DocOk(s.worker.id, ViewOf(s', s.worker.id))
  {
    hide PrefixOf, PageKeyOf, ManifestKeyOf, TrimSpace, Tidy, MineOf, PagesOk, HashesOk, Message;
    AtWork(s);
    var s' := DoSaveError(s, s.worker.position.cause, now);
    RecordStepKeepsOthers(s, s', s.worker.id);
    assert s'.docs[s.worker.id].pages == s.docs[s.worker.id].pages;
    assert s'.docs[s.worker.id].progress == s.docs[s.worker.id].progress;
  }

  lemma SaveErrorKeeps(s: State, now: int)
    requires Inv(s) && s.worker.Draining? && s.worker.position.SavingError?
    ensures Inv(Next(s, SaveError(now)))
  {
    hide DocOk, ViewOf, PrefixOf, ManifestKeyOf, Message;
    AtWork(s);
    if Visible(s.docs, s.worker.id) {
      ErrorSaved(s, now);
      RecordStepKeeps(s, DoSaveError(s, s.worker.position.cause, now), s.worker.id);
    } else {
      LeaveKeeps(s);
    }
  }

  lemma MarkedFailed(s: State, now: int)
    requires Inv(s) && s.worker.Draining? && s.worker.position.MarkingFailed?
    ensures var s' := Next(s, MarkFailed(now)); DocOk(s.worker.id, ViewOf(s', s.worker.id))
  {
    hide PrefixOf, PageKeyOf, ManifestKeyOf, TrimSpace, Tidy, MineOf, PagesOk, HashesOk, Message;
    AtWork(s);
    var s' := DoMarkFailed(s, now);
    RecordStepKeepsOthers(s, s', s.worker.id);
    assert s'.docs[s.worker.id].pages == s.docs[s.worker.id].pages;
    assert s'.docs[s.worker.id].progress == s.docs[s.worker.id].progress;
  }

  /** Whatever status the failing document has, it is not left in an active one. */
  lemma MarkFailedKeeps(s: State, now: int)
    requires Inv(s) && s.worker.Draining? && s.worker.position.MarkingFailed?
    ensures Inv(Next(s, MarkFailed(now)))
  {
    hide DocOk, ViewOf, PrefixOf, ManifestKeyOf, Message;
    AtWork(s);
    MarkedFailed(s, now);
    var s' := DoMarkFailed(s, now);
    assert forall i :: i in s.worker.rest ==> InRange(s'.docs, i);
    assert s.worker.rest != [] ==> s.worker.rest[0] in s.worker.rest;
    RecordStepKeeps(s, s', s.worker.id);
  }

  // ----- sweeping -----

  lemma NextSweptOk(s: State, batch: nat, purged: nat, left: seq<Document>)
    requires WorkerOk(s) && forall d :: d in left ==> SnapshotOk(s, d)
    ensures WorkerOk(NextSwept(s, batch, purged, left))
  {
    var s' := NextSwept(s, batch, purged, left);
    if left != [] {
      assert left[0] in left;
      forall d | d in left[1..] ensures SnapshotOk(s', d) {
        assert d in left;
      }
    }
  }

  lemma NextSweptKeeps(s: State, batch: nat, purged: nat, left: seq<Document>)
    requires Inv(s) && !s.worker.Draining? && forall d :: d in left ==> SnapshotOk(s, d)
    ensures Inv(NextSwept(s, batch, purged, left))
  {
    hide PrefixOf, PageKeyOf, ManifestKeyOf, TrimSpace, Tidy, PagesOk, HashesOk;
    var s' := NextSwept(s, batch, purged, left);
    NextSweptOk(s, batch, purged, left);
    forall j: nat | j < |s.docs| ensures DocOk(j, ViewOf(s', j)) {
      assert DocOk(j, ViewOf(s, j));
      assert MineOf(s', j) == MineOf(s, j);
    }
    FrameStep(s, s');
  }

  lemma BeginSweepKeeps(s: State)
    requires Inv(s) && s.worker.Idle?
    ensures Inv(Next(s, BeginSweep))
  {
    hide PrefixOf, DocOk;
    RecordStepKeeps(s, Next(s, BeginSweep), -1);
  }

  lemma SweepQueryKeeps(s: State)
    requires Inv(s) && s.worker.Sweeping? && s.worker.at.Querying?
    ensures Inv(Next(s, SweepQuery))
  {
    hide PrefixOf, DocOk, Queries.Run;
    var deleted := Queries.Run(Queries.StatusQuery(Deleted, PURGE_BATCH), s.docs);
    forall d | d in deleted ensures SnapshotOk(s, d) {
      FoundInStore(s, Deleted, PURGE_BATCH, d);
    }
    if deleted == [] {
      RecordStepKeeps(s, Next(s, SweepQuery), -1);
    } else {
      NextSweptKeeps(s, |deleted|, 0, deleted);
    }
  }

  lemma ClearMine(bucket: Bucket, id: nat, j: nat)
    ensures Mine(WithoutPrefix(bucket, PrefixOf(id)), j) == if j == id then map[] else Mine(bucket, j)
  {
    hide PrefixOf;
    if j != id {
      forall k | HasPrefix(k, PrefixOf(id)) && HasPrefix(k, PrefixOf(j)) ensures false {
        PrefixesDisjoint(id, j, k);
      }
    }
  }

  lemma ClearedView(id: nat, v: View)
    requires DocOk(id, v) && !v.phase.Inside? && Dormant(v.doc.status)
    ensures DocOk(id, v.(mine := map[], torn := true, phase := Cleaned))
  {
    hide PageKeyOf, ManifestKeyOf, TrimSpace, Tidy;
  }

  lemma SweepDeleteKeeps(s: State, ok: bool)
    requires Inv(s) && s.worker.Sweeping? && s.worker.at.Deleting?
    ensures Inv(Next(s, SweepDelete(ok)))
  {
    hide PrefixOf, DocOk;
    var d := s.worker.at.document;
    var id := d.id;
    if d.storageBackend !in s.buckets || !ok {
      NextSweptKeeps(s, s.worker.batch, s.worker.purged, s.worker.left);
    } else {
      var s' := DoSweepDelete(s, d, ok);
      forall j: nat | j < |s.docs| ensures MineOf(s', j) == if j == id then map[] else MineOf(s, j) {
        ClearMine(s.buckets[d.storageBackend], id, j);
      }
      ClearedView(id, ViewOf(s, id));
      assert ViewOf(s', id) == ViewOf(s, id).(mine := map[], torn := true, phase := Cleaned);
      assert Owned(s');
      LocalStep(s, s', id);
    }
  }

  lemma PurgedView(id: nat, v: View, now: int)
    requires DocOk(id, v) && v.phase.Cleaned?
    ensures DocOk(id, v.(doc := Emptied(v.doc, now), torn := false))
  {
    hide PageKeyOf, ManifestKeyOf, TrimSpace;
  }

  lemma SweepPurgeKeeps(s: State, now: int)
    requires Inv(s) && s.worker.Sweeping? && s.worker.at.Purging?
    ensures Inv(Next(s, SweepPurge(now)))
  {
    hide PrefixOf, DocOk;
    var d := s.worker.at.document;
    var id := d.id;
    var r := Purge(s.docs, id, now);
    if r.result.Err? {
      NextSweptKeeps(s, s.worker.batch, s.worker.purged, s.worker.left);
    } else {
      var mid := s.(docs := r.docs, torn := s.torn - {id});
      PurgedView(id, ViewOf(s, id), now);
      RecordStepKeepsOthers(s, mid, id);
      SameWorker(s, mid);
      assert ViewOf(mid, id) == ViewOf(s, id).(doc := Emptied(s.docs[id], now), torn := false);
      RecordStepKeeps(s, mid, id);
      NextSweptKeeps(mid, s.worker.batch, s.worker.purged + 1, s.worker.left);
    }
  }

  // ----- all steps -----

  lemma DrainKeeps(s: State, a: Action)
    requires Inv(s) && s.worker.Draining?
    ensures Inv(DrainStep(s, a))
  {
    hide Inv;
    match s.worker.position {
      case Loading => if a.Load? { LoadKeeps(s); }
      case Claiming(_) => if a.Claim? { ClaimKeeps(s, a.usable, a.now); }
      case ResolvingSource => if a.ResolveSource? { ResolveKeeps(s, a.resolved); }
      case SavingMeta(_) => if a.SaveMeta? { SaveMetaKeeps(s, a.now); }
      case ClearingPages => if a.ClearPages? { ClearPagesKeeps(s, a.now); }
      case Opening => if a.Open? { OpenKeeps(s, a.now); }
      case Planning => if a.PlanPages? { PlanKeeps(s, a.plans); }
      case Archiving(_) => PageKeeps(s, a);
      case Reloading => if a.Reload? { ReloadKeeps(s); }
      case WritingManifest => if a.PutManifest? { PutManifestKeeps(s, a.manifest); }
      case Finishing => if a.Finish? { FinishKeeps(s, a.now); }
      case Returning => if a.Return? { ReturnKeeps(s); }
      case SavingError(_) => if a.SaveError? { SaveErrorKeeps(s, a.now); }
      case MarkingFailed(_) => if a.MarkFailed? { MarkFailedKeeps(s, a.now); }
    }
  }

  lemma PageKeeps(s: State, a: Action)
    requires Inv(s) && s.worker.Draining? && s.worker.position.Archiving?
    ensures Inv(PageStep(s, a))
  {
    hide Inv, SetStage, AfterHead, AfterFetch, DoPutPage, DoRecordPage, DoCollect, Over, BucketOf;
    match a {
      case HeadPage(k) => HeadKeeps(s, k);
      case FetchPage(k, result) => FetchKeeps(s, k, result);
      case PutPage(k, now) => PutPageKeeps(s, k, now);
      case RecordPage(k, now) => RecordPageKeeps(s, k, now);
      case AbandonPage(k) => AbandonKeeps(s, k);
      case Collect => CollectKeeps(s);
      case _ =>
    }
  }

  lemma SweepKeeps(s: State, a: Action)
    requires Inv(s) && s.worker.Sweeping?
    ensures Inv(SweepStep(s, a))
  {
    hide Inv;
    match s.worker.at {
      case Querying => if a.SweepQuery? { SweepQueryKeeps(s); }
      case Deleting(_) => if a.SweepDelete? { SweepDeleteKeeps(s, a.ok); }
      case Purging(_) => if a.SweepPurge? { SweepPurgeKeeps(s, a.now); }
    }
  }

  /** Every step of the machine keeps the invariant. */
  lemma StepKeeps(s: State, a: Action)
    requires Inv(s)
    ensures Inv(Next(s, a))
  {
    hide Inv, DrainStep, SweepStep;
    match a {
      case ApiRequest(source, sourceDocumentID, backend, now) =>
        ApiRequestKeeps(s, source, sourceDocumentID, backend, now);
      case ApiDelete(id, now) => ApiDeleteKeeps(s, id, now);
      case ApiRefresh(id, all, now) => ApiRefreshKeeps(s, id, all, now);
      case ApiClear(id, now) => ApiClearKeeps(s, id, now);
      case ApiRestore(id, now) => ApiRestoreKeeps(s, id, now);
      case _ =>
        match s.worker {
          case Idle =>
            if a.BeginQueue? {
              BeginQueueKeeps(s);
            } else if a.BeginSweep? {
              BeginSweepKeeps(s);
            }
          case Draining(_, _, _, _) => DrainKeeps(s, a);
          case Sweeping(_, _, _, _) => SweepKeeps(s, a);
        }
    }
  }

  lemma InitialOk(factories: set<string>, backends: set<string>)
    ensures Inv(Initial(factories, backends))
  {
  }

  lemma {:induction false} RunKeeps(s: State, actions: seq<Action>)
    requires Inv(s)
    ensures Inv(Run(s, actions))
    decreases actions
  {
    hide Inv, Next;
    if actions != [] {
      StepKeeps(s, actions[0]);
      RunKeeps(Next(s, actions[0]), actions[1..]);
    }
  }
}
