/** Where a failing document ends: failed, or deleted in the meantime. */
module LifecycleFailures {
  import opened Keys
  import opened Model
  import opened StoreSpec
  import opened Lifecycle
  import opened LifecycleInvariant
  import opened LifecycleSteps
  import opened LifecycleTheorems
  import opened Batches
  import Queries

  predicate Waiting(status: Status) {
    status.Queued? || status.Deleted?
  }

  /** A document the worker may still fail: no archived, failed or purged one. */
  predicate InWork(status: Status) {
    status.Queued? || status.Resolving? || status.Downloading? || status.Deleted?
  }

  predicate Distinct(ids: seq<int>) {
    forall i, j :: 0 <= i < j < |ids| ==> ids[i] != ids[j]
  }

  /** The documents the worker will still come to were queued when the batch was taken, and only API calls touch them. */
  ghost predicate BatchWaits(docs: Docs, id: int, rest: seq<int>) {
    && Distinct(rest) && id !in rest
    && forall i :: i in rest ==> InRange(docs, i) && Waiting(docs[i].status)
  }

  /** What the worker's position tells of its document; marking it failed comes after the cause was saved. */
  predicate CurrentFits(d: Document, position: Position) {
    match position
    case Loading => Waiting(d.status)
    case Claiming(_) => Waiting(d.status)
    case Returning => true
    case MarkingFailed(cause) => InWork(d.status) && d.error == cause
    case _ => InWork(d.status)
  }

  ghost predicate Ordered(s: State) {
    s.worker.Draining? ==>
      && BatchWaits(s.docs, s.worker.id, s.worker.rest)
      && InRange(s.docs, s.worker.id) && CurrentFits(s.docs[s.worker.id], s.worker.position)
  }

  // ----- taking a batch -----

  lemma {:induction false} IdsAt(found: seq<Document>)
    ensures |Ids(found)| == |found|
    ensures forall k :: 0 <= k < |found| ==> Ids(found)[k] == found[k].id
  {
    if found != [] {
      IdsAt(found[1..]);
      assert forall k :: 1 <= k < |found| ==> Ids(found)[k] == Ids(found[1..])[k - 1] && found[k] == found[1..][k - 1];
    }
  }

  lemma IdsInOrderHold(s: State)
    requires Inv(s)
    ensures IdsInOrder(s.docs)
  {
    hide Inv;
    forall i | 0 <= i < |s.docs| ensures s.docs[i].id == i {
      OwnId(s, i);
    }
  }

  lemma BeginQueueOrders(s: State)
    requires Inv(s) && s.worker.Idle?
    ensures Ordered(Next(s, BeginQueue))
  {
    hide Inv, Queries.Run, Ids;
    IdsInOrderHold(s);
    BatchIsFirstFew(s.docs, Queued, QUEUE_BATCH);
    var found := Queries.Run(Queries.StatusQuery(Queued, QUEUE_BATCH), s.docs);
    IdsAt(found);
    var ids := Ids(found);
    if ids != [] {
      forall i, j | 0 <= i < j < |ids| ensures ids[i] != ids[j] {
        assert CountBefore(s.docs, Queued, found[i].id) == i && CountBefore(s.docs, Queued, found[j].id) == j;
      }
      assert BatchWaits(s.docs, ids[0], ids[1..]);
    }
  }

  // ----- moving on -----

  lemma LeaveOrders(s: State, docs: Docs)
    requires s.worker.Draining? && BatchWaits(docs, s.worker.id, s.worker.rest)
    ensures Ordered(Leave(s).(docs := docs))
  {
    var rest := s.worker.rest;
    if rest != [] {
      assert rest[0] in rest;
      assert forall i :: i in rest[1..] ==> i in rest;
    }
  }

  /** A step at one document that keeps the batch and suits the next position. */
  lemma StayOrders(s: State, s': State)
    requires Ordered(s) && s.worker.Draining? && s'.worker.Draining?
    requires s'.worker.id == s.worker.id && s'.worker.rest == s.worker.rest && |s'.docs| == |s.docs|
    requires forall j :: 0 <= j < |s.docs| && j != s.worker.id ==> s'.docs[j].status == s.docs[j].status
    requires CurrentFits(s'.docs[s.worker.id], s'.worker.position)
    ensures Ordered(s')
  {
  }

  lemma ApiOrders(s: State, a: Action)
    requires Inv(s) && Ordered(s)
    requires a.ApiRequest? || a.ApiDelete? || a.ApiRefresh? || a.ApiClear? || a.ApiRestore?
    ensures Ordered(Next(s, a))
  {
    hide Ordered;
    var s' := Next(s, a);
    ApiStatuses(s, a);
    if s.worker.Draining? {
      OrderedHere(s);
      assert CurrentFits(s'.docs[s.worker.id], s.worker.position);
      assert BatchWaits(s'.docs, s.worker.id, s.worker.rest);
      ApiOrdered(s');
    } else {
      ApiOrdered(s');
    }
  }

  lemma ApiOrdered(s: State)
    requires s.worker.Draining? ==>
               && BatchWaits(s.docs, s.worker.id, s.worker.rest)
               && InRange(s.docs, s.worker.id) && CurrentFits(s.docs[s.worker.id], s.worker.position)
    ensures Ordered(s)
  {
  }

  lemma ApiStatuses(s: State, a: Action)
    requires a.ApiRequest? || a.ApiDelete? || a.ApiRefresh? || a.ApiClear? || a.ApiRestore?
    ensures Next(s, a).worker == s.worker && |s.docs| <= |Next(s, a).docs|
    ensures forall j :: 0 <= j < |s.docs| && Waiting(s.docs[j].status) ==> Waiting(Next(s, a).docs[j].status)
    ensures forall j :: 0 <= j < |s.docs| && InWork(s.docs[j].status) ==> InWork(Next(s, a).docs[j].status)
    ensures forall j :: 0 <= j < |s.docs| ==> Next(s, a).docs[j].error == s.docs[j].error
  {
    hide DrainStep, SweepStep, FindIdentity, FirstMismatch;
  }

  lemma PageOrders(s: State, a: Action)
    requires Ordered(s) && s.worker.Draining? && s.worker.position.Archiving?
    ensures Ordered(PageStep(s, a))
  {
    hide PageKeyOf, AfterHead, AfterFetch, Over, Place, Bump, Ordered;
    assert InRange(s.docs, s.worker.id) && InWork(s.docs[s.worker.id].status) by { OrderedHere(s); }
    StayOrders(s, PageStep(s, a));
  }

  lemma OrderedHere(s: State)
    requires Ordered(s) && s.worker.Draining?
    ensures InRange(s.docs, s.worker.id) && CurrentFits(s.docs[s.worker.id], s.worker.position)
    ensures BatchWaits(s.docs, s.worker.id, s.worker.rest)
  {
  }

  lemma LoadOrders(s: State)
    requires Ordered(s) && s.worker.Draining? && s.worker.position.Loading?
    ensures Ordered(DoLoad(s))
  {
    hide Ordered, BatchWaits;
    OrderedHere(s);
    if Get(s.docs, s.worker.id).Err? {
      LeaveOrders(s, s.docs);
    } else {
      StayOrders(s, DoLoad(s));
    }
  }

  lemma ClaimOrders(s: State, a: Action)
    requires Ordered(s) && s.worker.Draining?
    requires s.worker.position.Claiming? || s.worker.position.ResolvingSource?
    ensures Ordered(DrainStep(s, a))
  {
    hide Ordered, BatchWaits, PageStep, DoLoad, DoSaveMeta, DoClearPages, DoOpen, DoPlanPages, DoReload, DoPutManifest,
      DoFinish, DoSaveError, DoMarkFailed;
    OrderedHere(s);
    StayOrders(s, DrainStep(s, a));
  }

  lemma SaveOrders(s: State, a: Action)
    requires Ordered(s) && s.worker.Draining?
    requires s.worker.position.SavingMeta? || s.worker.position.ClearingPages?
    ensures Ordered(DrainStep(s, a))
  {
    hide Ordered, BatchWaits, PageStep, DoLoad, DoClaim, DoOpen, DoPlanPages, DoReload, DoPutManifest, DoFinish,
      DoSaveError, DoMarkFailed;
    OrderedHere(s);
    StayOrders(s, DrainStep(s, a));
  }

  lemma OpenOrders(s: State, a: Action)
    requires Ordered(s) && s.worker.Draining?
    requires s.worker.position.Opening? || s.worker.position.Planning?
    ensures Ordered(DrainStep(s, a))
  {
    hide Ordered, BatchWaits, PageStep, DoLoad, DoClaim, DoSaveMeta, DoClearPages, DoReload, DoPutManifest, DoFinish,
      DoSaveError, DoMarkFailed;
    OrderedHere(s);
    StayOrders(s, DrainStep(s, a));
  }

  lemma FinishOrders(s: State, a: Action)
    requires Ordered(s) && s.worker.Draining? && PastContent(s.worker.position)
    ensures Ordered(DrainStep(s, a))
  {
    hide Ordered, BatchWaits, PageStep, DoLoad, DoClaim, DoSaveMeta, DoClearPages, DoOpen, DoPlanPages, DoSaveError,
      DoMarkFailed, ManifestKeyOf;
    OrderedHere(s);
    StayOrders(s, DrainStep(s, a));
  }

  lemma EndOrders(s: State, a: Action)
    requires Ordered(s) && s.worker.Draining?
    requires s.worker.position.Returning? || s.worker.position.SavingError? || s.worker.position.MarkingFailed?
    ensures Ordered(DrainStep(s, a))
  {
    hide Ordered, PageStep, DoLoad, DoClaim, DoSaveMeta, DoClearPages, DoOpen, DoPlanPages, DoReload, DoPutManifest,
      DoFinish;
    OrderedHere(s);
    var s' := DrainStep(s, a);
    if s'.worker.Draining? && s'.worker.id == s.worker.id && s'.worker.position != Loading {
      StayOrders(s, s');
    } else {
      LeaveOrders(s, s'.docs);
    }
  }

  lemma DrainOrders(s: State, a: Action)
    requires Ordered(s) && s.worker.Draining?
    ensures Ordered(DrainStep(s, a))
  {
    hide Ordered, PageStep, DoLoad, DoClaim, DoSaveMeta, DoClearPages, DoOpen, DoPlanPages, DoReload, DoPutManifest,
      DoFinish, DoSaveError, DoMarkFailed;
    match s.worker.position {
      case Loading => if a.Load? { LoadOrders(s); }
      case Claiming(_) => ClaimOrders(s, a);
      case ResolvingSource => ClaimOrders(s, a);
      case SavingMeta(_) => SaveOrders(s, a);
      case ClearingPages => SaveOrders(s, a);
      case Opening => OpenOrders(s, a);
      case Planning => OpenOrders(s, a);
      case Archiving(_) => PageOrders(s, a);
      case Reloading => FinishOrders(s, a);
      case WritingManifest => FinishOrders(s, a);
      case Finishing => FinishOrders(s, a);
      case Returning => EndOrders(s, a);
      case SavingError(_) => EndOrders(s, a);
      case MarkingFailed(_) => EndOrders(s, a);
    }
  }

  lemma SweepStaysSweep(s: State, a: Action)
    requires s.worker.Sweeping?
    ensures !SweepStep(s, a).worker.Draining?
  {
    hide Queries.Run, PrefixOf;
  }

  lemma StepOrders(s: State, a: Action)
    requires Inv(s) && Ordered(s)
    ensures Ordered(Next(s, a))
  {
    hide Inv, DrainStep, SweepStep, DoBeginQueue;
    if a.ApiRequest? || a.ApiDelete? || a.ApiRefresh? || a.ApiClear? || a.ApiRestore? {
      ApiOrders(s, a);
    } else {
      match s.worker {
        case Idle => if a.BeginQueue? { BeginQueueOrders(s); }
        case Draining(_, _, _, _) => DrainOrders(s, a);
        case Sweeping(_, _, _, _) => SweepStaysSweep(s, a);
      }
    }
  }

  lemma {:induction false} RunOrders(s: State, actions: seq<Action>)
    requires Inv(s) && Ordered(s)
    ensures Ordered(Run(s, actions))
    decreases actions
  {
    hide Inv, Ordered, Next;
    if actions != [] {
      StepKeeps(s, actions[0]);
      StepOrders(s, actions[0]);
      RunOrders(Next(s, actions[0]), actions[1..]);
    }
  }

  lemma ReachableOrdered(s: State)
    requires Reachable(s)
    ensures Ordered(s)
  {
    hide Inv, Run;
    var factories, backends, actions :| s == Run(Initial(factories, backends), actions);
    InitialOk(factories, backends);
    RunOrders(Initial(factories, backends), actions);
  }

  // ----- failure exits -----

  /**
   * Every failure exit moves its document to failed, or finds it already deleted. The exits are the refused
   * load, the refused saving of the error, and the marking that follows a saved error.
   */
  lemma FailuresEndFailedOrDeleted(s: State, now: int)
    requires Reachable(s) && s.worker.Draining?
    ensures InRange(s.docs, s.worker.id)
    ensures var id := s.worker.id;
            && (s.worker.position.Loading? && Get(s.docs, id).Err? ==>
                  s.docs[id].status.Deleted? && Next(s, Load) == Leave(s))
            && (s.worker.position.SavingError? ==>
                  var s' := Next(s, SaveError(now));
                  if s.docs[id].status.Deleted? then s' == Leave(s)
                  else s' == Goto(s, MarkingFailed(s.worker.position.cause)).(docs := s'.docs)
                       && s'.docs[id].status == s.docs[id].status)
            && (s.worker.position.MarkingFailed? ==>
                  var s' := Next(s, MarkFailed(now));
                  && s' == Leave(s).(docs := s'.docs)
                  && if s.docs[id].status.Deleted? then s'.docs == s.docs
                     else s'.docs[id] == SetStatus(s.docs[id], Failed, now)
                          && s'.docs[id].error == s.worker.position.cause)
  {
    hide Reachable, Ordered;
    ReachableOrdered(s);
    OrderedHere(s);
  }
}
