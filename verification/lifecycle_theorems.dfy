/** What the archive promises of every run, and the exact conditions of the promises that races can break. */
module LifecycleTheorems {
  import opened Arithmetic
  import opened Wrappers
  import opened Strings
  import opened Keys
  import opened Model
  import opened StoreSpec
  import opened PageSlices
  import opened Lifecycle
  import opened LifecycleInvariant
  import opened LifecycleSteps
  import Queries

  /** The states some interleaving of worker steps and API calls leads to from an empty archive. */
  ghost predicate Reachable(s: State) {
    exists factories, backends, actions :: s == Run(Initial(factories, backends), actions)
  }

  lemma ReachableInv(s: State)
    requires Reachable(s)
    ensures Inv(s)
  {
    hide Inv, Run, Initial;
    var factories, backends, actions :| s == Run(Initial(factories, backends), actions);
    InitialOk(factories, backends);
    RunKeeps(Initial(factories, backends), actions);
  }

  // ----- purged documents -----

  /** A purged document has no pages, no progress, and no object below its prefix in any backend. */
  lemma PurgedDocumentsAreClean(s: State, id: nat)
    requires Reachable(s) && id < |s.docs| && s.docs[id].status.Purged?
    ensures s.docs[id].pages == [] && s.docs[id].progress == Progress(0, 0)
    ensures forall b, k :: b in s.buckets && k in s.buckets[b] ==> !HasPrefix(k, PrefixOf(id))
  {
    hide PrefixOf, PageKeyOf, ManifestKeyOf, TrimSpace, Tidy, Reachable;
    ReachableInv(s);
    assert DocOk(id, ViewOf(s, id));
    assert MineOf(s, id) == map[];
    assert forall b, k :: b in s.buckets && k in s.buckets[b] && HasPrefix(k, PrefixOf(id)) ==>
             b == s.docs[id].storageBackend && k in MineOf(s, id);
  }

  // ----- no document is left behind -----

  /** A document is resolving or downloading only while the worker is inside its processing. */
  lemma NoDocumentIsStranded(s: State, id: nat)
    requires Reachable(s) && id < |s.docs|
    requires s.docs[id].status.Resolving? || s.docs[id].status.Downloading?
    ensures s.worker.Draining? && s.worker.id == id
    ensures !s.worker.position.Loading? && !s.worker.position.Claiming? && !s.worker.position.Returning?
  {
    hide PrefixOf, PageKeyOf, ManifestKeyOf, TrimSpace, Tidy, Reachable, MineOf;
    ReachableInv(s);
    assert DocOk(id, ViewOf(s, id));
  }

  // ----- manifests -----

  /** Every archived document has its manifest in its backend, whatever sweeps and restores it has been through. */
  lemma ArchivedHasManifest(s: State, id: nat)
    requires Reachable(s) && id < |s.docs| && s.docs[id].status.Archived?
    ensures var backend := s.docs[id].storageBackend;
            backend in s.buckets && ManifestKeyOf(id) in s.buckets[backend]
  {
    hide PrefixOf, PageKeyOf, ManifestKeyOf, TrimSpace, Tidy, Reachable;
    ReachableInv(s);
    assert DocOk(id, ViewOf(s, id));
  }

  // ----- recorded pages and their objects -----

  /** The object a page points to is stored under its own hash. */
  predicate Backed(s: State, id: nat, page: Page)
    requires id < |s.docs|
  {
    var backend := s.docs[id].storageBackend;
    && backend in s.buckets && page.key in s.buckets[backend]
    && TrimSpace(s.buckets[backend][page.key].etag) == TrimSpace(page.hash)
  }

  lemma PageOfDocument(s: State, id: nat, i: nat)
    requires Inv(s) && id < |s.docs| && Occupied(s.docs[id].pages, i)
    ensures var page := s.docs[id].pages[i];
            && PageKeyOf(id, page.hash, page.contentType) == Ok(page.key)
            && (page.key in MineOf(s, id) <==> id !in s.torn)
            && (page.key in MineOf(s, id) ==> TrimSpace(MineOf(s, id)[page.key].etag) == TrimSpace(page.hash))
  {
    hide PrefixOf, PageKeyOf, ManifestKeyOf, TrimSpace, Tidy, MineOf;
    assert DocOk(id, ViewOf(s, id));
    var page := s.docs[id].pages[i];
    assert SlotExists(page, i);
    PageKeyFacts(id, page.hash, page.contentType);
  }

  /**
   * A recorded page has its object, under its own hash, exactly when no sweep has removed the objects of
   * the document since its pages were last cleared or purged.
   */
  lemma PagesAreBackedUnlessTorn(s: State, id: nat, i: nat)
    requires Reachable(s) && id < |s.docs| && Occupied(s.docs[id].pages, i)
    ensures Backed(s, id, s.docs[id].pages[i]) <==> id !in s.torn
  {
    hide PrefixOf, PageKeyOf, ManifestKeyOf, TrimSpace, Reachable, DocOk;
    ReachableInv(s);
    PageOfDocument(s, id, i);
    var page := s.docs[id].pages[i];
    PageKeyFacts(id, page.hash, page.contentType);
  }

  /** The documents a sweep has queried and not yet dealt with. */
  predicate InSweep(s: State, id: int) {
    && s.worker.Sweeping?
    && ((exists d :: d in s.worker.left && d.id == id) || (!s.worker.at.Querying? && s.worker.at.document.id == id))
  }

  /** No restore hits a document between the sweep's query and that document's purge. */
  predicate Calm(s: State, a: Action) {
    a.ApiRestore? ==> !InSweep(s, a.id)
  }

  ghost predicate CalmRun(s: State, actions: seq<Action>)
    decreases actions
  {
    actions == [] || (Calm(s, actions[0]) && CalmRun(Next(s, actions[0]), actions[1..]))
  }

  /** The document whose objects the sweep has removed and which it is about to purge. */
  predicate BeingPurged(s: State, id: int) {
    s.worker.Sweeping? && s.worker.at.Purging? && s.worker.at.document.id == id
  }

  /** In a calm run only the document about to be purged is torn, and it is hidden. */
  ghost predicate Untorn(s: State) {
    && (forall id :: InSweep(s, id) && InRange(s.docs, id) ==> !IsVisible(s.docs[id].status))
    && (forall id :: id in s.torn ==> BeingPurged(s, id))
  }

  /** The documents of a sweep stay hidden as long as nobody restores them, and no more are torn. */
  lemma UntornStays(s: State, s': State)
    requires Untorn(s) && s'.worker == s.worker && s'.torn <= s.torn
    requires forall id :: InSweep(s, id) && InRange(s'.docs, id) ==> InRange(s.docs, id)
    requires forall id :: InSweep(s, id) && InRange(s.docs, id) && !IsVisible(s.docs[id].status) ==>
               InRange(s'.docs, id) && !IsVisible(s'.docs[id].status)
    ensures Untorn(s')
  {
    hide IsVisible;
    assert forall id :: InSweep(s', id) <==> InSweep(s, id);
  }

  lemma SweptInRange(s: State)
    requires Inv(s)
    ensures forall id :: InSweep(s, id) ==> InRange(s.docs, id)
  {
    hide DocOk, Owned;
  }

  lemma CalmApiStep(s: State, a: Action)
    requires Inv(s) && Untorn(s) && Calm(s, a)
    requires a.ApiRequest? || a.ApiDelete? || a.ApiRefresh? || a.ApiClear? || a.ApiRestore?
    ensures Untorn(Next(s, a))
  {
    hide Inv, Untorn, InSweep, DrainStep, SweepStep, FindIdentity, FirstMismatch, Fresh;
    SweptInRange(s);
    UntornStays(s, Next(s, a));
  }

  lemma SweepShrinks(s: State, batch: nat, purged: nat, left: seq<Document>)
    requires Untorn(s) && s.torn == {} && s.worker.Sweeping?
    requires forall d :: d in left ==> InRange(s.docs, d.id) && !IsVisible(s.docs[d.id].status)
    ensures Untorn(NextSwept(s, batch, purged, left))
  {
    if left != [] {
      assert left[0] in left;
    }
  }

  lemma NoneTorn(s: State)
    requires Untorn(s) && !(s.worker.Sweeping? && s.worker.at.Purging?)
    ensures s.torn == {}
  {
    assert forall id :: id !in s.torn;
  }

  lemma PageStepsTearNothing(s: State, a: Action)
    requires s.worker.Draining? && s.worker.position.Archiving?
    ensures PageStep(s, a).torn == s.torn && !PageStep(s, a).worker.Sweeping?
  {
    hide PageKeyOf, AddPage, AfterHead, AfterFetch, Over;
  }

  /** Positions up to the opening of the download, and the positions from there on. */
  predicate Early(position: Position) {
    position.Loading? || position.Claiming? || position.ResolvingSource? || position.SavingMeta? ||
    position.ClearingPages? || position.Opening?
  }

  lemma EarlyTearsNothing(s: State, a: Action)
    requires s.worker.Draining? && Early(s.worker.position)
    ensures DrainStep(s, a).torn <= s.torn && !DrainStep(s, a).worker.Sweeping?
  {
    hide PageStep, DoPlanPages, DoReload, DoPutManifest, DoFinish, DoSaveError, DoMarkFailed;
    hide UpdateMeta, TransitionTo, ResetPages, Get;
  }

  lemma DrainTearsNothing(s: State, a: Action)
    requires s.worker.Draining?
    ensures DrainStep(s, a).torn <= s.torn && !DrainStep(s, a).worker.Sweeping?
  {
    hide PageStep, ManifestKeyOf, DoLoad, DoClaim, DoSaveMeta, DoClearPages, DoOpen;
    hide UpdateMeta, TransitionTo, ResetPages, Get;
    if s.worker.position.Archiving? {
      PageStepsTearNothing(s, a);
    } else if Early(s.worker.position) {
      EarlyTearsNothing(s, a);
    }
  }

  lemma LeftHidden(s: State)
    requires Inv(s) && Untorn(s) && s.worker.Sweeping?
    ensures forall d :: d in s.worker.left ==> InRange(s.docs, d.id) && !IsVisible(s.docs[d.id].status)
    ensures !s.worker.at.Querying? ==> var id := s.worker.at.document.id;
              InRange(s.docs, id) && !IsVisible(s.docs[id].status)
  {
    hide DocOk, Owned, IsVisible;
    forall d | d in s.worker.left ensures InRange(s.docs, d.id) && !IsVisible(s.docs[d.id].status) {
      assert InSweep(s, d.id);
    }
    if !s.worker.at.Querying? {
      assert InSweep(s, s.worker.at.document.id);
    }
  }

  lemma CalmQuery(s: State)
    requires Inv(s) && Untorn(s) && s.worker.Sweeping? && s.worker.at.Querying?
    ensures Untorn(DoSweepQuery(s))
  {
    hide Inv, Queries.Run, IsVisible, NextSwept;
    var deleted := Queries.Run(Queries.StatusQuery(Deleted, PURGE_BATCH), s.docs);
    forall d | d in deleted ensures InRange(s.docs, d.id) && !IsVisible(s.docs[d.id].status) {
      FoundInStore(s, Deleted, PURGE_BATCH, d);
      HiddenWhenDeleted(s.docs[d.id].status);
    }
    NoneTorn(s);
    SweepShrinks(s, |deleted|, 0, deleted);
  }

  lemma HiddenWhenDeleted(status: Status)
    requires status.Deleted?
    ensures !IsVisible(status)
  {
  }

  lemma CalmDelete(s: State, d: Document, ok: bool)
    requires Inv(s) && Untorn(s) && s.worker.Sweeping? && s.worker.at == Deleting(d)
    ensures Untorn(DoSweepDelete(s, d, ok))
  {
    hide Inv, PrefixOf, IsVisible, NextSwept;
    NoneTorn(s);
    LeftHidden(s);
    SweepShrinks(s, s.worker.batch, s.worker.purged, s.worker.left);
  }

  lemma CalmPurge(s: State, d: Document, now: int)
    requires Inv(s) && Untorn(s) && s.worker.Sweeping? && s.worker.at == Purging(d)
    ensures Untorn(DoSweepPurge(s, d, now))
  {
    hide Inv, Untorn, InSweep;
    LeftHidden(s);
    OnlyPurgingTorn(s, d);
    HiddenMayBePurged(s, d.id);
    var mid := s.(docs := Purge(s.docs, d.id, now).docs, torn := s.torn - {d.id});
    MidUntorn(s, mid);
    SweepShrinks(mid, s.worker.batch, s.worker.purged + 1, s.worker.left);
  }

  lemma OnlyPurgingTorn(s: State, d: Document)
    requires Untorn(s) && s.worker.Sweeping? && s.worker.at == Purging(d)
    ensures s.torn - {d.id} == {}
  {
    assert forall id :: id in s.torn ==> id == d.id;
  }

  lemma HiddenMayBePurged(s: State, id: int)
    requires Inv(s) && InRange(s.docs, id) && !IsVisible(s.docs[id].status)
    ensures CanTransition(s.docs[id].status, Purged)
  {
    hide PrefixOf, PageKeyOf, ManifestKeyOf, TrimSpace, Tidy, MineOf, Owned;
    assert DocOk(id, ViewOf(s, id));
  }

  lemma MidUntorn(s: State, mid: State)
    requires Untorn(s) && mid.worker == s.worker && mid.torn == {}
    requires |mid.docs| == |s.docs|
    requires forall j :: 0 <= j < |s.docs| && !IsVisible(s.docs[j].status) ==> !IsVisible(mid.docs[j].status)
    ensures Untorn(mid)
  {
    hide IsVisible;
    UntornStays(s, mid);
  }

  lemma CalmSweepStep(s: State, a: Action)
    requires Inv(s) && Untorn(s) && s.worker.Sweeping?
    ensures Untorn(SweepStep(s, a))
  {
    hide Inv, Untorn, DoSweepQuery, DoSweepDelete, DoSweepPurge;
    match s.worker.at {
      case Querying => CalmQuery(s);
      case Deleting(d) => if a.SweepDelete? { CalmDelete(s, d, a.ok); }
      case Purging(d) => if a.SweepPurge? { CalmPurge(s, d, a.now); }
    }
  }

  lemma CalmStep(s: State, a: Action)
    requires Inv(s) && Untorn(s) && Calm(s, a)
    ensures Untorn(Next(s, a))
  {
    hide Inv, SweepStep, DrainStep, Queries.Run, Ids, IsVisible;
    if a.ApiRequest? || a.ApiDelete? || a.ApiRefresh? || a.ApiClear? || a.ApiRestore? {
      CalmApiStep(s, a);
    } else if s.worker.Sweeping? {
      CalmSweepStep(s, a);
    } else {
      NoneTorn(s);
      if s.worker.Draining? {
        DrainTearsNothing(s, a);
      }
    }
  }

  lemma {:induction false} CalmRunKeeps(s: State, actions: seq<Action>)
    requires Inv(s) && Untorn(s) && CalmRun(s, actions)
    ensures Inv(Run(s, actions)) && Untorn(Run(s, actions))
    decreases actions
  {
    hide Inv, Untorn, Next, Calm;
    if actions != [] {
      StepKeeps(s, actions[0]);
      CalmStep(s, actions[0]);
      CalmRunKeeps(Next(s, actions[0]), actions[1..]);
    }
  }

  /** Without such a restore, every recorded page is backed at all times, except in the document being purged. */
  lemma CalmRunsKeepPagesBacked(factories: set<string>, backends: set<string>, actions: seq<Action>, id: nat, i: nat)
    requires CalmRun(Initial(factories, backends), actions)
    requires var s := Run(Initial(factories, backends), actions);
             id < |s.docs| && Occupied(s.docs[id].pages, i)
    ensures var s := Run(Initial(factories, backends), actions);
            Backed(s, id, s.docs[id].pages[i]) || BeingPurged(s, id)
  {
    hide Run, Initial, CalmRun, Backed, Inv;
    var start := Initial(factories, backends);
    InitialOk(factories, backends);
    InitialUntorn(factories, backends);
    CalmRunKeeps(start, actions);
    var s := Run(start, actions);
    assert Reachable(s);
    PagesAreBackedUnlessTorn(s, id, i);
  }

  lemma InitialUntorn(factories: set<string>, backends: set<string>)
    ensures Untorn(Initial(factories, backends))
  {
  }

  // ----- archived documents and their page counts -----

  /**
   * An archived document is short of pages exactly when the pages it was due to have, less those that API calls
   * cleared, stay below the resolved total or below what its download had recorded at once. If nothing was
   * cleared, that is when the download planned fewer pages than were resolved; if no more were planned than
   * resolved, it is when fewer were planned or some were cleared.
   */
  lemma ArchivedShortExactly(s: State, id: nat)
    requires Reachable(s) && id < |s.docs| && s.docs[id].status.Archived?
    ensures id < |s.ledgers|
    ensures var p, l := s.docs[id].progress, s.ledgers[id];
            && (p.done < p.total <==> l.due - l.lost < Max(l.resolved, l.peak))
            && (l.lost == 0 ==> (p.done < p.total <==> l.due < l.resolved))
            && (l.due <= l.resolved ==> (p.done < p.total <==> l.due < l.resolved || l.lost > 0))
  {
    hide PrefixOf, PageKeyOf, ManifestKeyOf, TrimSpace, Tidy, MineOf, Reachable;
    ReachableInv(s);
    assert DocOk(id, ViewOf(s, id));
  }

  /** The second half of a full refresh still finds the document queued, as it does when nothing comes between. */
  predicate ClearsInTime(s: State, a: Action) {
    a.ApiClear? && Visible(s.docs, a.id) && a.id in s.pending ==> s.docs[a.id].status.Queued?
  }

  /** The handler downloads at least as many pages as it resolved. */
  predicate PlansAll(s: State, a: Action) {
    a.PlanPages? && a.plans.Ok? && s.worker.Draining? && s.worker.position.Planning? ==>
      |a.plans.value| >= LedgerOf(s, s.worker.id).resolved
  }

  /** Full refreshes clear in time and, where `full` is set, every download plans what was resolved. */
  ghost predicate OrderlyRun(s: State, actions: seq<Action>, full: bool)
    decreases actions
  {
    actions == [] ||
    (ClearsInTime(s, actions[0]) && (full ==> PlansAll(s, actions[0])) && OrderlyRun(Next(s, actions[0]), actions[1..], full))
  }

  predicate Engaged(status: Status) {
    status.Resolving? || status.Downloading? || status.Archived?
  }

  /** The pages the document is due to have are settled. */
  predicate Charged(status: Status, phase: Phase) {
    status.Archived? ||
    (phase.Inside? && (PastContent(phase.position) || phase.position.Archiving?) && Engaged(status))
  }

  ghost predicate PunctualAt(s: State, id: nat, full: bool)
    requires id < |s.docs| == |s.ledgers|
  {
    && (Engaged(s.docs[id].status) ==> s.ledgers[id].lost == 0)
    && (full && Charged(s.docs[id].status, PhaseOf(s, id)) ==> s.ledgers[id].due >= s.ledgers[id].resolved)
  }

  ghost predicate Punctual(s: State, full: bool) {
    && |s.docs| == |s.ledgers|
    && forall id :: 0 <= id < |s.docs| ==> PunctualAt(s, id, full)
  }

  /** Queueing or deleting a document makes it neither engaged nor due. */
  lemma PunctualStatus(s: State, s': State, id: nat, status: Status, now: int, full: bool)
    requires Punctual(s, full) && id < |s.docs| && (status.Queued? || status.Deleted?)
    requires s' == s.(docs := s.docs[id := SetStatus(s.docs[id], status, now)], pending := s'.pending)
    ensures Punctual(s', full)
  {
    forall j | 0 <= j < |s'.docs| ensures PunctualAt(s', j, full) {
      assert PunctualAt(s, j, full);
    }
  }

  lemma PunctualRequest(s: State, source: string, sourceDocumentID: string, backend: string, now: int, full: bool)
    requires Inv(s) && Punctual(s, full)
    ensures Punctual(DoRequest(s, source, sourceDocumentID, backend, now), full)
  {
    hide DocOk, Owned, FindIdentity, FirstMismatch;
    var s' := DoRequest(s, source, sourceDocumentID, backend, now);
    forall j | 0 <= j < |s'.docs| ensures PunctualAt(s', j, full) {
      assert j < |s.docs| ==> PunctualAt(s, j, full);
    }
  }

  lemma PunctualClear(s: State, id: int, now: int, full: bool)
    requires Punctual(s, full) && ClearsInTime(s, ApiClear(id, now))
    ensures Punctual(DoClear(s, id, now), full)
  {
    var s' := DoClear(s, id, now);
    forall j | 0 <= j < |s'.docs| ensures PunctualAt(s', j, full) {
      assert PunctualAt(s, j, full);
    }
  }

  lemma PunctualApiStep(s: State, a: Action, full: bool)
    requires Inv(s) && Punctual(s, full) && ClearsInTime(s, a)
    requires a.ApiRequest? || a.ApiDelete? || a.ApiRefresh? || a.ApiClear? || a.ApiRestore?
    ensures Punctual(Next(s, a), full)
  {
    hide Inv, Punctual, DrainStep, SweepStep, DoRequest, DoClear, SetStatus, ClearsInTime;
    var s' := Next(s, a);
    match a {
      case ApiRequest(source, sourceDocumentID, backend, now) =>
        PunctualRequest(s, source, sourceDocumentID, backend, now, full);
      case ApiClear(id, now) => PunctualClear(s, id, now, full);
      case ApiDelete(id, now) =>
        if s' != s { PunctualStatus(s, s', id, Deleted, now, full); }
      case ApiRefresh(id, _, now) =>
        if s' != s { PunctualStatus(s, s', id, Queued, now, full); }
      case ApiRestore(id, now) =>
        if s' != s { PunctualStatus(s, s', id, Queued, now, full); }
    }
  }

  /** A worker step that leaves all documents but its own as they are. */
  ghost predicate OwnStep(s: State, s': State)
    requires s.worker.Draining? && |s.docs| == |s.ledgers|
  {
    && |s'.docs| == |s'.ledgers| == |s.docs| && InRange(s.docs, s.worker.id)
    && forall j :: 0 <= j < |s.docs| && j != s.worker.id ==>
         s'.docs[j] == s.docs[j] && s'.ledgers[j] == s.ledgers[j] && PhaseOf(s', j) == PhaseOf(s, j)
  }

  lemma PunctualOwnStep(s: State, s': State, full: bool)
    requires Punctual(s, full) && s.worker.Draining? && OwnStep(s, s') && PunctualAt(s', s.worker.id, full)
    ensures Punctual(s', full)
  {
    hide PhaseOf, Charged;
    forall id | 0 <= id < |s'.docs| ensures PunctualAt(s', id, full) {
      assert PunctualAt(s, id, full);
    }
  }

  lemma PunctualLoad(s: State, a: Action, full: bool)
    requires Punctual(s, full) && s.worker.Draining? && InRange(s.docs, s.worker.id)
    requires s.worker.position.Loading?
    ensures Punctual(DrainStep(s, a), full)
  {
    hide PageStep, Punctual, DoClaim, DoSaveMeta, DoClearPages, DoOpen, DoPlanPages, DoReload,
      DoPutManifest, DoFinish, DoSaveError, DoMarkFailed;
    assert PunctualAt(s, s.worker.id, full) by { PunctualHere(s, full); }
    PunctualOwnStep(s, DrainStep(s, a), full);
  }

  lemma PunctualClaim(s: State, a: Action, full: bool)
    requires Punctual(s, full) && s.worker.Draining? && InRange(s.docs, s.worker.id)
    requires s.worker.position.Claiming?
    requires StatusFits(s.docs[s.worker.id].status, Inside(s.worker.position))
    ensures Punctual(DrainStep(s, a), full)
  {
    hide PageStep, Punctual, Message, DoLoad, DoSaveMeta, DoClearPages, DoOpen, DoPlanPages, DoReload, DoPutManifest,
      DoFinish, DoSaveError, DoMarkFailed;
    assert PunctualAt(s, s.worker.id, full) by { PunctualHere(s, full); }
    PunctualOwnStep(s, DrainStep(s, a), full);
  }

  lemma PunctualResolve(s: State, a: Action, full: bool)
    requires Punctual(s, full) && s.worker.Draining? && InRange(s.docs, s.worker.id)
    requires s.worker.position.ResolvingSource?
    requires StatusFits(s.docs[s.worker.id].status, Inside(s.worker.position))
    ensures Punctual(DrainStep(s, a), full)
  {
    hide PageStep, Punctual, DoLoad, DoClaim, DoSaveMeta, DoClearPages, DoOpen, DoPlanPages,
      DoReload, DoPutManifest, DoFinish, DoSaveError, DoMarkFailed;
    assert PunctualAt(s, s.worker.id, full) by { PunctualHere(s, full); }
    PunctualOwnStep(s, DrainStep(s, a), full);
  }

  lemma PunctualHere(s: State, full: bool)
    requires Punctual(s, full) && s.worker.Draining? && InRange(s.docs, s.worker.id)
    ensures |s.docs| == |s.ledgers| && PunctualAt(s, s.worker.id, full)
  {
  }

  lemma PunctualSaveMeta(s: State, a: Action, full: bool)
    requires Punctual(s, full) && s.worker.Draining? && InRange(s.docs, s.worker.id)
    requires s.worker.position.SavingMeta?
    requires StatusFits(s.docs[s.worker.id].status, Inside(s.worker.position))
    ensures Punctual(DrainStep(s, a), full)
  {
    hide PageStep, Punctual, ManifestKeyOf, DoLoad, DoClaim, DoClearPages, DoOpen, DoPlanPages, DoReload,
      DoPutManifest, DoFinish,
      DoSaveError, DoMarkFailed;
    assert PunctualAt(s, s.worker.id, full) by { PunctualHere(s, full); }
    PunctualOwnStep(s, DrainStep(s, a), full);
  }

  lemma PunctualClearPages(s: State, a: Action, full: bool)
    requires Punctual(s, full) && s.worker.Draining? && InRange(s.docs, s.worker.id)
    requires s.worker.position.ClearingPages?
    requires StatusFits(s.docs[s.worker.id].status, Inside(s.worker.position))
    ensures Punctual(DrainStep(s, a), full)
  {
    hide PageStep, Punctual, ManifestKeyOf, DoLoad, DoClaim, DoSaveMeta, DoOpen, DoPlanPages, DoReload,
      DoPutManifest, DoFinish,
      DoSaveError, DoMarkFailed;
    assert PunctualAt(s, s.worker.id, full) by { PunctualHere(s, full); }
    PunctualOwnStep(s, DrainStep(s, a), full);
  }

  lemma PunctualOpen(s: State, a: Action, full: bool)
    requires Punctual(s, full) && s.worker.Draining? && InRange(s.docs, s.worker.id)
    requires s.worker.position.Opening?
    requires StatusFits(s.docs[s.worker.id].status, Inside(s.worker.position))
    ensures Punctual(DrainStep(s, a), full)
  {
    hide PageStep, Punctual, ManifestKeyOf, DoLoad, DoClaim, DoSaveMeta, DoClearPages, DoPlanPages, DoReload,
      DoPutManifest, DoFinish,
      DoSaveError, DoMarkFailed;
    assert PunctualAt(s, s.worker.id, full) by { PunctualHere(s, full); }
    PunctualOwnStep(s, DrainStep(s, a), full);
  }

  lemma PunctualPlan(s: State, a: Action, full: bool)
    requires Punctual(s, full) && s.worker.Draining? && InRange(s.docs, s.worker.id)
    requires s.worker.position.Planning? || s.worker.position.Reloading? || s.worker.position.WritingManifest?
    requires StatusFits(s.docs[s.worker.id].status, Inside(s.worker.position))
    requires full ==> PlansAll(s, a)
    ensures Punctual(DrainStep(s, a), full)
  {
    hide PageStep, Punctual, ManifestKeyOf, DoLoad, DoClaim, DoSaveMeta, DoClearPages, DoOpen, DoFinish,
      DoSaveError, DoMarkFailed;
    assert PunctualAt(s, s.worker.id, full) by { PunctualHere(s, full); }
    PunctualOwnStep(s, DrainStep(s, a), full);
  }

  lemma PunctualFinish(s: State, a: Action, full: bool)
    requires Punctual(s, full) && s.worker.Draining? && InRange(s.docs, s.worker.id)
    requires s.worker.position.Finishing? || s.worker.position.Returning?
    requires StatusFits(s.docs[s.worker.id].status, Inside(s.worker.position))
    ensures Punctual(DrainStep(s, a), full)
  {
    hide PageStep, Punctual, ManifestKeyOf, DoLoad, DoClaim, DoSaveMeta, DoClearPages, DoOpen, DoPlanPages, DoReload,
      DoPutManifest, DoSaveError, DoMarkFailed;
    assert PunctualAt(s, s.worker.id, full) by { PunctualHere(s, full); }
    PunctualOwnStep(s, DrainStep(s, a), full);
  }

  lemma PunctualFail(s: State, a: Action, full: bool)
    requires Punctual(s, full) && s.worker.Draining? && InRange(s.docs, s.worker.id)
    requires s.worker.position.SavingError? || s.worker.position.MarkingFailed?
    requires StatusFits(s.docs[s.worker.id].status, Inside(s.worker.position))
    ensures Punctual(DrainStep(s, a), full)
  {
    hide PageStep, Punctual, ManifestKeyOf, DoLoad, DoClaim, DoSaveMeta, DoClearPages, DoOpen, DoPlanPages, DoReload,
      DoPutManifest, DoFinish;
    assert PunctualAt(s, s.worker.id, full) by { PunctualHere(s, full); }
    PunctualOwnStep(s, DrainStep(s, a), full);
  }

  lemma PunctualPageStep(s: State, a: Action, full: bool)
    requires Punctual(s, full) && s.worker.Draining? && s.worker.position.Archiving?
    requires InRange(s.docs, s.worker.id)
    ensures Punctual(PageStep(s, a), full)
  {
    hide PageKeyOf, AfterHead, AfterFetch, Over, Place, Bump, Punctual;
    assert PunctualAt(s, s.worker.id, full) by { PunctualHere(s, full); }
    PunctualOwnStep(s, PageStep(s, a), full);
  }

  lemma PunctualDrainStep(s: State, a: Action, full: bool)
    requires Inv(s) && Punctual(s, full) && s.worker.Draining? && (full ==> PlansAll(s, a))
    ensures Punctual(DrainStep(s, a), full)
  {
    hide Inv, Punctual, PageStep, DoLoad, DoClaim, DoSaveMeta, DoClearPages, DoOpen, DoPlanPages, DoReload,
      DoPutManifest, DoFinish, DoSaveError, DoMarkFailed, StatusFits, PlansAll;
    WorkerStatus(s);
    match s.worker.position {
      case Archiving(_) => PunctualPageStep(s, a, full);
      case Loading => PunctualLoad(s, a, full);
      case Claiming(_) => PunctualClaim(s, a, full);
      case ResolvingSource => PunctualResolve(s, a, full);
      case SavingMeta(_) => PunctualSaveMeta(s, a, full);
      case ClearingPages => PunctualClearPages(s, a, full);
      case Opening => PunctualOpen(s, a, full);
      case Finishing => PunctualFinish(s, a, full);
      case Returning => PunctualFinish(s, a, full);
      case SavingError(_) => PunctualFail(s, a, full);
      case MarkingFailed(_) => PunctualFail(s, a, full);
      case _ => PunctualPlan(s, a, full);
    }
  }

  lemma PunctualSweepStep(s: State, a: Action, full: bool)
    requires Punctual(s, full) && s.worker.Sweeping?
    ensures Punctual(SweepStep(s, a), full)
  {
    hide PrefixOf, Queries.Run;
    var s' := SweepStep(s, a);
    forall id | 0 <= id < |s'.docs| ensures PunctualAt(s', id, full) {
      assert PunctualAt(s, id, full);
    }
  }

  lemma PunctualStart(s: State, a: Action, full: bool)
    requires Punctual(s, full) && s.worker.Idle? && (a.BeginQueue? || a.BeginSweep?)
    ensures Punctual(Next(s, a), full)
  {
    hide Queries.Run, Ids;
    var s' := Next(s, a);
    forall id | 0 <= id < |s'.docs| ensures PunctualAt(s', id, full) {
      assert PunctualAt(s, id, full);
    }
  }

  lemma WorkerStatus(s: State)
    requires Inv(s) && s.worker.Draining?
    ensures InRange(s.docs, s.worker.id)
    ensures !s.worker.position.Loading? ==> StatusFits(s.docs[s.worker.id].status, Inside(s.worker.position))
  {
    hide PrefixOf, PageKeyOf, ManifestKeyOf, TrimSpace, Tidy, MineOf;
    AtWork(s);
  }

  lemma PunctualStep(s: State, a: Action, full: bool)
    requires Inv(s) && Punctual(s, full) && ClearsInTime(s, a) && (full ==> PlansAll(s, a))
    ensures Punctual(Next(s, a), full)
  {
    hide Inv, Punctual, SweepStep, DrainStep, DoBeginQueue, PlansAll, ClearsInTime;
    if a.ApiRequest? || a.ApiDelete? || a.ApiRefresh? || a.ApiClear? || a.ApiRestore? {
      PunctualApiStep(s, a, full);
    } else if s.worker.Sweeping? {
      PunctualSweepStep(s, a, full);
    } else if s.worker.Draining? {
      PunctualDrainStep(s, a, full);
    } else if a.BeginQueue? || a.BeginSweep? {
      PunctualStart(s, a, full);
    }
  }

  lemma {:induction false} OrderlyRunKeeps(s: State, actions: seq<Action>, full: bool)
    requires Inv(s) && Punctual(s, full) && OrderlyRun(s, actions, full)
    ensures Inv(Run(s, actions)) && Punctual(Run(s, actions), full)
    decreases actions
  {
    hide Inv, Punctual, Next, ClearsInTime, PlansAll;
    if actions != [] {
      StepKeeps(s, actions[0]);
      PunctualStep(s, actions[0], full);
      OrderlyRunKeeps(Next(s, actions[0]), actions[1..], full);
    }
  }

  /**
   * When full refreshes clear in time, an archived document is short of pages exactly when its last download
   * planned fewer than were resolved.
   */
  lemma OrderlyRunsFallShortByPlanOnly(factories: set<string>, backends: set<string>, actions: seq<Action>, id: nat)
    requires OrderlyRun(Initial(factories, backends), actions, false)
    requires var s := Run(Initial(factories, backends), actions);
             id < |s.docs| && s.docs[id].status.Archived?
    ensures var s := Run(Initial(factories, backends), actions);
            && id < |s.ledgers|
            && (s.docs[id].progress.done < s.docs[id].progress.total <==> s.ledgers[id].due < s.ledgers[id].resolved)
  {
    hide Run, OrderlyRun, DocOk, FrameOk;
    var start := Initial(factories, backends);
    InitialOk(factories, backends);
    OrderlyRunKeeps(start, actions, false);
    var s := Run(start, actions);
    assert Reachable(s);
    assert PunctualAt(s, id, false);
    ArchivedShortExactly(s, id);
  }

  /** When full refreshes clear in time and handlers download what they resolved, archived means complete. */
  lemma OrderlyRunsArchiveCompletely(factories: set<string>, backends: set<string>, actions: seq<Action>, id: nat)
    requires OrderlyRun(Initial(factories, backends), actions, true)
    requires var s := Run(Initial(factories, backends), actions);
             id < |s.docs| && s.docs[id].status.Archived?
    ensures var s := Run(Initial(factories, backends), actions);
            s.docs[id].progress.done >= s.docs[id].progress.total
  {
    hide Run, OrderlyRun, DocOk, FrameOk;
    var start := Initial(factories, backends);
    InitialOk(factories, backends);
    OrderlyRunKeeps(start, actions, true);
    var s := Run(start, actions);
    assert Reachable(s);
    assert PunctualAt(s, id, true);
    ArchivedShortExactly(s, id);
  }
}
