/**
 * What every reachable state of the archive keeps. The invariant speaks of one document at a time:
 * its record, the objects below its prefix, and where the worker stands towards it.
 */
module LifecycleInvariant {
  import opened Arithmetic
  import opened Wrappers
  import opened Strings
  import opened Keys
  import opened Model
  import opened StoreSpec
  import opened PageSlices
  import opened Objects
  import opened Lifecycle

  // ----- one document's view of the state -----

  /** The objects below a document's prefix. */
  function Mine(bucket: Bucket, id: nat): Bucket {
    map k | k in bucket && HasPrefix(k, PrefixOf(id)) :: bucket[k]
  }

  function MineOf(s: State, id: nat): Bucket
    requires id < |s.docs|
  {
    var backend := s.docs[id].storageBackend;
    if backend in s.buckets then Mine(s.buckets[backend], id) else map[]
  }

  /** Where the worker stands: away, processing the document, or between deleting its objects and purging it. */
  datatype Phase = Away | Inside(position: Position) | Cleaned

  function PhaseOf(s: State, id: nat): Phase {
    match s.worker
    case Idle => Away
    case Draining(i, _, _, position) => if i == id && !position.Loading? then Inside(position) else Away
    case Sweeping(_, _, _, at) => if at.Purging? && at.document.id == id then Cleaned else Away
  }

  datatype View = View(doc: Document, mine: Bucket, torn: bool, ledger: Ledger, phase: Phase)

  function ViewOf(s: State, id: nat): View
    requires id < |s.docs| == |s.ledgers|
  {
    View(s.docs[id], MineOf(s, id), id in s.torn, s.ledgers[id], PhaseOf(s, id))
  }

  // ----- the invariant of one document -----

  /** Which statuses each position of the worker allows. */
  predicate StatusFits(status: Status, phase: Phase) {
    match phase
    case Away => !status.Resolving? && !status.Downloading?
    case Cleaned => !status.Resolving? && !status.Downloading?
    case Inside(position) =>
      !status.Purged? &&
      match position
      case Loading => false
      case Claiming(_) => !status.Resolving? && !status.Downloading?
      case Returning => !status.Resolving? && !status.Downloading?
      case ResolvingSource => status.Queued? || status.Resolving? || status.Deleted?
      case SavingMeta(_) => status.Queued? || status.Resolving? || status.Deleted?
      case ClearingPages => status.Queued? || status.Resolving? || status.Deleted?
      case Opening => status.Queued? || status.Resolving? || status.Deleted?
      case Planning => status.Queued? || status.Downloading? || status.Deleted?
      case Archiving(_) => status.Queued? || status.Downloading? || status.Deleted?
      case Reloading => status.Queued? || status.Resolving? || status.Downloading? || status.Deleted?
      case WritingManifest => status.Queued? || status.Resolving? || status.Downloading? || status.Deleted?
      case Finishing => status.Queued? || status.Resolving? || status.Downloading? || status.Deleted?
      case SavingError(_) => true
      case MarkingFailed(_) => true
  }

  /** The record itself: `done` counts the recorded pages, and a purged document holds nothing. */
  ghost predicate RecordOk(id: nat, d: Document) {
    && d.id == id
    && IsKnown(d.status)
    && Tidy(d.pages)
    && d.progress.done == CountExisting(d.pages) && d.progress.total >= 0
    && (d.status.Purged? ==> d.pages == [] && d.progress == Progress(0, 0))
  }

  /** Every recorded page has the key its hash gives it, and its object is there unless a sweep removed it. */
  ghost predicate PagesOk(id: nat, pages: seq<Page>, mine: Bucket, torn: bool) {
    forall i :: 0 <= i < |pages| && SlotExists(pages[i], i) ==>
      && PageKeyOf(id, pages[i].hash, pages[i].contentType) == Ok(pages[i].key)
      && (torn || pages[i].key in mine)
  }

  /** An object stored where a page belongs carries that page's hash. */
  ghost predicate HashesOk(id: nat, mine: Bucket) {
    forall hash, contentType ::
      var key := PageKeyOf(id, hash, contentType);
      key.Ok? && key.value in mine ==> TrimSpace(mine[key.value].etag) == TrimSpace(hash)
  }

  predicate Downloads(phase: Phase) {
    phase.Inside? && (phase.position.Opening? || phase.position.Planning? || phase.position.Archiving?)
  }

  ghost predicate TornOk(id: nat, v: View) {
    && (v.torn ==> !Downloads(v.phase) && forall k :: k in v.mine ==> k == ManifestKeyOf(id))
    && (v.doc.status.Purged? || v.phase.Cleaned? ==> v.mine == map[])
  }

  ghost predicate TaskOk(id: nat, task: Task, mine: Bucket) {
    match task.stage
    case Ready(page) =>
      PageKeyOf(id, page.hash, page.contentType) == Ok(page.key) && page.key in mine && page.key != ""
    case _ => true
  }

  ghost predicate TasksOk(id: nat, v: View) {
    v.phase.Inside? && v.phase.position.Archiving? ==>
      forall k :: 0 <= k < |v.phase.position.tasks| ==> TaskOk(id, v.phase.position.tasks[k], v.mine)
  }

  function CountRecorded(tasks: seq<Task>): nat {
    if tasks == [] then 0
    else CountRecorded(tasks[..|tasks| - 1]) + if tasks[|tasks| - 1].stage.Recorded? then 1 else 0
  }

  /** The recorded pages are those due less those lost, and the total grew with the peak of the download. */
  predicate Settled(p: Progress, l: Ledger) {
    && p.done == l.due - l.lost && p.total == Max(l.resolved, l.peak)
    && 0 <= l.peak <= l.due && 0 <= l.lost
  }

  /** Before the download plans its pages nothing is recorded, and the total is the resolved one. */
  predicate Blank(p: Progress, l: Ledger) {
    p.done == 0 && p.total == l.resolved && l.due == 0 && l.lost == 0 && l.peak == 0
  }

  /** While pages come in, those recorded and those lost add up to the tasks that have recorded theirs. */
  predicate Counted(p: Progress, l: Ledger, tasks: seq<Task>) {
    && l.due == |tasks| && p.done + l.lost == CountRecorded(tasks)
    && p.total == Max(l.resolved, l.peak) && 0 <= l.peak <= CountRecorded(tasks) && 0 <= l.lost
  }

  ghost predicate ProgressOk(v: View) {
    var p, l := v.doc.progress, v.ledger;
    && (v.doc.status.Archived? ==> Settled(p, l))
    && (v.doc.status.Resolving? && v.phase.Inside? ==>
          && (v.phase.position.ClearingPages? ==> p.total == l.resolved)
          && (v.phase.position.Opening? ==> Blank(p, l))
          && (PastContent(v.phase.position) ==> Settled(p, l)))
    && (v.doc.status.Downloading? && v.phase.Inside? ==>
          && (v.phase.position.Planning? ==> Blank(p, l))
          && (v.phase.position.Archiving? ==> Counted(p, l, v.phase.position.tasks))
          && (PastContent(v.phase.position) ==> Settled(p, l)))
  }

  predicate PastContent(position: Position) {
    position.Reloading? || position.WritingManifest? || position.Finishing?
  }

  /** From the writing of the manifest until the document leaves the archive its manifest is stored. */
  ghost predicate ManifestOk(id: nat, v: View) {
    v.doc.status.Archived? || (v.phase.Inside? && v.phase.position.Finishing?) ==> ManifestKeyOf(id) in v.mine
  }

  ghost predicate DocOk(id: nat, v: View) {
    && StatusFits(v.doc.status, v.phase)
    && RecordOk(id, v.doc)
    && PagesOk(id, v.doc.pages, v.mine, v.torn)
    && HashesOk(id, v.mine)
    && TornOk(id, v)
    && TasksOk(id, v)
    && ProgressOk(v)
    && ManifestOk(id, v)
  }

  // ----- the whole invariant -----

  /** What a document caught in a sweep may have become meanwhile: only API calls touch it. */
  predicate Dormant(status: Status) {
    status.Queued? || status.Deleted? || status.Purged?
  }

  predicate SnapshotOk(s: State, d: Document) {
    InRange(s.docs, d.id) && d.storageBackend == s.docs[d.id].storageBackend && Dormant(s.docs[d.id].status)
  }

  /** Positions at which the handler is bound to a registered storage. */
  predicate Bound(position: Position) {
    !position.Loading? && !position.Claiming? && !position.SavingError? && !position.MarkingFailed?
  }

  predicate WorkerOk(s: State) {
    match s.worker
    case Idle => true
    case Draining(id, rest, backend, position) =>
      && InRange(s.docs, id) && (forall i :: i in rest ==> InRange(s.docs, i))
      && (!position.Loading? ==> backend == s.docs[id].storageBackend)
      && (position.Claiming? ==> position.document.storageBackend == backend)
      && (Bound(position) ==> backend in s.buckets)
    case Sweeping(_, _, left, at) =>
      && (forall d :: d in left ==> SnapshotOk(s, d))
      && (!at.Querying? ==> SnapshotOk(s, at.document))
  }

  /** Objects lie below the prefixes of known documents, in those documents' own backends. */
  ghost predicate Owned(s: State) {
    forall b, k, n: nat :: b in s.buckets && k in s.buckets[b] && HasPrefix(k, PrefixOf(n)) ==>
      n < |s.docs| && s.docs[n].storageBackend == b
  }

  /** The parts of the invariant that do not belong to one document. */
  ghost predicate FrameOk(s: State) {
    && WorkerOk(s)
    && Owned(s)
    && (forall id :: id in s.torn ==> InRange(s.docs, id))
  }

  ghost predicate Inv(s: State) {
    && |s.docs| == |s.ledgers|
    && FrameOk(s)
    && forall id :: 0 <= id < |s.docs| ==> DocOk(id, ViewOf(s, id))
  }

  // ----- steps that touch one document -----

  ghost predicate OthersKept(s: State, s': State, id: int)
    requires |s.docs| == |s.ledgers|
  {
    && |s'.docs| == |s.docs| == |s'.ledgers|
    && forall j :: 0 <= j < |s.docs| && j != id ==> ViewOf(s', j) == ViewOf(s, j)
  }

  lemma LocalStep(s: State, s': State, id: int)
    requires Inv(s) && OthersKept(s, s', id) && FrameOk(s')
    requires InRange(s.docs, id) ==> DocOk(id, ViewOf(s', id))
    ensures Inv(s')
  {
    hide DocOk, ViewOf, FrameOk;
    forall j | 0 <= j < |s'.docs| ensures DocOk(j, ViewOf(s', j)) {
      if j != id {
        assert DocOk(j, ViewOf(s, j));
      }
    }
  }

  /** A step that changes at most the record of one document and what history says about it. */
  ghost predicate RecordStep(s: State, s': State, id: int)
    requires |s.docs| == |s.ledgers|
  {
    && |s'.docs| == |s.docs| == |s'.ledgers| && s'.buckets == s.buckets
    && (InRange(s.docs, id) ==> s'.docs[id].storageBackend == s.docs[id].storageBackend)
    && forall j :: 0 <= j < |s.docs| && j != id ==>
         && s'.docs[j] == s.docs[j] && s'.ledgers[j] == s.ledgers[j]
         && (j in s'.torn <==> j in s.torn)
         && PhaseOf(s', j) == PhaseOf(s, j)
  }

  lemma RecordStepKeepsOthers(s: State, s': State, id: int)
    requires |s.docs| == |s.ledgers| && RecordStep(s, s', id)
    ensures OthersKept(s, s', id)
    ensures InRange(s.docs, id) ==> MineOf(s', id) == MineOf(s, id)
  {
    hide PrefixOf;
  }

  lemma SameWorker(s: State, s': State)
    requires WorkerOk(s) && s'.worker == s.worker && s'.buckets.Keys == s.buckets.Keys
    requires |s.docs| <= |s'.docs|
    requires forall j :: 0 <= j < |s.docs| ==> s'.docs[j].storageBackend == s.docs[j].storageBackend
    requires forall j :: 0 <= j < |s.docs| && Dormant(s.docs[j].status) ==> Dormant(s'.docs[j].status)
    ensures WorkerOk(s')
  {
  }

  /** Changing records, but no object and no backend, keeps the frame as long as the worker is fine. */
  lemma FrameStep(s: State, s': State)
    requires FrameOk(s) && WorkerOk(s') && s'.buckets == s.buckets && |s.docs| <= |s'.docs|
    requires forall j :: 0 <= j < |s.docs| ==> s'.docs[j].storageBackend == s.docs[j].storageBackend
    requires forall id :: id in s'.torn ==> InRange(s'.docs, id)
    ensures FrameOk(s')
  {
    hide PrefixOf, WorkerOk;
  }

  // ----- API steps -----

  /** A status change by an API call suits every phase the old status suited, unless it leaves the active ones. */
  lemma ApiStatus(s: State, id: nat, status: Status, now: int, s': State)
    requires Inv(s) && id < |s.docs|
    requires s' == s.(docs := s.docs[id := SetStatus(s.docs[id], status, now)], pending := s'.pending)
    requires status.Deleted? || status.Queued?
    requires s.docs[id].status.Purged? ==> status.Queued?
    ensures Inv(s')
  {
    hide PrefixOf, PageKeyOf, ManifestKeyOf, TrimSpace, Tidy;
    RecordStepKeepsOthers(s, s', id);
    SameWorker(s, s');
    FrameStep(s, s');
    assert DocOk(id, ViewOf(s, id));
    assert ViewOf(s', id) == ViewOf(s, id).(doc := s'.docs[id]);
    LocalStep(s, s', id);
  }

  lemma ApiDeleteKeeps(s: State, id: int, now: int)
    requires Inv(s)
    ensures Inv(Next(s, ApiDelete(id, now)))
  {
    hide Inv, SetStatus;
    if Visible(s.docs, id) && CanTransition(s.docs[id].status, Deleted) {
      ApiStatus(s, id, Deleted, now, Next(s, ApiDelete(id, now)));
    }
  }

  lemma ApiRestoreKeeps(s: State, id: int, now: int)
    requires Inv(s)
    ensures Inv(Next(s, ApiRestore(id, now)))
  {
    hide Inv, SetStatus;
    if InRange(s.docs, id) && (s.docs[id].status.Deleted? || s.docs[id].status.Purged?) {
      ApiStatus(s, id, Queued, now, Next(s, ApiRestore(id, now)));
    }
  }

  lemma ApiRefreshKeeps(s: State, id: int, all: bool, now: int)
    requires Inv(s)
    ensures Inv(Next(s, ApiRefresh(id, all, now)))
  {
    hide Inv, SetStatus;
    if InRange(s.docs, id) && CanTransition(s.docs[id].status, Queued) {
      ApiStatus(s, id, Queued, now, Next(s, ApiRefresh(id, all, now)));
    }
  }

  /** Clearing the pages of a visible document, whoever does it. */
  lemma ClearedOk(id: nat, v: View, v': View, now: int)
    requires DocOk(id, v) && IsVisible(v.doc.status)
    requires v'.doc == v.doc.(pages := [], progress := v.doc.progress.(done := 0), updatedAt := now)
    requires v' == v.(doc := v'.doc, torn := false,
                        ledger := v.ledger.(lost := v.ledger.lost + v.doc.progress.done))
    ensures DocOk(id, v')
  {
    hide PrefixOf, PageKeyOf, ManifestKeyOf, TrimSpace;
  }

  lemma ApiClearKeeps(s: State, id: int, now: int)
    requires Inv(s)
    ensures Inv(Next(s, ApiClear(id, now)))
  {
    hide PrefixOf, DocOk;
    var s' := Next(s, ApiClear(id, now));
    if id in s.pending && Visible(s.docs, id) {
      assert DocOk(id, ViewOf(s, id));
      DoneIsNatural(id, ViewOf(s, id));
      RecordStepKeepsOthers(s, s', id);
      SameWorker(s, s');
      FrameStep(s, s');
      ClearedOk(id, ViewOf(s, id), ViewOf(s', id), now);
      LocalStep(s, s', id);
    } else {
      SameFacts(s, s');
    }
  }

  lemma DoneIsNatural(id: nat, v: View)
    requires DocOk(id, v)
    ensures v.doc.progress.done >= 0
  {
  }

  /** Only documents, objects, worker and history matter to the invariant. */
  lemma SameFacts(s: State, s': State)
    requires Inv(s) && s' == s.(pending := s'.pending)
    ensures Inv(s')
  {
    hide DocOk, PrefixOf;
    SameWorker(s, s');
    FrameStep(s, s');
    forall j | 0 <= j < |s'.docs| ensures DocOk(j, ViewOf(s', j)) {
      assert ViewOf(s', j) == ViewOf(s, j);
    }
  }

  lemma ApiRequestKeeps(s: State, source: string, sourceDocumentID: string, backend: string, now: int)
    requires Inv(s)
    ensures Inv(Next(s, ApiRequest(source, sourceDocumentID, backend, now)))
  {
    hide PrefixOf;
    var s' := DoRequest(s, source, sourceDocumentID, backend, now);
    if s' != s {
      var n := |s.docs|;
      var d := s'.docs[n];
      SameWorker(s, s');
      FrameStep(s, s');
      assert MineOf(s', n) == map[];
      assert DocOk(n, ViewOf(s', n));
      forall j | 0 <= j < n ensures DocOk(j, ViewOf(s', j)) {
        assert ViewOf(s', j) == ViewOf(s, j);
      }
    }
  }
}
