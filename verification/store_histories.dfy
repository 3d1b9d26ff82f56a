/** Whole runs of store operations: the two stores stay in step, and what every run of the store keeps. */
module StoreHistories {
  import opened Model
  import opened StoreSpec
  import opened Simulation
  import opened PageSlices
  import Sql = SqliteSpec

  /** A call of the store. Ids are memory ids; the SQLite store is called with the id one higher. */
  datatype Op =
    | OpGet(id: int)
    | OpCreate(document: Document, now: int)
    | OpDelete(id: int, now: int)
    | OpPurge(id: int, now: int)
    | OpRestore(id: int, now: int)
    | OpResetPages(id: int, now: int)
    | OpUpdateMeta(id: int, fn: Callback, now: int)
    | OpTransitionTo(id: int, status: Status, now: int)
    | OpAddPage(id: int, page: Page, now: int)
    | OpRemovePage(id: int, index: int, now: int)

  /** Pages reach a store with a key; an object key is never empty. */
  predicate Keyed(op: Op) {
    match op
    case OpCreate(document, _) => forall p :: p in document.pages ==> p.key != ""
    case OpAddPage(_, page, _) => page.key != ""
    case _ => true
  }

  function InMemory(docs: Docs, op: Op): (Docs, bool) {
    match op
    case OpGet(id) => (docs, Get(docs, id).Ok?)
    case OpCreate(d, now) => var r := Create(docs, d, now); (r.docs, r.result.Ok?)
    case OpDelete(id, now) => var r := Delete(docs, id, now); (r.docs, r.result.Ok?)
    case OpPurge(id, now) => var r := Purge(docs, id, now); (r.docs, r.result.Ok?)
    case OpRestore(id, now) => var r := Restore(docs, id, now); (r.docs, r.result.Ok?)
    case OpResetPages(id, now) => var r := ResetPages(docs, id, now); (r.docs, r.result.Ok?)
    case OpUpdateMeta(id, fn, now) => var r := UpdateMeta(docs, id, fn, now); (r.docs, r.result.Ok?)
    case OpTransitionTo(id, s, now) => var r := TransitionTo(docs, id, s, now); (r.docs, r.result.Ok?)
    case OpAddPage(id, page, now) => var r := AddPage(docs, id, page, now); (r.docs, r.result.Ok?)
    case OpRemovePage(id, i, now) => var r := RemovePage(docs, id, i, now); (r.docs, r.result.Ok?)
  }

  ghost function InSql(db: Sql.Db, op: Op): (Sql.Db, bool) {
    match op
    case OpGet(id) => (db, Sql.Get(db, id + 1).Ok?)
    case OpCreate(d, now) => var c := Sql.Create(db, d, now); (c.db, c.result.Ok?)
    case OpDelete(id, now) => var c := Sql.Delete(db, id + 1, now); (c.db, c.result.Ok?)
    case OpPurge(id, now) => var c := Sql.Purge(db, id + 1, now); (c.db, c.result.Ok?)
    case OpRestore(id, now) => var c := Sql.Restore(db, id + 1, now); (c.db, c.result.Ok?)
    case OpResetPages(id, now) => var c := Sql.ResetPages(db, id + 1, now); (c.db, c.result.Ok?)
    case OpUpdateMeta(id, fn, now) => var c := Sql.UpdateMeta(db, id + 1, fn, now); (c.db, c.result.Ok?)
    case OpTransitionTo(id, s, now) => var c := Sql.TransitionTo(db, id + 1, s, now); (c.db, c.result.Ok?)
    case OpAddPage(id, page, now) => var c := Sql.AddPage(db, id + 1, page, now); (c.db, c.result.Ok?)
    case OpRemovePage(id, i, now) => var c := Sql.RemovePage(db, id + 1, i, now); (c.db, c.result.Ok?)
  }

  /** Runs the calls in order; the result also lists which of them succeeded. */
  function RunMemory(docs: Docs, ops: seq<Op>): (Docs, seq<bool>)
    decreases ops
  {
    if ops == [] then (docs, [])
    else
      var (docs', ok) := InMemory(docs, ops[0]);
      var (end, oks) := RunMemory(docs', ops[1..]);
      (end, [ok] + oks)
  }

  ghost function RunSql(db: Sql.Db, ops: seq<Op>): (Sql.Db, seq<bool>)
    decreases ops
  {
    if ops == [] then (db, [])
    else
      var (db', ok) := InSql(db, ops[0]);
      var (end, oks) := RunSql(db', ops[1..]);
      (end, [ok] + oks)
  }

  lemma StepAgrees(docs: Docs, db: Sql.Db, op: Op)
    requires Sim(docs, db) && Keyed(op)
    ensures InMemory(docs, op).1 == InSql(db, op).1
    ensures Sim(InMemory(docs, op).0, InSql(db, op).0)
  {
    hide Sim, Create, Sql.Create, Delete, Sql.Delete, Purge, Sql.Purge, Restore, Sql.Restore, ResetPages,
      Sql.ResetPages, UpdateMeta, Sql.UpdateMeta, TransitionTo, Sql.TransitionTo, AddPage, Sql.AddPage,
      RemovePage, Sql.RemovePage;
    match op {
      case OpGet(id) => GetAgrees(docs, db, id);
      case OpCreate(d, now) => CreateAgrees(docs, db, d, now);
      case OpDelete(id, now) => DeleteAgrees(docs, db, id, now);
      case OpPurge(id, now) => PurgeAgrees(docs, db, id, now);
      case OpRestore(id, now) => RestoreAgrees(docs, db, id, now);
      case OpResetPages(id, now) => ResetPagesAgrees(docs, db, id, now);
      case OpUpdateMeta(id, fn, now) => UpdateMetaAgrees(docs, db, id, fn, now);
      case OpTransitionTo(id, s, now) => TransitionAgrees(docs, db, id, s, now);
      case OpAddPage(id, page, now) => AddPageAgrees(docs, db, id, page, now);
      case OpRemovePage(id, i, now) => RemovePageAgrees(docs, db, id, i, now);
    }
  }

  lemma {:induction false} RunsAgree(docs: Docs, db: Sql.Db, ops: seq<Op>)
    requires Sim(docs, db)
    requires forall op :: op in ops ==> Keyed(op)
    ensures RunMemory(docs, ops).1 == RunSql(db, ops).1
    ensures Sim(RunMemory(docs, ops).0, RunSql(db, ops).0)
    decreases ops
  {
    hide Sim, InMemory, InSql, Keyed;
    if ops != [] {
      StepAgrees(docs, db, ops[0]);
      RunsAgree(InMemory(docs, ops[0]).0, InSql(db, ops[0]).0, ops[1..]);
    }
  }

  /** From fresh stores, any run succeeds and fails alike in both, and leaves equal contents. */
  lemma StoresBehaveAlike(ops: seq<Op>)
    requires forall op :: op in ops ==> Keyed(op)
    ensures RunMemory([], ops).1 == RunSql(Sql.EMPTY_DB, ops).1
    ensures Sim(RunMemory([], ops).0, RunSql(Sql.EMPTY_DB, ops).0)
  {
    FreshStoresAgree();
    RunsAgree([], Sql.EMPTY_DB, ops);
  }

  // ----- the one input on which the stores part -----

  /** Whether the stores still agree about every keyed page offered next for the same slot. */
  ghost predicate InStepAfterAdd(docs: Docs, db: Sql.Db, id: int, page: Page, now: int) {
    forall next: Page :: next.index == page.index && next.key != "" ==>
      (AddPage(AddPage(docs, id, page, now).docs, id, next, now).result.Ok?
       <==> Sql.AddPage(Sql.AddPage(db, id + 1, page, now).db, id + 1, next, now).result.Ok?)
  }

  /** A recorded page keeps the stores in step exactly when it has a key. */
  lemma EmptyKeyPartsTheStores(docs: Docs, db: Sql.Db, id: int, page: Page, now: int)
    requires Sim(docs, db) && Visible(docs, id)
    requires page.index >= 0 && !Occupied(docs[id].pages, page.index)
    ensures InStepAfterAdd(docs, db, id, page, now) <==> page.key != ""
  {
    if page.key != "" {
      var docs', db' := AddPage(docs, id, page, now).docs, Sql.AddPage(db, id + 1, page, now).db;
      AddPageAgrees(docs, db, id, page, now);
      forall next: Page | next.index == page.index && next.key != ""
        ensures AddPage(docs', id, next, now).result.Ok? <==> Sql.AddPage(db', id + 1, next, now).result.Ok?
      {
        AddPageAgrees(docs', db', id, next, now);
      }
    } else {
      LookupMatches(docs, db, id);
      OccupiedIsRow(docs, db, id, page.index);
      var next := page.(key := "k");
      assert Visible(AddPage(docs, id, page, now).docs, id);
      assert AddPage(AddPage(docs, id, page, now).docs, id, next, now).result.Ok?;
      assert !Sql.AddPage(Sql.AddPage(db, id + 1, page, now).db, id + 1, next, now).result.Ok?;
    }
  }

  // ----- what every run keeps -----

  /** `done` counts the recorded pages, the slice is tidy, and a purged document is empty. */
  ghost predicate DocumentSound(d: Document, i: int) {
    && d.id == i
    && Tidy(d.pages)
    && d.progress.done == CountExisting(d.pages)
    && (d.status.Purged? ==> d.pages == [] && d.progress == Progress(0, 0))
  }

  ghost predicate IdentitiesUnique(docs: Docs) {
    forall i, j :: 0 <= i < j < |docs| ==>
      docs[i].source != docs[j].source || docs[i].sourceDocumentID != docs[j].sourceDocumentID
  }

  ghost predicate StoreSound(docs: Docs) {
    && (forall i :: 0 <= i < |docs| ==> DocumentSound(docs[i], i))
    && IdentitiesUnique(docs)
  }

  /** The callback leaves the number of recorded pages alone, as every caller in the program does. */
  ghost predicate KeepsDone(fn: Callback) {
    forall meta: DocumentMeta :: fn(meta).Ok? ==> fn(meta).value.progress.done == meta.progress.done
  }

  ghost predicate Proper(op: Op) {
    Keyed(op) && (op.OpUpdateMeta? ==> KeepsDone(op.fn))
  }

  lemma SoundUpdate(docs: Docs, id: int, d: Document)
    requires StoreSound(docs) && InRange(docs, id)
    requires DocumentSound(d, id)
    requires d.source == docs[id].source && d.sourceDocumentID == docs[id].sourceDocumentID
    ensures StoreSound(docs[id := d])
  {
  }

  lemma {:induction false} CountOwnIndexes(pages: seq<Page>)
    requires forall i :: 0 <= i < |pages| ==> SlotExists(pages[i], i)
    ensures CountExisting(pages) == |pages|
  {
    CountBound(pages);
  }

  lemma SoundCreate(docs: Docs, document: Document, now: int)
    requires StoreSound(docs)
    requires forall p :: p in document.pages ==> p.key != ""
    ensures StoreSound(Create(docs, document, now).docs)
  {
    var r := Create(docs, document, now);
    if r.result.Ok? {
      FindIdentityMeaning(docs, document.source, document.sourceDocumentID);
      CountOwnIndexes(document.pages);
      assert DocumentSound(r.result.value, |docs|);
    }
  }

  lemma SoundStep(docs: Docs, op: Op)
    requires StoreSound(docs) && Proper(op)
    ensures StoreSound(InMemory(docs, op).0)
  {
    match op {
      case OpGet(_) =>
      case OpCreate(d, now) => SoundCreate(docs, d, now);
      case OpDelete(id, now) =>
        if Visible(docs, id) {
          SoundUpdate(docs, id, SetStatus(docs[id], Deleted, now));
        }
      case OpPurge(id, now) =>
        if InRange(docs, id) {
          SoundUpdate(docs, id, Emptied(docs[id], now));
        }
      case OpRestore(id, now) =>
        if InRange(docs, id) {
          SoundUpdate(docs, id, SetStatus(docs[id], Queued, now));
        }
      case OpResetPages(id, now) =>
        if Visible(docs, id) {
          SoundUpdate(docs, id, ResetPages(docs, id, now).result.value);
        }
      case OpUpdateMeta(id, fn, now) =>
        if Visible(docs, id) && UpdateMeta(docs, id, fn, now).result.Ok? {
          SoundUpdate(docs, id, UpdateMeta(docs, id, fn, now).result.value);
        }
      case OpTransitionTo(id, s, now) =>
        if InRange(docs, id) && (s.Purged? ==> Cleared(docs[id])) {
          if s.Purged? {
            TidyCount(docs[id].pages);
          }
          SoundUpdate(docs, id, SetStatus(docs[id], s, now));
        }
      case OpAddPage(id, page, now) =>
        if Visible(docs, id) && page.index >= 0 && !Occupied(docs[id].pages, page.index) {
          CountPlace(docs[id].pages, page);
          TidyPlace(docs[id].pages, page);
          SoundUpdate(docs, id, WithPage(docs[id], page, now));
        }
      case OpRemovePage(id, i, now) =>
        if Visible(docs, id) && Occupied(docs[id].pages, i) {
          CountUnplace(docs[id].pages, i);
          TidyUnplace(docs[id].pages, i);
          SoundUpdate(docs, id, WithoutPage(docs[id], i, now));
        }
    }
  }

  lemma {:induction false} SoundRun(docs: Docs, ops: seq<Op>)
    requires StoreSound(docs)
    requires forall op :: op in ops ==> Proper(op)
    ensures StoreSound(RunMemory(docs, ops).0)
    decreases ops
  {
    hide StoreSound, InMemory, Proper;
    if ops != [] {
      SoundStep(docs, ops[0]);
      SoundRun(InMemory(docs, ops[0]).0, ops[1..]);
    }
  }

  /**
   * In every store any run of calls can reach: `done` is the number of page rows, so the guard that
   * keeps it from going negative never bites; purged documents are empty; identities are unique.
   */
  lemma EveryStoreIsSound(ops: seq<Op>)
    requires forall op :: op in ops ==> Proper(op)
    ensures StoreSound(RunMemory([], ops).0)
    ensures forall i :: 0 <= i < |RunMemory([], ops).0| ==>
              RunMemory([], ops).0[i].progress.done == |Sql.Indices(RunSql(Sql.EMPTY_DB, ops).0.pages, i + 1)|
  {
    hide DocumentSound, RunMemory, RunSql;
    SoundRun([], ops);
    StoresBehaveAlike(ops);
    var docs, db := RunMemory([], ops).0, RunSql(Sql.EMPTY_DB, ops).0;
    forall i | 0 <= i < |docs| ensures docs[i].progress.done == |Sql.Indices(db.pages, i + 1)| {
      CountIsRowCount(docs, db, i);
      DoneIsCount(docs, i);
    }
  }

  lemma DoneIsCount(docs: Docs, i: nat)
    requires StoreSound(docs) && i < |docs|
    ensures docs[i].progress.done == CountExisting(docs[i].pages)
  {
    assert DocumentSound(docs[i], i);
  }

  // ----- progress never overtakes its total, unless a caller rewrites the total -----

  predicate LeavesTotal(op: Op) {
    !op.OpUpdateMeta? && (op.OpCreate? ==> op.document.progress.total >= 0)
  }

  ghost predicate DoneWithinTotal(docs: Docs) {
    forall i :: 0 <= i < |docs| ==> docs[i].progress.done <= docs[i].progress.total
  }

  lemma {:induction false} DoneStaysWithinTotal(docs: Docs, ops: seq<Op>)
    requires DoneWithinTotal(docs)
    requires forall op :: op in ops ==> LeavesTotal(op)
    requires forall i :: 0 <= i < |docs| ==> docs[i].progress.total >= 0
    ensures DoneWithinTotal(RunMemory(docs, ops).0)
    decreases ops
  {
    if ops != [] {
      assert LeavesTotal(ops[0]);
      var docs' := InMemory(docs, ops[0]).0;
      assert DoneWithinTotal(docs') && forall i :: 0 <= i < |docs'| ==> docs'[i].progress.total >= 0;
      DoneStaysWithinTotal(docs', ops[1..]);
    }
  }

  // ----- documents last, and their statuses move along the graph -----

  predicate Restores(op: Op, id: int) {
    op.OpRestore? && op.id == id
  }

  /** One call may add a document; it moves the status of any other along the graph, or restores it. */
  lemma StatusFollowsGraph(docs: Docs, op: Op, i: nat)
    requires i < |docs|
    ensures |docs| <= |InMemory(docs, op).0|
    ensures SameIdentity(docs[i], InMemory(docs, op).0[i])
    ensures var from, to := docs[i].status, InMemory(docs, op).0[i].status;
            || to == from
            || CanTransition(from, to)
            || (Restores(op, i) && (from.Deleted? || from.Purged?) && to.Queued?)
  {
    hide Place, Unplace, FindIdentity, FirstMismatch, CountExisting;
  }

  /** In every run no document disappears or changes its identity. */
  lemma {:induction false} DocumentsLast(docs: Docs, ops: seq<Op>, i: nat)
    requires i < |docs|
    ensures i < |RunMemory(docs, ops).0| && SameIdentity(docs[i], RunMemory(docs, ops).0[i])
    decreases ops
  {
    hide InMemory;
    if ops != [] {
      StatusFollowsGraph(docs, ops[0], i);
      DocumentsLast(InMemory(docs, ops[0]).0, ops[1..], i);
    }
  }

  /** Out of deleted and purged only a restore of that document leads, in however many calls. */
  lemma {:induction false} OnlyRestoreRevives(docs: Docs, ops: seq<Op>, i: nat)
    requires i < |docs| && (docs[i].status.Deleted? || docs[i].status.Purged?)
    requires forall op :: op in ops ==> !Restores(op, i)
    ensures i < |RunMemory(docs, ops).0|
    ensures var to := RunMemory(docs, ops).0[i].status;
            to.Purged? || (to.Deleted? && docs[i].status.Deleted?)
    decreases ops
  {
    hide InMemory;
    if ops != [] {
      assert !Restores(ops[0], i);
      StatusFollowsGraph(docs, ops[0], i);
      OnlyRestoreRevives(InMemory(docs, ops[0]).0, ops[1..], i);
    }
  }
}
