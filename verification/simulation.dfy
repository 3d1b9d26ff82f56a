/**
 * The memory store and the SQLite store behave alike: a relation between a list of documents and
 * the two tables that every operation keeps, with success and failure at the same inputs.
 * Memory ids start at 0 and SQLite ids at 1, so document i is row i + 1.
 */
module Simulation {
  import opened Wrappers
  import opened Model
  import opened StoreSpec
  import Sql = SqliteSpec

  predicate RowMatches(d: Document, row: Sql.Row) {
    && d.source == row.source && d.sourceDocumentID == row.sourceDocumentID && d.sourceMeta == row.sourceMeta
    && d.title == row.title && d.storageBackend == row.storageBackend && d.status == row.status
    && d.progress == row.progress && d.error == row.error
    && d.createdAt == row.createdAt && d.updatedAt == row.updatedAt
  }

  ghost predicate DocumentMatches(d: Document, i: int, db: Sql.Db) {
    && d.id == i
    && i + 1 in db.rows
    && RowMatches(d, db.rows[i + 1])
    && Sql.IsSlice(d.pages, db.pages, i + 1)
  }

  ghost predicate PagesSound(docs: Docs, db: Sql.Db) {
    forall k :: k in db.pages ==> 1 <= k.0 <= |docs| && k.1 >= 0 && db.pages[k].key != ""
  }

  ghost predicate Sim(docs: Docs, db: Sql.Db) {
    && db.lastId == |docs|
    && (forall id :: id in db.rows ==> 1 <= id <= |docs|)
    && (forall i :: 0 <= i < |docs| ==> DocumentMatches(docs[i], i, db))
    && PagesSound(docs, db)
  }

  lemma FreshStoresAgree()
    ensures Sim([], Sql.EMPTY_DB)
  {
  }

  /** Under the relation, a slot of the slice is occupied exactly when its row exists. */
  lemma OccupiedIsRow(docs: Docs, db: Sql.Db, id: int, index: int)
    requires Sim(docs, db) && InRange(docs, id)
    ensures Occupied(docs[id].pages, index) <==> Sql.HasRow(db.pages, id + 1, index)
  {
    assert DocumentMatches(docs[id], id, db);
  }

  /** Two databases that agree outside one document. */
  ghost predicate SameElsewhere(db: Sql.Db, db': Sql.Db, id: int) {
    && db'.lastId == db.lastId && db'.rows.Keys == db.rows.Keys
    && (forall r :: r in db.rows && r != id ==> db'.rows[r] == db.rows[r])
    && (forall k :: k in db'.pages && k.0 != id ==> k in db.pages && db'.pages[k] == db.pages[k])
    && (forall k :: k in db.pages && k.0 != id ==> k in db'.pages)
    && (forall k :: k in db'.pages && k.0 == id ==> k.1 >= 0 && db'.pages[k].key != "")
  }

  lemma OthersUntouched(d: Document, i: int, db: Sql.Db, db': Sql.Db, id: int)
    requires SameElsewhere(db, db', id) && i + 1 != id
    requires DocumentMatches(d, i, db)
    ensures DocumentMatches(d, i, db')
  {
    var r := i + 1;
    assert forall j :: Sql.HasRow(db'.pages, r, j) <==> Sql.HasRow(db.pages, r, j);
  }

  /** Changing one document and its rows, with everything else untouched. */
  lemma SimUpdate(docs: Docs, db: Sql.Db, id: int, d: Document, db': Sql.Db)
    requires Sim(docs, db) && InRange(docs, id)
    requires SameElsewhere(db, db', id + 1)
    requires DocumentMatches(d, id, db')
    ensures Sim(docs[id := d], db')
  {
    hide DocumentMatches;
    var docs' := docs[id := d];
    forall i | 0 <= i < |docs'| ensures DocumentMatches(docs'[i], i, db') {
      if i != id {
        OthersUntouched(docs[i], i, db, db', id + 1);
      }
    }
  }

  lemma SimStatus(docs: Docs, db: Sql.Db, id: int, status: Status, now: int)
    requires Sim(docs, db) && InRange(docs, id)
    ensures Sim(docs[id := SetStatus(docs[id], status, now)],
                Sql.PutRow(db, id + 1, Sql.WithStatus(db.rows[id + 1], status, now)))
  {
    assert DocumentMatches(docs[id], id, db);
    SimUpdate(docs, db, id, SetStatus(docs[id], status, now),
              Sql.PutRow(db, id + 1, Sql.WithStatus(db.rows[id + 1], status, now)));
  }

  lemma LookupMatches(docs: Docs, db: Sql.Db, id: int)
    requires Sim(docs, db)
    ensures InRange(docs, id) <==> id + 1 in db.rows
    ensures InRange(docs, id) ==> RowMatches(docs[id], db.rows[id + 1])
    ensures Visible(docs, id) <==> Sql.Lookup(db, id + 1, true).Ok?
    ensures InRange(docs, id) <==> Sql.Lookup(db, id + 1, false).Ok?
  {
    if InRange(docs, id) {
      assert DocumentMatches(docs[id], id, db);
    }
  }

  lemma SliceOf(docs: Docs, db: Sql.Db, id: int)
    requires Sim(docs, db) && InRange(docs, id)
    ensures Sql.Slice(db.pages, id + 1) == docs[id].pages
  {
    assert DocumentMatches(docs[id], id, db);
    Sql.SliceIsSlice(db.pages, id + 1);
    Sql.SliceUnique(Sql.Slice(db.pages, id + 1), docs[id].pages, db.pages, id + 1);
  }

  // ----- one lemma per operation -----

  lemma GetAgrees(docs: Docs, db: Sql.Db, id: int)
    requires Sim(docs, db)
    ensures Get(docs, id).Ok? <==> Sql.Get(db, id + 1).Ok?
    ensures Get(docs, id).Ok? ==> Sql.Get(db, id + 1).value == Get(docs, id).value.(id := id + 1)
  {
    LookupMatches(docs, db, id);
    if Visible(docs, id) {
      SliceOf(docs, db, id);
    }
  }

  lemma DeleteAgrees(docs: Docs, db: Sql.Db, id: int, now: int)
    requires Sim(docs, db)
    ensures Delete(docs, id, now).result.Ok? <==> Sql.Delete(db, id + 1, now).result.Ok?
    ensures Sim(Delete(docs, id, now).docs, Sql.Delete(db, id + 1, now).db)
  {
    LookupMatches(docs, db, id);
    if InRange(docs, id) {
      SimStatus(docs, db, id, Deleted, now);
    }
  }

  lemma RestoreAgrees(docs: Docs, db: Sql.Db, id: int, now: int)
    requires Sim(docs, db)
    ensures Restore(docs, id, now).result.Ok? <==> Sql.Restore(db, id + 1, now).result.Ok?
    ensures Sim(Restore(docs, id, now).docs, Sql.Restore(db, id + 1, now).db)
  {
    LookupMatches(docs, db, id);
    if InRange(docs, id) {
      SimStatus(docs, db, id, Queued, now);
    }
  }

  lemma TransitionAgrees(docs: Docs, db: Sql.Db, id: int, status: Status, now: int)
    requires Sim(docs, db)
    ensures TransitionTo(docs, id, status, now).result.Ok? <==> Sql.TransitionTo(db, id + 1, status, now).result.Ok?
    ensures Sim(TransitionTo(docs, id, status, now).docs, Sql.TransitionTo(db, id + 1, status, now).db)
  {
    LookupMatches(docs, db, id);
    if InRange(docs, id) {
      SliceOf(docs, db, id);
      SimStatus(docs, db, id, status, now);
    }
  }

  lemma UpdateMetaAgrees(docs: Docs, db: Sql.Db, id: int, fn: Callback, now: int)
    requires Sim(docs, db)
    ensures UpdateMeta(docs, id, fn, now).result.Ok? <==> Sql.UpdateMeta(db, id + 1, fn, now).result.Ok?
    ensures Sim(UpdateMeta(docs, id, fn, now).docs, Sql.UpdateMeta(db, id + 1, fn, now).db)
  {
    LookupMatches(docs, db, id);
    if Visible(docs, id) {
      assert ExtractMeta(docs[id]) == Sql.RowMeta(db.rows[id + 1]);
      var r := UpdateMeta(docs, id, fn, now);
      if r.result.Ok? {
        assert DocumentMatches(docs[id], id, db);
        SimUpdate(docs, db, id, r.result.value, Sql.UpdateMeta(db, id + 1, fn, now).db);
      }
    }
  }

  lemma ResetPagesAgrees(docs: Docs, db: Sql.Db, id: int, now: int)
    requires Sim(docs, db)
    ensures ResetPages(docs, id, now).result.Ok? <==> Sql.ResetPages(db, id + 1, now).result.Ok?
    ensures Sim(ResetPages(docs, id, now).docs, Sql.ResetPages(db, id + 1, now).db)
  {
    LookupMatches(docs, db, id);
    if Visible(docs, id) {
      var r, c := ResetPages(docs, id, now), Sql.ResetPages(db, id + 1, now);
      assert c.db.pages == Sql.DeletePages(db.pages, id + 1);
      SimUpdate(docs, db, id, r.result.value, c.db);
    }
  }

  lemma PurgeAgrees(docs: Docs, db: Sql.Db, id: int, now: int)
    requires Sim(docs, db)
    ensures Purge(docs, id, now).result.Ok? <==> Sql.Purge(db, id + 1, now).result.Ok?
    ensures Purge(docs, id, now).result.Ok? ==> Purge(docs, id, now).result == Sql.Purge(db, id + 1, now).result
    ensures Sim(Purge(docs, id, now).docs, Sql.Purge(db, id + 1, now).db)
  {
    LookupMatches(docs, db, id);
    if InRange(docs, id) && CanTransition(docs[id].status, Purged) {
      var c := Sql.Purge(db, id + 1, now);
      assert c.db.pages == Sql.DeletePages(db.pages, id + 1);
      SimUpdate(docs, db, id, Emptied(docs[id], now), c.db);
      CountIsRowCount(docs, db, id);
    }
  }

  lemma AddPageAgrees(docs: Docs, db: Sql.Db, id: int, page: Page, now: int)
    requires Sim(docs, db) && page.key != ""
    ensures AddPage(docs, id, page, now).result.Ok? <==> Sql.AddPage(db, id + 1, page, now).result.Ok?
    ensures Sim(AddPage(docs, id, page, now).docs, Sql.AddPage(db, id + 1, page, now).db)
  {
    hide Place, Bump, Sql.IsSlice;
    LookupMatches(docs, db, id);
    if Visible(docs, id) && page.index >= 0 {
      OccupiedIsRow(docs, db, id, page.index);
      if !Occupied(docs[id].pages, page.index) {
        var d := WithPage(docs[id], page, now);
        var db' := Sql.AddPage(db, id + 1, page, now).db;
        assert db'.pages == db.pages[(id + 1, page.index) := Sql.PageRowOf(page)];
        PlaceIsSlice(docs[id].pages, db.pages, id + 1, page);
        SimUpdate(docs, db, id, d, db');
      }
    }
  }

  lemma PlaceIsSlice(pages: seq<Page>, table: Sql.PageTable, id: int, page: Page)
    requires Sql.IsSlice(pages, table, id) && page.index >= 0
    requires !Sql.HasRow(table, id, page.index)
    ensures Sql.IsSlice(Place(pages, page), table[(id, page.index) := Sql.PageRowOf(page)], id)
  {
    var table' := table[(id, page.index) := Sql.PageRowOf(page)];
    var pages' := Place(pages, page);
    assert forall j :: Sql.HasRow(table', id, j) <==> j == page.index || Sql.HasRow(table, id, j);
    forall j | 0 <= j < |pages'|
      ensures pages'[j] == if Sql.HasRow(table', id, j) then Sql.PageOf(j, table'[(id, j)]) else EMPTY_PAGE
    {
      if j >= |pages| && j != page.index {
        assert !Sql.HasRow(table, id, j);
      }
    }
  }

  lemma RemovePageAgrees(docs: Docs, db: Sql.Db, id: int, index: int, now: int)
    requires Sim(docs, db)
    ensures RemovePage(docs, id, index, now).result.Ok? <==> Sql.RemovePage(db, id + 1, index, now).result.Ok?
    ensures Sim(RemovePage(docs, id, index, now).docs, Sql.RemovePage(db, id + 1, index, now).db)
  {
    hide Unplace, CountExisting;
    LookupMatches(docs, db, id);
    if Visible(docs, id) {
      OccupiedIsRow(docs, db, id, index);
      if Occupied(docs[id].pages, index) {
        var db' := Sql.RemovePage(db, id + 1, index, now).db;
        assert db'.pages == db.pages - {(id + 1, index)};
        assert DocumentMatches(docs[id], id, db);
        UnplaceIsSlice(docs[id].pages, db.pages, id + 1, index);
        SimUpdate(docs, db, id, WithoutPage(docs[id], index, now), db');
      }
    }
  }

  lemma UnplaceIsSlice(pages: seq<Page>, table: Sql.PageTable, id: int, index: nat)
    requires Sql.IsSlice(pages, table, id) && index < |pages|
    requires forall j :: Sql.HasRow(table, id, j) ==> table[(id, j)].key != ""
    ensures Sql.IsSlice(Unplace(pages, index), table - {(id, index)}, id)
  {
    var table' := table - {(id, index)};
    var holed := pages[index := EMPTY_PAGE];
    var pages' := Unplace(pages, index);
    assert forall j :: Sql.HasRow(table', id, j) <==> j != index && Sql.HasRow(table, id, j);
    assert forall j :: 0 <= j < |holed| ==> (SlotExists(holed[j], j) <==> Sql.HasRow(table', id, j));
  }

  // ----- creation -----

  /** Both stores find the same document for an identity. */
  lemma {:induction false} IdentityAgrees(docs: Docs, db: Sql.Db, source: string, sourceDocumentID: string, i: nat)
    requires Sim(docs, db) && i <= |docs|
    ensures FindIdentity(docs[i..], source, sourceDocumentID)
            == match Sql.RowWithIdentity(db, source, sourceDocumentID, i + 1)
               case Some(id) => if 1 <= id <= |docs| then Some(docs[id - 1]) else None
               case None => None
    ensures var id := Sql.RowWithIdentity(db, source, sourceDocumentID, i + 1);
            id.Some? ==> 1 <= id.value <= |docs|
    decreases |docs| - i
  {
    hide Sql.IsSlice;
    if i < |docs| {
      assert docs[i..][0] == docs[i] && docs[i..][1..] == docs[i + 1..];
      assert DocumentMatches(docs[i], i, db);
      IdentityAgrees(docs, db, source, sourceDocumentID, i + 1);
    }
  }

  /** The tables after the first i pages of a new document are in. */
  lemma {:induction false} AddPagesAgree(docs: Docs, db: Sql.Db, document: Document, i: nat, now: int)
    requires i <= |document.pages|
    requires forall j :: 0 <= j < i ==> document.pages[j].index == j
    requires forall p :: p in document.pages ==> p.key != ""
    requires Sim(docs + [Fresh(document.(pages := document.pages[..i]), |docs|, now)], db)
    ensures var r := Sql.AddPagesTx(db, |docs| + 1, document.pages, i, now);
            && (r.Ok? <==> FirstMismatch(document.pages, i).None?)
            && (r.Ok? ==> Sim(docs + [Fresh(document, |docs|, now)], r.value))
    decreases |document.pages| - i
  {
    hide Sim, Sql.AddPageTx;
    var pages := document.pages;
    if i == |pages| {
      assert document.(pages := pages[..i]) == document;
    } else if pages[i].index == i {
      var id := |docs|;
      var d := Fresh(document.(pages := pages[..i]), id, now);
      var all := docs + [d];
      AddPageAgrees(all, db, id, pages[i], now);
      assert Place(pages[..i], pages[i]) == pages[..i + 1];
      var d' := Fresh(document.(pages := pages[..i + 1]), id, now);
      assert WithPage(d, pages[i], now) == d';
      assert all[id := d'] == docs + [d'];
      AddPagesAgree(docs, Sql.AddPage(db, id + 1, pages[i], now).db, document, i + 1, now);
    }
  }

  lemma SimInsert(docs: Docs, db: Sql.Db, document: Document, now: int)
    requires Sim(docs, db)
    ensures var id := db.lastId + 1;
            Sim(docs + [Fresh(document.(pages := []), |docs|, now)],
                Sql.Db(db.rows[id := Sql.NewRow(document, now)], db.pages, id))
  {
    var id := db.lastId + 1;
    var d := Fresh(document.(pages := []), |docs|, now);
    var db' := Sql.Db(db.rows[id := Sql.NewRow(document, now)], db.pages, id);
    var docs' := docs + [d];
    forall i | 0 <= i < |docs'| ensures DocumentMatches(docs'[i], i, db') {
      if i < |docs| {
        assert DocumentMatches(docs[i], i, db);
      } else {
        assert forall j :: !Sql.HasRow(db.pages, id, j);
      }
    }
  }

  lemma CreateAgrees(docs: Docs, db: Sql.Db, document: Document, now: int)
    requires Sim(docs, db)
    requires forall p :: p in document.pages ==> p.key != ""
    ensures Create(docs, document, now).result.Ok? <==> Sql.Create(db, document, now).result.Ok?
    ensures Create(docs, document, now).result.Ok?
            ==> Sql.Create(db, document, now).result.value == Create(docs, document, now).result.value.id + 1
    ensures var memory, sql := Create(docs, document, now).result, Sql.Create(db, document, now).result;
            memory.Err? && memory.error.AlreadyExists?
            ==> sql == Err(AlreadyExists(memory.error.existing.(id := memory.error.existing.id + 1)))
    ensures Sim(Create(docs, document, now).docs, Sql.Create(db, document, now).db)
  {
    IdentityAgrees(docs, db, document.source, document.sourceDocumentID, 0);
    assert docs[0..] == docs;
    var taken := Sql.RowWithIdentity(db, document.source, document.sourceDocumentID, 1);
    if taken.Some? {
      SliceOf(docs, db, taken.value - 1);
      assert DocumentMatches(docs[taken.value - 1], taken.value - 1, db);
    } else {
      var id := db.lastId + 1;
      var inserted := Sql.Db(db.rows[id := Sql.NewRow(document, now)], db.pages, id);
      SimInsert(docs, db, document, now);
      assert document.pages[..0] == [];
      AddPagesAgree(docs, inserted, document, 0, now);
    }
  }

  // ----- counting -----

  lemma {:induction false} CountIsCardinality(pages: seq<Page>)
    ensures CountExisting(pages) == |set j | 0 <= j < |pages| && SlotExists(pages[j], j)|
  {
    var s := set j | 0 <= j < |pages| && SlotExists(pages[j], j);
    if pages != [] {
      var n := |pages| - 1;
      var front := pages[..n];
      CountIsCardinality(front);
      var t := set j | 0 <= j < |front| && SlotExists(front[j], j);
      if SlotExists(pages[n], n) {
        assert s == t + {n};
      } else {
        assert s == t;
      }
    } else {
      assert s == {};
    }
  }

  /** The existing slots of a document are as many as its page rows. */
  lemma CountIsRowCount(docs: Docs, db: Sql.Db, id: int)
    requires Sim(docs, db) && InRange(docs, id)
    ensures CountExisting(docs[id].pages) == |Sql.Indices(db.pages, id + 1)|
  {
    var pages := docs[id].pages;
    CountIsCardinality(pages);
    assert DocumentMatches(docs[id], id, db);
    var s := set j | 0 <= j < |pages| && SlotExists(pages[j], j);
    forall j ensures j in s <==> j in Sql.Indices(db.pages, id + 1) {
      OccupiedIsRow(docs, db, id, j);
      if Sql.HasRow(db.pages, id + 1, j) {
        assert (id + 1, j).0 == id + 1;
      }
    }
    assert s == Sql.Indices(db.pages, id + 1);
  }
}
