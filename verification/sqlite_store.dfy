/**
 * The SQLite document store. Each method copies the tables into a transaction, works on the copy, and
 * writes it back on commit; returning early is the rollback.
 */
module SqliteStores {
  import opened Wrappers
  import opened Model
  import StoreSpec
  import Queries
  import MemoryStores
  import opened SqliteSpec

  type StoreError = StoreSpec.StoreError

  /** Pages are only ever added under a non-negative index. */
  ghost predicate Sound(pages: PageTable) {
    forall k :: k in pages ==> k.1 >= 0
  }

  function RowOf(d: Document): Row {
    Row(d.source, d.sourceDocumentID, d.sourceMeta, d.title, d.storageBackend, d.status, d.progress, d.error,
        d.createdAt, d.updatedAt)
  }

  class SQLiteStore {
    var db: Db

    constructor ()
      ensures db == EMPTY_DB
    {
      db := EMPTY_DB;
    }

    method Create(document: Document, now: int) returns (r: Outcome<int, StoreError>)
      requires Sound(db.pages)
      modifies this
      ensures Sound(db.pages)
      ensures Commit(db, r) == SqliteSpec.Create(old(db), document, now)
    {
      var tx := db;
      var taken := RowWithIdentity(tx, document.source, document.sourceDocumentID, 1);
      RowWithIdentityExists(tx, document.source, document.sourceDocumentID, 1);
      if taken.Some? {
        var existing := GetIn(tx, taken.value, false);
        assert existing.Ok?;
        return Err(StoreSpec.AlreadyExists(existing.value));
      }
      var id := tx.lastId + 1;
      tx := Db(tx.rows[id := NewRow(document, now)], tx.pages, id);
      ghost var inserted := tx;
      for i := 0 to |document.pages|
        invariant db == old(db) && Sound(tx.pages)
        invariant AddPagesTx(tx, id, document.pages, i, now) == AddPagesTx(inserted, id, document.pages, 0, now)
      {
        var page := document.pages[i];
        if i != page.index {
          assert AddPagesTx(tx, id, document.pages, i, now) == Err(StoreSpec.PageIndexMismatch(i, page.index));
          return Err(StoreSpec.PageIndexMismatch(i, page.index));
        }
        var added := AddPageIn(tx, id, page, now);
        if added.Err? {
          return Err(added.error);
        }
        tx := added.value;
      }
      db := tx;
      return Ok(id);
    }

    method Get(id: int) returns (r: Outcome<Document, StoreError>)
      requires Sound(db.pages)
      ensures r == SqliteSpec.Get(db, id)
    {
      r := GetIn(db, id, true);
    }

    /** Ordering by a timestamp compares formatted text and is not modelled. */
    method Query(q: Queries.DocumentQuery) returns (result: seq<Document>)
      requires Sound(db.pages) && db.lastId >= 0
      requires Queries.Wellformed(q) && q.orderBy == "id"
      ensures result == Documents(db, SelectIds(db, q))
    {
      var ids := SelectIds(db, q);
      result := [];
      for i := 0 to |ids|
        invariant result == Documents(db, ids[..i])
      {
        var id := ids[i];
        var row := db.rows[id];
        var pages := ListPages(db.pages, id);
        assert ids[..i + 1][..i] == ids[..i];
        result := result + [Document(id, row.source, row.sourceDocumentID, row.sourceMeta, row.title,
                                     row.storageBackend, row.progress, row.error, pages, row.createdAt,
                                     row.updatedAt, row.status)];
      }
      assert ids[..|ids|] == ids;
    }

    method Delete(id: int, now: int) returns (r: Outcome<(), StoreError>)
      requires Sound(db.pages)
      modifies this
      ensures Sound(db.pages)
      ensures Commit(db, r) == SqliteSpec.Delete(old(db), id, now)
    {
      var tx := db;
      var got := GetIn(tx, id, true);
      if got.Err? {
        return Err(got.error);
      }
      var document := got.value;
      if !CanTransition(document.status, Deleted) {
        return Err(StoreSpec.InvalidStatusTransition(document.status, Deleted));
      }
      document := document.(status := Deleted, updatedAt := now);
      tx := PutRow(tx, id, RowOf(document));
      db := tx;
      return Ok(());
    }

    method UpdateMeta(id: int, fn: StoreSpec.Callback, now: int) returns (r: Outcome<(), StoreError>)
      requires Sound(db.pages)
      modifies this
      ensures Sound(db.pages)
      ensures Commit(db, r) == SqliteSpec.UpdateMeta(old(db), id, fn, now)
    {
      var updated := UpdateMetaIn(db, id, fn, now);
      if updated.Err? {
        return Err(updated.error);
      }
      db := updated.value;
      return Ok(());
    }

    method AddPage(id: int, page: Page, now: int) returns (r: Outcome<(), StoreError>)
      requires Sound(db.pages)
      modifies this
      ensures Sound(db.pages)
      ensures Commit(db, r) == SqliteSpec.AddPage(old(db), id, page, now)
    {
      var added := AddPageIn(db, id, page, now);
      if added.Err? {
        return Err(added.error);
      }
      db := added.value;
      return Ok(());
    }

    method RemovePage(id: int, pageIndex: int, now: int) returns (r: Outcome<(), StoreError>)
      requires Sound(db.pages)
      modifies this
      ensures Sound(db.pages)
      ensures Commit(db, r) == SqliteSpec.RemovePage(old(db), id, pageIndex, now)
    {
      var tx := db;
      var affected := if (id, pageIndex) in tx.pages then 1 else 0;
      tx := tx.(pages := tx.pages - {(id, pageIndex)});
      if affected == 0 {
        return Err(StoreSpec.PageNotFound);
      }
      var updated := UpdateMetaIn(tx, id, DropDone, now);
      if updated.Err? {
        return Err(updated.error);
      }
      db := updated.value;
      return Ok(());
    }

    method Purge(id: int, now: int) returns (r: Outcome<nat, StoreError>)
      requires Sound(db.pages)
      modifies this
      ensures Sound(db.pages)
      ensures Commit(db, r) == SqliteSpec.Purge(old(db), id, now)
    {
      var tx := db;
      var got := GetIn(tx, id, false);
      if got.Err? {
        return Err(got.error);
      }
      var document := got.value;
      if !CanTransition(document.status, Purged) {
        return Err(StoreSpec.InvalidStatusTransition(document.status, Purged));
      }
      var affected := |Indices(tx.pages, id)|;
      tx := tx.(pages := DeletePages(tx.pages, id));
      document := document.(pages := [], progress := Progress(0, 0), status := Purged, updatedAt := now);
      tx := PutRow(tx, id, RowOf(document));
      db := tx;
      return Ok(affected);
    }

    method Restore(id: int, now: int) returns (r: Outcome<(), StoreError>)
      requires Sound(db.pages)
      modifies this
      ensures Sound(db.pages)
      ensures Commit(db, r) == SqliteSpec.Restore(old(db), id, now)
    {
      var tx := db;
      var got := GetIn(tx, id, false);
      if got.Err? {
        return Err(got.error);
      }
      var document := got.value;
      match document.status {
        case Deleted | Purged =>
          document := document.(status := Queued, updatedAt := now);
        case _ =>
          return Err(StoreSpec.InvalidStatusTransition(document.status, Queued));
      }
      tx := PutRow(tx, id, RowOf(document));
      db := tx;
      return Ok(());
    }

    method ResetPages(id: int, now: int) returns (r: Outcome<(), StoreError>)
      requires Sound(db.pages)
      modifies this
      ensures Sound(db.pages)
      ensures Commit(db, r) == SqliteSpec.ResetPages(old(db), id, now)
    {
      var tx := db;
      var got := GetIn(tx, id, true);
      if got.Err? {
        return Err(got.error);
      }
      tx := tx.(pages := DeletePages(tx.pages, id));
      var updated := UpdateMetaIn(tx, id, ZeroDone, now);
      if updated.Err? {
        return Err(updated.error);
      }
      db := updated.value;
      return Ok(());
    }

    method TransitionTo(id: int, status: Status, now: int) returns (r: Outcome<(), StoreError>)
      requires Sound(db.pages)
      modifies this
      ensures Sound(db.pages)
      ensures Commit(db, r) == SqliteSpec.TransitionTo(old(db), id, status, now)
    {
      var tx := db;
      var got := GetIn(tx, id, false);
      if got.Err? {
        return Err(got.error);
      }
      var document := got.value;
      if !CanTransition(document.status, status) {
        return Err(StoreSpec.InvalidStatusTransition(document.status, status));
      }
      if status == Purged {
        var existing := MemoryStores.CountExistingPages(document.pages);
        if document.progress.done != 0 || document.progress.total != 0 || existing != 0 {
          return Err(StoreSpec.NotCleared(document.progress, existing));
        }
      }
      document := document.(status := status, updatedAt := now);
      tx := PutRow(tx, id, RowOf(document));
      db := tx;
      return Ok(());
    }
  }

  // ----- steps inside a transaction -----

  method GetIn(tx: Db, id: int, visibleOnly: bool) returns (r: Outcome<Document, StoreError>)
    requires Sound(tx.pages)
    ensures Lookup(tx, id, visibleOnly).Err? ==> r == Err(Lookup(tx, id, visibleOnly).error)
    ensures Lookup(tx, id, visibleOnly).Ok? ==> r == Ok(ToDocument(tx, id, Lookup(tx, id, visibleOnly).value))
  {
    var found := Lookup(tx, id, visibleOnly);
    if found.Err? {
      return Err(found.error);
    }
    var row := found.value;
    var pages := ListPages(tx.pages, id);
    return Ok(Document(id, row.source, row.sourceDocumentID, row.sourceMeta, row.title, row.storageBackend,
                       row.progress, row.error, pages, row.createdAt, row.updatedAt, row.status));
  }

  method UpdateMetaIn(tx: Db, id: int, fn: StoreSpec.Callback, now: int) returns (r: Outcome<Db, StoreError>)
    requires Sound(tx.pages)
    ensures r == UpdateMetaTx(tx, id, fn, now)
  {
    var got := GetIn(tx, id, true);
    if got.Err? {
      return Err(got.error);
    }
    var document := got.value;
    var meta := fn(ExtractMeta(document));
    if meta.Err? {
      return Err(StoreSpec.CallbackFailed(meta.error));
    }
    document := FillMeta(document, meta.value);
    document := document.(updatedAt := now);
    return Ok(PutRow(tx, id, RowOf(document)));
  }

  method AddPageIn(tx: Db, id: int, page: Page, now: int) returns (r: Outcome<Db, StoreError>)
    requires Sound(tx.pages)
    ensures r == AddPageTx(tx, id, page, now)
  {
    if page.index < 0 {
      return Err(StoreSpec.InvalidPageIndex(page.index));
    }
    if (id, page.index) in tx.pages {
      return Err(StoreSpec.PageAlreadyExists(id, page.index));
    }
    var updated := UpdateMetaIn(tx, id, BumpDone, now);
    if updated.Err? {
      return Err(updated.error);
    }
    var tx' := updated.value;
    return Ok(tx'.(pages := tx'.pages[(id, page.index) := PageRowOf(page)]));
  }

  // ----- rebuilding the page slice -----

  /** The result set of the page query: the rows of one document, ascending by page index. */
  ghost predicate IsResultSet(rows: seq<Page>, pages: PageTable, id: int) {
    && (forall i, j :: 0 <= i < j < |rows| ==> rows[i].index < rows[j].index)
    && (forall p :: p in rows ==> HasRow(pages, id, p.index) && p == PageOf(p.index, pages[(id, p.index)]))
    && (forall j :: HasRow(pages, id, j) ==> exists p :: p in rows && p.index == j)
  }

  /** What the database engine does for ORDER BY page_index. */
  method SelectPages(pages: PageTable, id: int) returns (rows: seq<Page>)
    ensures IsResultSet(rows, pages, id)
  {
    rows := [];
    var todo := Indices(pages, id);
    assert forall j :: HasRow(pages, id, j) ==> j in todo;
    while todo != {}
      invariant todo <= Indices(pages, id)
      invariant forall i, j :: 0 <= i < j < |rows| ==> rows[i].index < rows[j].index
      invariant forall p :: p in rows ==> HasRow(pages, id, p.index) && p == PageOf(p.index, pages[(id, p.index)])
      invariant forall p, j :: p in rows && j in todo ==> p.index < j
      invariant forall j :: HasRow(pages, id, j) ==> j in todo || exists p :: p in rows && p.index == j
      decreases |todo|
    {
      var least := Least(todo);
      var page := PageOf(least, pages[(id, least)]);
      ghost var before := rows;
      rows := rows + [page];
      todo := todo - {least};
      assert forall p :: p in before ==> p in rows;
      assert page in rows;
    }
  }

  method Least(s: set<int>) returns (m: int)
    requires s != {}
    ensures m in s && forall x :: x in s ==> m <= x
  {
    Inhabited(s);
    m :| m in s;
    var rest := s - {m};
    while rest != {}
      invariant rest <= s && m in s
      invariant forall x :: x in s ==> x in rest || m <= x
      decreases |rest|
    {
      Inhabited(rest);
      var x :| x in rest;
      rest := rest - {x};
      if x < m {
        m := x;
      }
    }
  }

  /** The slice holds the first n rows, each at its own index, and holes elsewhere. */
  ghost predicate Holds(pages: seq<Page>, rows: seq<Page>, n: nat, table: PageTable, id: int)
    requires n <= |rows|
  {
    && (forall k :: 0 <= k < n ==> 0 <= rows[k].index < |pages| && pages[rows[k].index] == rows[k])
    && (forall j :: 0 <= j < |pages| ==>
          pages[j] == EMPTY_PAGE || (HasRow(table, id, j) && pages[j] == PageOf(j, table[(id, j)])))
    && (pages != [] ==> n > 0 && |pages| == rows[n - 1].index + 1)
  }

  lemma HoldsAll(pages: seq<Page>, rows: seq<Page>, table: PageTable, id: int)
    requires Sound(table) && IsResultSet(rows, table, id) && Holds(pages, rows, |rows|, table, id)
    ensures pages == Slice(table, id)
  {
    forall j | HasRow(table, id, j) ensures 0 <= j < |pages| && pages[j] == PageOf(j, table[(id, j)]) {
      var page :| page in rows && page.index == j;
      var k :| 0 <= k < |rows| && rows[k] == page;
    }
    assert pages != [] ==> rows[|rows| - 1] in rows;
    SliceIsSlice(table, id);
    SliceUnique(pages, Slice(table, id), table, id);
  }

  lemma HoldsNext(pages: seq<Page>, rows: seq<Page>, n: nat, table: PageTable, id: int)
    requires n < |rows| && Sound(table) && IsResultSet(rows, table, id) && Holds(pages, rows, n, table, id)
    ensures |pages| <= rows[n].index
    ensures Holds(Place(pages, rows[n]), rows, n + 1, table, id)
  {
    var page := rows[n];
    assert page in rows && HasRow(table, id, page.index) && (id, page.index).1 >= 0;
    var pages' := Place(pages, page);
    assert |pages'| == page.index + 1;
  }

  /** Loads the page rows into a slice addressed by page index, leaving gaps empty. */
  method ListPages(table: PageTable, id: int) returns (pages: seq<Page>)
    requires Sound(table)
    ensures pages == Slice(table, id)
  {
    var rows := SelectPages(table, id);
    pages := [];
    for i := 0 to |rows|
      invariant Holds(pages, rows, i, table, id)
    {
      var page := rows[i];
      HoldsNext(pages, rows, i, table, id);
      ghost var before := pages;
      if page.index >= |pages| {
        pages := pages + seq(page.index - |pages| + 1, k => EMPTY_PAGE);
      }
      pages := pages[page.index := page];
      assert pages == Place(before, page);
    }
    HoldsAll(pages, rows, table, id);
  }
}
