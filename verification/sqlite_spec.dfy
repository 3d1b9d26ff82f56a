/**
 * The document store over two tables: one row per document, one row per page.
 * A transaction is a function from the tables to the tables; a failed one leaves them unchanged.
 */
module SqliteSpec {
  import opened Wrappers
  import opened Model
  import opened StoreSpec
  import Queries

  datatype Row = Row(
    source: string, sourceDocumentID: string, sourceMeta: string, title: string, storageBackend: string,
    status: Status, progress: Progress, error: string, createdAt: int, updatedAt: int)

  datatype PageRow = PageRow(key: string, contentType: string, size: int, hash: string)

  type PageTable = map<(int, int), PageRow>

  /** `lastId` is the auto-increment counter of the documents table. */
  datatype Db = Db(rows: map<int, Row>, pages: PageTable, lastId: int)

  const EMPTY_DB := Db(map[], map[], 0)

  datatype Commit<+T> = Commit(db: Db, result: Outcome<T, StoreError>)

  function PageOf(index: int, row: PageRow): Page {
    Page(index, row.key, row.contentType, row.size, row.hash)
  }

  function PageRowOf(page: Page): PageRow {
    PageRow(page.key, page.contentType, page.size, page.hash)
  }

  predicate HasRow(pages: PageTable, id: int, index: int) {
    (id, index) in pages
  }

  function Indices(pages: PageTable, id: int): set<int> {
    set k | k in pages && k.0 == id :: k.1
  }

  lemma Inhabited(s: set<int>)
    ensures s == {} || exists x :: x in s
  {
    if !exists x :: x in s {
      assert s == {};
    }
  }

  ghost function MaxOf(s: set<int>): (m: int)
    requires s != {}
    ensures m in s && forall x :: x in s ==> x <= m
  {
    Inhabited(s);
    var x :| x in s;
    if s == {x} then x
    else
      assert s == {x} + (s - {x});
      var m := MaxOf(s - {x});
      if x < m then m else x
  }

  /** The slice that loading the page rows of a document rebuilds, holes included. */
  ghost predicate IsSlice(slice: seq<Page>, pages: PageTable, id: int) {
    && (forall j :: 0 <= j < |slice|
          ==> slice[j] == if HasRow(pages, id, j) then PageOf(j, pages[(id, j)]) else EMPTY_PAGE)
    && (slice != [] ==> HasRow(pages, id, |slice| - 1))
    && (forall j :: HasRow(pages, id, j) && j >= 0 ==> j < |slice|)
  }

  function SliceUpTo(pages: PageTable, id: int, n: nat): seq<Page> {
    seq(n, j => if HasRow(pages, id, j) then PageOf(j, pages[(id, j)]) else EMPTY_PAGE)
  }

  ghost function Slice(pages: PageTable, id: int): seq<Page> {
    var indices := Indices(pages, id);
    if indices == {} || MaxOf(indices) < 0 then [] else SliceUpTo(pages, id, MaxOf(indices) + 1)
  }

  lemma SliceIsSlice(pages: PageTable, id: int)
    ensures IsSlice(Slice(pages, id), pages, id)
  {
    assert forall j :: HasRow(pages, id, j) ==> j in Indices(pages, id);
  }

  lemma SliceUnique(s: seq<Page>, t: seq<Page>, pages: PageTable, id: int)
    requires IsSlice(s, pages, id) && IsSlice(t, pages, id)
    ensures s == t
  {
    assert |s| == |t|;
  }

  // ----- reading -----

  function Lookup(db: Db, id: int, visibleOnly: bool): Outcome<Row, StoreError> {
    if id in db.rows && (visibleOnly ==> IsVisible(db.rows[id].status)) then Ok(db.rows[id]) else Err(NotFound)
  }

  ghost function ToDocument(db: Db, id: int, row: Row): Document {
    Document(id, row.source, row.sourceDocumentID, row.sourceMeta, row.title, row.storageBackend, row.progress,
             row.error, Slice(db.pages, id), row.createdAt, row.updatedAt, row.status)
  }

  ghost function Get(db: Db, id: int): Outcome<Document, StoreError> {
    var row := Lookup(db, id, true);
    if row.Err? then Err(row.error) else Ok(ToDocument(db, id, row.value))
  }

  predicate HasIdentity(row: Row, source: string, sourceDocumentID: string) {
    row.source == source && row.sourceDocumentID == sourceDocumentID
  }

  /** The first row from an id on that has the identity; the column pair is unique, so there is at most one. */
  function RowWithIdentity(db: Db, source: string, sourceDocumentID: string, from: int): Option<int>
    decreases db.lastId - from
  {
    if from > db.lastId then None
    else if from in db.rows && HasIdentity(db.rows[from], source, sourceDocumentID) then Some(from)
    else RowWithIdentity(db, source, sourceDocumentID, from + 1)
  }

  lemma {:induction false} RowWithIdentityExists(db: Db, source: string, sourceDocumentID: string, from: int)
    ensures var id := RowWithIdentity(db, source, sourceDocumentID, from);
            id.Some? ==> id.value in db.rows && HasIdentity(db.rows[id.value], source, sourceDocumentID)
    decreases db.lastId - from
  {
    if from <= db.lastId {
      RowWithIdentityExists(db, source, sourceDocumentID, from + 1);
    }
  }

  predicate MatchesRow(q: Queries.DocumentQuery, row: Row)
    requires Queries.Wellformed(q)
  {
    && (if q.status.Some? then row.status == q.status.value else IsVisible(row.status))
    && (q.source.Some? ==> row.source == q.source.value && row.sourceDocumentID == q.sourceDocumentID.value)
  }

  /** The ids up to n whose rows pass the WHERE clause, ascending. */
  function AscendingIds(db: Db, q: Queries.DocumentQuery, n: nat): (ids: seq<int>)
    requires Queries.Wellformed(q)
    ensures forall id :: id in ids ==> id in db.rows && id <= n
  {
    if n == 0 then []
    else AscendingIds(db, q, n - 1) + if n in db.rows && MatchesRow(q, db.rows[n]) then [n] else []
  }

  function Reverse<T(!new)>(s: seq<T>): (r: seq<T>)
    ensures |r| == |s|
    ensures forall x :: x in r <==> x in s
  {
    if s == [] then [] else [s[|s| - 1]] + Reverse(s[..|s| - 1])
  }

  /** ORDER BY id, LIMIT and OFFSET; a limit that is not positive means none. */
  function SelectIds(db: Db, q: Queries.DocumentQuery): (ids: seq<int>)
    requires Queries.Wellformed(q) && db.lastId >= 0
    ensures forall id :: id in ids ==> id in db.rows
  {
    var ascending := AscendingIds(db, q, db.lastId);
    var ordered := if q.order == "DESC" then Reverse(ascending) else ascending;
    var rest :=
      if q.offset <= 0 then ordered
      else if q.offset <= |ordered| then ordered[q.offset..]
      else [];
    if q.limit > 0 && q.limit < |rest| then rest[..q.limit] else rest
  }

  ghost function Documents(db: Db, ids: seq<int>): (r: seq<Document>)
    requires forall id :: id in ids ==> id in db.rows
    ensures |r| == |ids|
  {
    if ids == [] then []
    else Documents(db, ids[..|ids| - 1]) + [ToDocument(db, ids[|ids| - 1], db.rows[ids[|ids| - 1]])]
  }

  // ----- writing -----

  function RowMeta(row: Row): DocumentMeta {
    DocumentMeta(row.sourceMeta, row.title, row.storageBackend, row.progress, row.error)
  }

  function FillRow(row: Row, meta: DocumentMeta): Row {
    row.(sourceMeta := meta.sourceMeta, title := meta.title, storageBackend := meta.storageBackend,
         progress := meta.progress, error := meta.error)
  }

  function PutRow(db: Db, id: int, row: Row): Db {
    db.(rows := db.rows[id := row])
  }

  function UpdateMetaTx(db: Db, id: int, fn: Callback, now: int): Outcome<Db, StoreError> {
    var row := Lookup(db, id, true);
    if row.Err? then Err(row.error)
    else
      var meta := fn(RowMeta(row.value));
      if meta.Err? then Err(CallbackFailed(meta.error))
      else Ok(PutRow(db, id, FillRow(row.value, meta.value).(updatedAt := now)))
  }

  function BumpDone(meta: DocumentMeta): Outcome<DocumentMeta, string> {
    Ok(meta.(progress := Bump(meta.progress)))
  }

  function DropDone(meta: DocumentMeta): Outcome<DocumentMeta, string> {
    Ok(if meta.progress.done > 0 then meta.(progress := meta.progress.(done := meta.progress.done - 1)) else meta)
  }

  function ZeroDone(meta: DocumentMeta): Outcome<DocumentMeta, string> {
    Ok(meta.(progress := meta.progress.(done := 0)))
  }

  function AddPageTx(db: Db, id: int, page: Page, now: int): Outcome<Db, StoreError> {
    if page.index < 0 then Err(InvalidPageIndex(page.index))
    else if (id, page.index) in db.pages then Err(PageAlreadyExists(id, page.index))
    else
      var updated := UpdateMetaTx(db, id, BumpDone, now);
      if updated.Err? then updated
      else Ok(updated.value.(pages := updated.value.pages[(id, page.index) := PageRowOf(page)]))
  }

  function RemovePageTx(db: Db, id: int, index: int, now: int): Outcome<Db, StoreError> {
    if (id, index) !in db.pages then Err(PageNotFound)
    else UpdateMetaTx(db.(pages := db.pages - {(id, index)}), id, DropDone, now)
  }

  function DeletePages(pages: PageTable, id: int): PageTable {
    map k | k in pages && k.0 != id :: pages[k]
  }

  /** Adds the pages from position i on, failing on the first one that is out of place. */
  function AddPagesTx(db: Db, id: int, pages: seq<Page>, i: nat, now: int): Outcome<Db, StoreError>
    requires i <= |pages|
    decreases |pages| - i
  {
    if i == |pages| then Ok(db)
    else if pages[i].index != i then Err(PageIndexMismatch(i, pages[i].index))
    else
      var added := AddPageTx(db, id, pages[i], now);
      if added.Err? then added else AddPagesTx(added.value, id, pages, i + 1, now)
  }

  function NewRow(document: Document, now: int): Row {
    Row(document.source, document.sourceDocumentID, document.sourceMeta, document.title, document.storageBackend,
        Queued, document.progress.(done := 0), document.error, now, now)
  }

  function Finish(db: Db, tx: Outcome<Db, StoreError>): Commit<()> {
    if tx.Err? then Commit(db, Err(tx.error)) else Commit(tx.value, Ok(()))
  }

  /** On success the result is the new document's id. */
  ghost function Create(db: Db, document: Document, now: int): Commit<int> {
    var existing := RowWithIdentity(db, document.source, document.sourceDocumentID, 1);
    if existing.Some? && existing.value in db.rows then
      Commit(db, Err(AlreadyExists(ToDocument(db, existing.value, db.rows[existing.value]))))
    else
      var id := db.lastId + 1;
      var inserted := Db(db.rows[id := NewRow(document, now)], db.pages, id);
      var filled := AddPagesTx(inserted, id, document.pages, 0, now);
      if filled.Err? then Commit(db, Err(filled.error)) else Commit(filled.value, Ok(id))
  }

  function WithStatus(row: Row, status: Status, now: int): Row {
    row.(status := status, updatedAt := now)
  }

  function Delete(db: Db, id: int, now: int): Commit<()> {
    var row := Lookup(db, id, true);
    if row.Err? then Commit(db, Err(row.error))
    else if !CanTransition(row.value.status, Deleted) then
      Commit(db, Err(InvalidStatusTransition(row.value.status, Deleted)))
    else Commit(PutRow(db, id, WithStatus(row.value, Deleted, now)), Ok(()))
  }

  ghost predicate ClearedRow(db: Db, id: int, row: Row) {
    row.progress == Progress(0, 0) && CountExisting(Slice(db.pages, id)) == 0
  }

  ghost function TransitionTo(db: Db, id: int, status: Status, now: int): Commit<()> {
    var row := Lookup(db, id, false);
    if row.Err? then Commit(db, Err(row.error))
    else if !CanTransition(row.value.status, status) then
      Commit(db, Err(InvalidStatusTransition(row.value.status, status)))
    else if status == Purged && !ClearedRow(db, id, row.value) then
      Commit(db, Err(NotCleared(row.value.progress, CountExisting(Slice(db.pages, id)))))
    else Commit(PutRow(db, id, WithStatus(row.value, status, now)), Ok(()))
  }

  /** On success the result is the number of page rows removed. */
  function Purge(db: Db, id: int, now: int): Commit<nat> {
    var row := Lookup(db, id, false);
    if row.Err? then Commit(db, Err(row.error))
    else if !CanTransition(row.value.status, Purged) then
      Commit(db, Err(InvalidStatusTransition(row.value.status, Purged)))
    else
      var emptied := row.value.(progress := Progress(0, 0), status := Purged, updatedAt := now);
      Commit(PutRow(db.(pages := DeletePages(db.pages, id)), id, emptied), Ok(|Indices(db.pages, id)|))
  }

  function Restore(db: Db, id: int, now: int): Commit<()> {
    var row := Lookup(db, id, false);
    if row.Err? then Commit(db, Err(row.error))
    else if !row.value.status.Deleted? && !row.value.status.Purged? then
      Commit(db, Err(InvalidStatusTransition(row.value.status, Queued)))
    else Commit(PutRow(db, id, WithStatus(row.value, Queued, now)), Ok(()))
  }

  function ResetPages(db: Db, id: int, now: int): Commit<()> {
    var row := Lookup(db, id, true);
    if row.Err? then Commit(db, Err(row.error))
    else Finish(db, UpdateMetaTx(db.(pages := DeletePages(db.pages, id)), id, ZeroDone, now))
  }

  function UpdateMeta(db: Db, id: int, fn: Callback, now: int): Commit<()> {
    Finish(db, UpdateMetaTx(db, id, fn, now))
  }

  function AddPage(db: Db, id: int, page: Page, now: int): Commit<()> {
    Finish(db, AddPageTx(db, id, page, now))
  }

  function RemovePage(db: Db, id: int, index: int, now: int): Commit<()> {
    Finish(db, RemovePageTx(db, id, index, now))
  }
}
