/**
 * What each store operation does, as functions on the list of documents.
 * Every operation is one critical section of the store, so each function is one atomic step.
 */
module StoreSpec {
  import opened Arithmetic
  import opened Wrappers
  import opened Model

  datatype StoreError =
    | NotFound
    | AlreadyExists(existing: Document)
    | PageNotFound
    | PageAlreadyExists(documentID: int, pageIndex: int)
    | InvalidPageIndex(index: int)
    | PageIndexMismatch(expected: int, actual: int)
    | InvalidStatusTransition(from: Status, to: Status)
    | NotCleared(progress: Progress, pages: nat)
    | CallbackFailed(message: string)

  type Docs = seq<Document>

  type Callback = DocumentMeta -> Outcome<DocumentMeta, string>

  /** The store after an operation, and what the caller gets back. */
  datatype Reply<+T> = Reply(docs: Docs, result: Outcome<T, StoreError>)

  predicate InRange(docs: Docs, id: int) {
    0 <= id < |docs|
  }

  predicate Visible(docs: Docs, id: int) {
    InRange(docs, id) && IsVisible(docs[id].status)
  }

  function Get(docs: Docs, id: int): Outcome<Document, StoreError> {
    if Visible(docs, id) then Ok(docs[id]) else Err(NotFound)
  }

  function FindIdentity(docs: Docs, source: string, sourceDocumentID: string): Option<Document> {
    if docs == [] then None
    else if docs[0].source == source && docs[0].sourceDocumentID == sourceDocumentID then Some(docs[0])
    else FindIdentity(docs[1..], source, sourceDocumentID)
  }

  /** The position of the first page that does not carry its own position as index. */
  function FirstMismatch(pages: seq<Page>, from: nat): (r: Option<nat>)
    requires from <= |pages|
    ensures r.None? <==> forall i :: from <= i < |pages| ==> pages[i].index == i
    ensures r.Some? ==> from <= r.value < |pages| && pages[r.value].index != r.value
    decreases |pages| - from
  {
    if from == |pages| then None
    else if pages[from].index != from then Some(from)
    else FirstMismatch(pages, from + 1)
  }

  function Fresh(document: Document, id: int, now: int): Document {
    var n := |document.pages|;
    document.(
      id := id,
      progress := Progress(n, if n > 0 && document.progress.total < n then n else document.progress.total),
      createdAt := now, updatedAt := now, status := Queued)
  }

  function Create(docs: Docs, document: Document, now: int): Reply<Document> {
    var existing := FindIdentity(docs, document.source, document.sourceDocumentID);
    if existing.Some? then Reply(docs, Err(AlreadyExists(existing.value)))
    else
      var bad := FirstMismatch(document.pages, 0);
      if bad.Some? then Reply(docs, Err(PageIndexMismatch(bad.value, document.pages[bad.value].index)))
      else
        var d := Fresh(document, |docs|, now);
        Reply(docs + [d], Ok(d))
  }

  function SetStatus(d: Document, status: Status, now: int): Document {
    d.(status := status, updatedAt := now)
  }

  function Delete(docs: Docs, id: int, now: int): Reply<Document> {
    if !Visible(docs, id) then Reply(docs, Err(NotFound))
    else if !CanTransition(docs[id].status, Deleted) then
      Reply(docs, Err(InvalidStatusTransition(docs[id].status, Deleted)))
    else
      var d := SetStatus(docs[id], Deleted, now);
      Reply(docs[id := d], Ok(d))
  }

  predicate Cleared(d: Document) {
    d.progress.done == 0 && d.progress.total == 0 && CountExisting(d.pages) == 0
  }

  function TransitionTo(docs: Docs, id: int, status: Status, now: int): Reply<()> {
    if !InRange(docs, id) then Reply(docs, Err(NotFound))
    else if !CanTransition(docs[id].status, status) then
      Reply(docs, Err(InvalidStatusTransition(docs[id].status, status)))
    else if status == Purged && !Cleared(docs[id]) then
      Reply(docs, Err(NotCleared(docs[id].progress, CountExisting(docs[id].pages))))
    else
      Reply(docs[id := SetStatus(docs[id], status, now)], Ok(()))
  }

  /** A transition succeeds exactly along the moves listed, and into purged only for an emptied document. */
  lemma TransitionsExactly(docs: Docs, id: int, status: Status, now: int)
    ensures TransitionTo(docs, id, status, now).result.Ok?
            <==> && 0 <= id < |docs| && !status.Unknown?
                 && (docs[id].status == status || (docs[id].status, status) in MOVES)
                 && (status.Purged? ==> docs[id].progress == Progress(0, 0) && CountExisting(docs[id].pages) == 0)
    ensures TransitionTo(docs, id, status, now).result.Ok? ==>
              TransitionTo(docs, id, status, now).docs == docs[id := docs[id].(status := status, updatedAt := now)]
  {
    if 0 <= id < |docs| {
      MovesAreTheGraph(docs[id].status, status);
    }
  }

  /** Archived and failed documents can be queued again, and every visible one can be deleted. */
  lemma RefreshAndDeleteSucceed(docs: Docs, id: int, now: int)
    requires 0 <= id < |docs|
    ensures docs[id].status.Archived? || docs[id].status.Failed? ==> TransitionTo(docs, id, Queued, now).result.Ok?
    ensures Delete(docs, id, now).result.Ok? <==> docs[id].status in VISIBLE
    ensures Delete(docs, id, now).result.Ok? ==>
              Delete(docs, id, now).docs == docs[id := docs[id].(status := Deleted, updatedAt := now)]
    ensures Restore(docs, id, now).result.Ok? <==> docs[id].status.Deleted? || docs[id].status.Purged?
    ensures Restore(docs, id, now).result.Ok? ==>
              Restore(docs, id, now).docs == docs[id := docs[id].(status := Queued, updatedAt := now)]
  {
    MovesAreTheGraph(docs[id].status, Deleted);
    MovesAreTheGraph(docs[id].status, Queued);
  }

  /** A new document is accepted exactly when its identity is new and its pages carry their own positions. */
  lemma CreatesExactly(docs: Docs, document: Document, now: int)
    ensures var r := Create(docs, document, now);
            && (r.result.Ok? <==>
                  && (forall i :: 0 <= i < |docs| ==>
                        docs[i].source != document.source || docs[i].sourceDocumentID != document.sourceDocumentID)
                  && forall i :: 0 <= i < |document.pages| ==> document.pages[i].index == i)
            && (r.result.Err? ==> r.docs == docs)
            && (r.result.Ok? ==> r.docs == docs + [r.result.value])
            && (r.result.Err? ==>
                  match r.result.error
                  case AlreadyExists(d) =>
                    d in docs && d.source == document.source && d.sourceDocumentID == document.sourceDocumentID
                  case PageIndexMismatch(expected, actual) =>
                    0 <= expected < |document.pages| && document.pages[expected].index == actual != expected
                  case _ => false)
    ensures var r := Create(docs, document, now);
            r.result.Ok? ==>
              var d := r.result.value;
              && d.id == |docs| && d.status == Queued && d.createdAt == now && d.updatedAt == now
              && d.source == document.source && d.sourceDocumentID == document.sourceDocumentID
              && d.storageBackend == document.storageBackend && d.title == document.title
              && d.sourceMeta == document.sourceMeta && d.error == document.error && d.pages == document.pages
              && d.progress.done == |document.pages|
              && d.progress.total == (if document.pages == [] then document.progress.total
                                      else Max(document.progress.total, |document.pages|))
  {
    FindIdentityMeaning(docs, document.source, document.sourceDocumentID);
  }

  /** What purging, clearing and updating leave of a document. */
  lemma PurgesClearsUpdatesExactly(docs: Docs, id: int, fn: Callback, now: int)
    requires 0 <= id < |docs|
    ensures Purge(docs, id, now).result.Ok? <==> docs[id].status.Deleted? || docs[id].status.Purged?
    ensures Purge(docs, id, now).result.Ok? ==>
              && Purge(docs, id, now).result.value == CountExisting(docs[id].pages)
              && Purge(docs, id, now).docs
                 == docs[id := docs[id].(pages := [], progress := Progress(0, 0), status := Purged, updatedAt := now)]
    ensures ResetPages(docs, id, now).result.Ok? <==> docs[id].status in VISIBLE
    ensures ResetPages(docs, id, now).result.Ok? ==>
              ResetPages(docs, id, now).docs
              == docs[id := docs[id].(pages := [], progress := Progress(0, docs[id].progress.total), updatedAt := now)]
    ensures UpdateMeta(docs, id, fn, now).result.Ok?
            <==> var d := docs[id];
                 d.status in VISIBLE && fn(DocumentMeta(d.sourceMeta, d.title, d.storageBackend, d.progress, d.error)).Ok?
    ensures UpdateMeta(docs, id, fn, now).result.Ok? ==>
              var d := docs[id];
              var m := fn(DocumentMeta(d.sourceMeta, d.title, d.storageBackend, d.progress, d.error));
              && m.Ok?
              && UpdateMeta(docs, id, fn, now).docs
                 == docs[id := d.(sourceMeta := m.value.sourceMeta, title := m.value.title,
                                  storageBackend := m.value.storageBackend, progress := m.value.progress,
                                  error := m.value.error, updatedAt := now)]
  {
    MovesAreTheGraph(docs[id].status, Purged);
  }

  /** Adding a page fills its slot, pads with holes before it, counts it, and keeps every other page. */
  lemma AddsExactly(docs: Docs, id: int, page: Page, now: int)
    requires 0 <= id < |docs|
    ensures var d, r := docs[id], AddPage(docs, id, page, now);
            r.result.Ok? <==> d.status in VISIBLE && page.index >= 0 && !Occupied(d.pages, page.index)
    ensures var d, r := docs[id], AddPage(docs, id, page, now);
            r.result.Ok? ==>
              var d' := r.docs[id];
              && |d'.pages| == Max(|d.pages|, page.index + 1) && d'.pages[page.index] == page
              && (forall i :: 0 <= i < |d'.pages| && i != page.index ==>
                    d'.pages[i] == if i < |d.pages| then d.pages[i] else Page(0, "", "", 0, ""))
              && d'.progress.done == d.progress.done + 1 && d'.progress.total == Max(d.progress.total, d.progress.done + 1)
  {
    MovesAreTheGraph(docs[id].status, Queued);
  }

  /** Removing a page empties its slot, keeps every other page, and leaves no hole at the end. */
  lemma RemovesExactly(docs: Docs, id: int, index: int, now: int)
    requires 0 <= id < |docs|
    ensures var d, r := docs[id], RemovePage(docs, id, index, now);
            r.result.Ok? <==> d.status in VISIBLE && Occupied(d.pages, index)
    ensures var d, r := docs[id], RemovePage(docs, id, index, now);
            r.result.Ok? ==>
              var d' := r.docs[id];
              && !Occupied(d'.pages, index)
              && (forall i :: i != index ==> (Occupied(d'.pages, i) <==> Occupied(d.pages, i)))
              && (forall i :: Occupied(d'.pages, i) ==> d'.pages[i] == d.pages[i])
              && (d'.pages != [] ==> Occupied(d'.pages, |d'.pages| - 1))
              && d'.progress.done == (if d.progress.done > 0 then d.progress.done - 1 else d.progress.done)
              && d'.progress.total == d.progress.total
  {
    hide CanTransition;
    MovesAreTheGraph(docs[id].status, Queued);
    if Occupied(docs[id].pages, index) {
      var holed := docs[id].pages[index := EMPTY_PAGE];
      var t := Trim(holed);
      forall i | i != index ensures Occupied(t, i) <==> Occupied(docs[id].pages, i) {
        if |t| <= i < |holed| {
          assert !SlotExists(holed[i], i);
        }
      }
    }
  }

  /** A call on no document, or on a hidden one, is told so; any other refusal names what stands in the way. */
  lemma RefusalsExactly(docs: Docs, id: int, page: Page, fn: Callback, status: Status, now: int)
    ensures var shown := 0 <= id < |docs| && docs[id].status in VISIBLE;
            && Get(docs, id) == (if shown then Ok(docs[id]) else Err(NotFound))
            && (!shown ==> && Delete(docs, id, now).result == Err(NotFound)
                           && ResetPages(docs, id, now).result == Err(NotFound)
                           && UpdateMeta(docs, id, fn, now).result == Err(NotFound)
                           && AddPage(docs, id, page, now).result == Err(NotFound)
                           && RemovePage(docs, id, page.index, now).result
                              == Err(if 0 <= id < |docs| then NotFound else PageNotFound))
            && (shown && UpdateMeta(docs, id, fn, now).result.Err? ==>
                  exists message ::
                    && fn(ExtractMeta(docs[id])) == Err(message)
                    && UpdateMeta(docs, id, fn, now).result == Err(CallbackFailed(message)))
            && (shown && page.index < 0 ==> AddPage(docs, id, page, now).result == Err(InvalidPageIndex(page.index)))
            && (shown && Occupied(docs[id].pages, page.index) ==>
                  AddPage(docs, id, page, now).result == Err(PageAlreadyExists(id, page.index)))
            && (shown && !Occupied(docs[id].pages, page.index) ==>
                  RemovePage(docs, id, page.index, now).result == Err(PageNotFound))
    ensures var known, t := 0 <= id < |docs|, TransitionTo(docs, id, status, now).result;
            && (!known ==> && t == Err(NotFound) && Purge(docs, id, now).result == Err(NotFound)
                           && Restore(docs, id, now).result == Err(NotFound))
            && (known && t.Err? ==>
                  var allowed := docs[id].status == status || (docs[id].status, status) in MOVES;
                  t.error == if allowed && !status.Unknown?
                             then NotCleared(docs[id].progress, CountExisting(docs[id].pages))
                             else InvalidStatusTransition(docs[id].status, status))
            && (known && Purge(docs, id, now).result.Err? ==>
                  Purge(docs, id, now).result.error == InvalidStatusTransition(docs[id].status, Purged))
            && (known && Restore(docs, id, now).result.Err? ==>
                  Restore(docs, id, now).result.error == InvalidStatusTransition(docs[id].status, Queued))
  {
    if 0 <= id < |docs| {
      MovesAreTheGraph(docs[id].status, status);
    }
  }

  lemma FindIdentityMeaning(docs: Docs, source: string, sourceDocumentID: string)
    ensures FindIdentity(docs, source, sourceDocumentID).Some?
            <==> exists i :: 0 <= i < |docs| && docs[i].source == source && docs[i].sourceDocumentID == sourceDocumentID
    ensures FindIdentity(docs, source, sourceDocumentID).Some? ==>
              var d := FindIdentity(docs, source, sourceDocumentID).value;
              d in docs && d.source == source && d.sourceDocumentID == sourceDocumentID
  {
    if docs != [] {
      FindIdentityMeaning(docs[1..], source, sourceDocumentID);
      if exists i :: 0 <= i < |docs| && docs[i].source == source && docs[i].sourceDocumentID == sourceDocumentID {
        var i :| 0 <= i < |docs| && docs[i].source == source && docs[i].sourceDocumentID == sourceDocumentID;
        assert i > 0 ==> docs[1..][i - 1] == docs[i];
      }
    }
  }

  function Emptied(d: Document, now: int): Document {
    d.(pages := [], progress := Progress(0, 0), status := Purged, updatedAt := now)
  }

  function Purge(docs: Docs, id: int, now: int): Reply<nat> {
    if !InRange(docs, id) then Reply(docs, Err(NotFound))
    else if !CanTransition(docs[id].status, Purged) then
      Reply(docs, Err(InvalidStatusTransition(docs[id].status, Purged)))
    else
      Reply(docs[id := Emptied(docs[id], now)], Ok(CountExisting(docs[id].pages)))
  }

  function Restore(docs: Docs, id: int, now: int): Reply<Document> {
    if !InRange(docs, id) then Reply(docs, Err(NotFound))
    else if !docs[id].status.Deleted? && !docs[id].status.Purged? then
      Reply(docs, Err(InvalidStatusTransition(docs[id].status, Queued)))
    else
      var d := SetStatus(docs[id], Queued, now);
      Reply(docs[id := d], Ok(d))
  }

  function ResetPages(docs: Docs, id: int, now: int): Reply<Document> {
    if !Visible(docs, id) then Reply(docs, Err(NotFound))
    else
      var d := docs[id].(pages := [], progress := docs[id].progress.(done := 0), updatedAt := now);
      Reply(docs[id := d], Ok(d))
  }

  function UpdateMeta(docs: Docs, id: int, fn: Callback, now: int): Reply<Document> {
    if !Visible(docs, id) then Reply(docs, Err(NotFound))
    else
      var meta := fn(ExtractMeta(docs[id]));
      if meta.Err? then Reply(docs, Err(CallbackFailed(meta.error)))
      else
        var d := FillMeta(docs[id], meta.value).(updatedAt := now);
        Reply(docs[id := d], Ok(d))
  }

  function WithPage(d: Document, page: Page, now: int): Document
    requires page.index >= 0
  {
    d.(pages := Place(d.pages, page), progress := Bump(d.progress), updatedAt := now)
  }

  function AddPage(docs: Docs, id: int, page: Page, now: int): Reply<()> {
    if !Visible(docs, id) then Reply(docs, Err(NotFound))
    else if page.index < 0 then Reply(docs, Err(InvalidPageIndex(page.index)))
    else if Occupied(docs[id].pages, page.index) then Reply(docs, Err(PageAlreadyExists(id, page.index)))
    else Reply(docs[id := WithPage(docs[id], page, now)], Ok(()))
  }

  function WithoutPage(d: Document, index: nat, now: int): Document
    requires index < |d.pages|
  {
    d.(pages := Unplace(d.pages, index),
       progress := d.progress.(done := if d.progress.done > 0 then d.progress.done - 1 else d.progress.done),
       updatedAt := now)
  }

  function RemovePage(docs: Docs, id: int, index: int, now: int): Reply<()> {
    if !InRange(docs, id) then Reply(docs, Err(PageNotFound))
    else if !IsVisible(docs[id].status) then Reply(docs, Err(NotFound))
    else if !Occupied(docs[id].pages, index) then Reply(docs, Err(PageNotFound))
    else Reply(docs[id := WithoutPage(docs[id], index, now)], Ok(()))
  }
}
