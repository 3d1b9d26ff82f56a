/** The in-memory document store: a slice of documents indexed by id. */
module MemoryStores {
  import opened Wrappers
  import opened Model
  import opened StoreSpec
  import Queries

  class MemoryStore {
    var docs: seq<Document>

    constructor ()
      ensures docs == []
    {
      docs := [];
    }

    method Get(id: int) returns (r: Outcome<Document, StoreError>)
      ensures r == StoreSpec.Get(docs, id)
    {
      if id < 0 || id >= |docs| {
        return Err(NotFound);
      }
      var d := docs[id];
      if !IsVisible(d.status) {
        return Err(NotFound);
      }
      return Ok(d);
    }

    method Create(document: Document, now: int) returns (r: Outcome<Document, StoreError>)
      modifies this
      ensures Reply(docs, r) == StoreSpec.Create(old(docs), document, now)
    {
      for i := 0 to |docs|
        invariant FindIdentity(docs, document.source, document.sourceDocumentID)
                  == FindIdentity(docs[i..], document.source, document.sourceDocumentID)
      {
        if docs[i].source == document.source && docs[i].sourceDocumentID == document.sourceDocumentID {
          return Err(AlreadyExists(docs[i]));
        }
      }

      var pages := document.pages;
      for i := 0 to |pages|
        invariant FirstMismatch(pages, 0) == FirstMismatch(pages, i)
      {
        if i != pages[i].index {
          return Err(PageIndexMismatch(i, pages[i].index));
        }
      }

      var id := |docs|;
      var stored := document.(id := id, pages := [], progress := document.progress.(done := 0),
        createdAt := now, updatedAt := now, status := Queued);
      docs := docs + [stored];
      for i := 0 to |pages|
        invariant docs == old(docs) + [Fresh(document.(pages := pages[..i]), id, now)]
      {
        var added := AddPageLocked(id, pages[i], now);
        assert Place(pages[..i], pages[i]) == pages[..i + 1];
        // The source hands back an indexed error here; no page can be refused at this point.
        assert added.Ok?;
      }
      assert pages[..|pages|] == pages;
      return Ok(docs[id]);
    }

    method Delete(id: int, now: int) returns (r: Outcome<Document, StoreError>)
      modifies this
      ensures Reply(docs, r) == StoreSpec.Delete(old(docs), id, now)
    {
      if id < 0 || id >= |docs| {
        return Err(NotFound);
      }
      var document := docs[id];
      if !IsVisible(document.status) {
        return Err(NotFound);
      }
      if !CanTransition(document.status, Deleted) {
        return Err(InvalidStatusTransition(document.status, Deleted));
      }
      document := document.(status := Deleted, updatedAt := now);
      docs := docs[id := document];
      return Ok(document);
    }

    method Query(q: Queries.DocumentQuery) returns (found: seq<Document>)
      requires Queries.Wellformed(q)
      ensures found == Queries.Run(q, docs)
    {
      var matches := [];
      for i := 0 to |docs|
        invariant matches == Queries.Filter(q, docs[..i])
      {
        assert docs[..i + 1][..i] == docs[..i];
        var d := docs[i];
        if q.status.Some? {
          if d.status != q.status.value {
            continue;
          }
        } else if !IsVisible(d.status) {
          continue;
        }
        if q.source.Some? {
          if d.source != q.source.value || d.sourceDocumentID != q.sourceDocumentID.value {
            continue;
          }
        }
        matches := matches + [d];
      }
      assert docs[..|docs|] == docs;
      found := Queries.StableSort(q, matches);

      if q.offset > 0 && q.offset < |found| {
        found := found[q.offset..];
      } else if q.offset >= |found| {
        found := [];
      }
      if q.limit > 0 && |found| > q.limit {
        found := found[..q.limit];
      }
    }

    method UpdateMeta(id: int, fn: Callback, now: int) returns (r: Outcome<Document, StoreError>)
      modifies this
      ensures Reply(docs, r) == StoreSpec.UpdateMeta(old(docs), id, fn, now)
    {
      if id < 0 || id >= |docs| {
        return Err(NotFound);
      }
      if !IsVisible(docs[id].status) {
        return Err(NotFound);
      }
      var meta := fn(ExtractMeta(docs[id]));
      if meta.Err? {
        return Err(CallbackFailed(meta.error));
      }
      docs := docs[id := FillMeta(docs[id], meta.value)];
      docs := docs[id := docs[id].(updatedAt := now)];
      return Ok(docs[id]);
    }

    method TransitionTo(id: int, status: Status, now: int) returns (r: Outcome<(), StoreError>)
      modifies this
      ensures Reply(docs, r) == StoreSpec.TransitionTo(old(docs), id, status, now)
    {
      if id < 0 || id >= |docs| {
        return Err(NotFound);
      }
      if !CanTransition(docs[id].status, status) {
        return Err(InvalidStatusTransition(docs[id].status, status));
      }
      if status == Purged {
        var existing := CountExistingPages(docs[id].pages);
        if docs[id].progress.done != 0 || docs[id].progress.total != 0 || existing != 0 {
          return Err(NotCleared(docs[id].progress, existing));
        }
      }
      docs := docs[id := docs[id].(status := status)];
      docs := docs[id := docs[id].(updatedAt := now)];
      return Ok(());
    }

    method Purge(id: int, now: int) returns (r: Outcome<nat, StoreError>)
      modifies this
      ensures Reply(docs, r) == StoreSpec.Purge(old(docs), id, now)
    {
      if id < 0 || id >= |docs| {
        return Err(NotFound);
      }
      if !CanTransition(docs[id].status, Purged) {
        return Err(InvalidStatusTransition(docs[id].status, Purged));
      }
      var pageCount := CountExistingPages(docs[id].pages);
      docs := docs[id := docs[id].(pages := [])];
      docs := docs[id := docs[id].(progress := docs[id].progress.(done := 0))];
      docs := docs[id := docs[id].(progress := docs[id].progress.(total := 0))];
      docs := docs[id := docs[id].(status := Purged, updatedAt := now)];
      return Ok(pageCount);
    }

    method Restore(id: int, now: int) returns (r: Outcome<Document, StoreError>)
      modifies this
      ensures Reply(docs, r) == StoreSpec.Restore(old(docs), id, now)
    {
      if id < 0 || id >= |docs| {
        return Err(NotFound);
      }
      match docs[id].status {
        case Deleted | Purged =>
          docs := docs[id := docs[id].(status := Queued, updatedAt := now)];
          return Ok(docs[id]);
        case _ =>
          return Err(InvalidStatusTransition(docs[id].status, Queued));
      }
    }

    method ResetPages(id: int, now: int) returns (r: Outcome<Document, StoreError>)
      modifies this
      ensures Reply(docs, r) == StoreSpec.ResetPages(old(docs), id, now)
    {
      if id < 0 || id >= |docs| {
        return Err(NotFound);
      }
      if !IsVisible(docs[id].status) {
        return Err(NotFound);
      }
      docs := docs[id := docs[id].(pages := [])];
      docs := docs[id := docs[id].(progress := docs[id].progress.(done := 0), updatedAt := now)];
      return Ok(docs[id]);
    }

    method AddPage(id: int, page: Page, now: int) returns (r: Outcome<(), StoreError>)
      modifies this
      ensures Reply(docs, r) == StoreSpec.AddPage(old(docs), id, page, now)
    {
      if id < 0 || id >= |docs| {
        return Err(NotFound);
      }
      if !IsVisible(docs[id].status) {
        return Err(NotFound);
      }
      r := AddPageLocked(id, page, now);
    }

    method RemovePage(id: int, pageIndex: int, now: int) returns (r: Outcome<(), StoreError>)
      modifies this
      ensures Reply(docs, r) == StoreSpec.RemovePage(old(docs), id, pageIndex, now)
    {
      if id < 0 || id >= |docs| {
        return Err(PageNotFound);
      }
      if !IsVisible(docs[id].status) {
        return Err(NotFound);
      }
      r := RemovePageLocked(id, pageIndex, now);
    }

    method AddPageLocked(id: int, page: Page, now: int) returns (r: Outcome<(), StoreError>)
      requires InRange(docs, id)
      modifies this
      ensures page.index < 0 ==> r == Err(InvalidPageIndex(page.index)) && docs == old(docs)
      ensures page.index >= 0 && Occupied(old(docs)[id].pages, page.index)
              ==> r == Err(PageAlreadyExists(id, page.index)) && docs == old(docs)
      ensures page.index >= 0 && !Occupied(old(docs)[id].pages, page.index)
              ==> r == Ok(()) && docs == old(docs)[id := WithPage(old(docs)[id], page, now)]
    {
      if page.index < 0 {
        return Err(InvalidPageIndex(page.index));
      }
      var pages := docs[id].pages;
      if page.index < |pages| && SlotExists(pages[page.index], page.index) {
        return Err(PageAlreadyExists(id, page.index));
      }
      while |pages| <= page.index
        invariant |pages| >= |docs[id].pages|
        invariant |pages| <= page.index + 1 || pages == docs[id].pages
        invariant pages == Pad(docs[id].pages, |pages|)
        decreases page.index + 1 - |pages|
      {
        pages := pages + [EMPTY_PAGE];
      }
      pages := pages[page.index := page];
      assert pages == Place(docs[id].pages, page);
      docs := docs[id := docs[id].(pages := pages)];
      docs := docs[id := docs[id].(progress := docs[id].progress.(done := docs[id].progress.done + 1))];
      if docs[id].progress.total < docs[id].progress.done {
        docs := docs[id := docs[id].(progress := docs[id].progress.(total := docs[id].progress.done))];
      }
      docs := docs[id := docs[id].(updatedAt := now)];
      return Ok(());
    }

    method RemovePageLocked(id: int, pageIndex: int, now: int) returns (r: Outcome<(), StoreError>)
      requires InRange(docs, id)
      modifies this
      ensures !Occupied(old(docs)[id].pages, pageIndex) ==> r == Err(PageNotFound) && docs == old(docs)
      ensures Occupied(old(docs)[id].pages, pageIndex)
              ==> r == Ok(()) && docs == old(docs)[id := WithoutPage(old(docs)[id], pageIndex, now)]
    {
      var pages := docs[id].pages;
      if pageIndex < 0 || pageIndex >= |pages| || !SlotExists(pages[pageIndex], pageIndex) {
        return Err(PageNotFound);
      }
      pages := pages[pageIndex := EMPTY_PAGE];
      ghost var holed := pages;
      while |pages| > 0
        invariant Trim(pages) == Trim(holed)
        decreases |pages|
      {
        var lastIndex := |pages| - 1;
        if SlotExists(pages[lastIndex], lastIndex) {
          break;
        }
        pages := pages[..lastIndex];
      }
      assert pages == Trim(holed);
      docs := docs[id := docs[id].(pages := pages)];
      if docs[id].progress.done > 0 {
        docs := docs[id := docs[id].(progress := docs[id].progress.(done := docs[id].progress.done - 1))];
      }
      docs := docs[id := docs[id].(updatedAt := now)];
      return Ok(());
    }
  }

  method CountExistingPages(pages: seq<Page>) returns (count: nat)
    ensures count == CountExisting(pages)
  {
    count := 0;
    for i := 0 to |pages|
      invariant count == CountExisting(pages[..i])
    {
      assert pages[..i + 1][..i] == pages[..i];
      if SlotExists(pages[i], i) {
        count := count + 1;
      }
    }
    assert pages[..|pages|] == pages;
  }
}
