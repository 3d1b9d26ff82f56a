/** Recording the pages of a download one by one: the order in which they finish does not matter. */
module Recording {
  import opened Model
  import opened StoreSpec

  /** Adds the pages in order and stops at the first refusal; the flag tells whether all were added. */
  function RecordAll(docs: Docs, id: int, pages: seq<Page>, now: int): (r: (Docs, bool))
    ensures |r.0| == |docs|
  {
    if pages == [] then (docs, true)
    else
      var (docs', ok) := RecordAll(docs, id, pages[..|pages| - 1], now);
      if !ok then (docs', false)
      else
        var r := AddPage(docs', id, pages[|pages| - 1], now);
        (r.docs, r.result.Ok?)
  }

  lemma {:induction false} RecordAllStops(docs: Docs, id: int, pages: seq<Page>, k: nat, now: int)
    requires k <= |pages| && !RecordAll(docs, id, pages[..k], now).1
    ensures RecordAll(docs, id, pages, now) == RecordAll(docs, id, pages[..k], now)
  {
    if k < |pages| {
      assert pages[..|pages| - 1][..k] == pages[..k];
      RecordAllStops(docs, id, pages[..|pages| - 1], k, now);
    } else {
      assert pages[..k] == pages;
    }
  }

  /** Keys present, indexes natural, no page twice and no two pages with one index. */
  ghost predicate Recordable(pages: multiset<Page>) {
    && (forall p :: p in pages ==> p.key != "" && p.index >= 0 && pages[p] == 1)
    && (forall p, q :: p in pages && q in pages && p.index == q.index ==> p == q)
  }

  /** The slice shows exactly the given pages, each at its own index, and ends with one of them. */
  ghost predicate Shows(slice: seq<Page>, pages: seq<Page>) {
    && (forall p :: p in pages ==> 0 <= p.index < |slice| && slice[p.index] == p)
    && (forall j :: 0 <= j < |slice| ==> slice[j] == EMPTY_PAGE || (slice[j] in pages && slice[j].index == j))
    && (forall p :: p in pages ==> p.key != "")
    && (slice != [] ==> slice[|slice| - 1] in pages)
  }

  function TotalAfter(total: int, n: nat): int {
    if n > 0 && total < n then n else total
  }

  lemma ShowsNext(slice: seq<Page>, pages: seq<Page>, page: Page)
    requires Shows(slice, pages) && page.index >= 0 && page.key != ""
    requires forall p :: p in pages ==> p.index != page.index
    ensures !Occupied(slice, page.index)
    ensures Shows(Place(slice, page), pages + [page])
  {
    var slice' := Place(slice, page);
    assert forall p :: p in pages + [page] <==> p in pages || p == page;
    assert forall j :: 0 <= j < |slice'| && j != page.index ==> slice'[j] == EMPTY_PAGE || slice'[j] in pages;
  }

  lemma ShowsNothing()
    ensures Shows([], [])
  {
  }

  lemma RecordableFront(front: seq<Page>, last: Page)
    requires Recordable(multiset(front + [last]))
    ensures Recordable(multiset(front)) && last.key != "" && last.index >= 0
    ensures forall p :: p in front ==> p.index != last.index
  {
    assert multiset(front + [last]) == multiset(front) + multiset{last};
    assert forall p :: p in front ==> p in multiset(front);
  }

  /** On an emptied document recording succeeds, and the result shows exactly the recorded pages. */
  lemma {:induction false} RecordsExactly(docs: Docs, id: int, pages: seq<Page>, now: int)
    requires Visible(docs, id) && docs[id].pages == [] && docs[id].progress.done == 0
    requires Recordable(multiset(pages))
    ensures var (docs', ok) := RecordAll(docs, id, pages, now);
            && ok && |docs'| == |docs|
            && Shows(docs'[id].pages, pages)
            && docs' == docs[id := docs[id].(
                 pages := docs'[id].pages,
                 progress := Progress(|pages|, TotalAfter(docs[id].progress.total, |pages|)),
                 updatedAt := if pages == [] then docs[id].updatedAt else now)]
  {
    hide Shows, Recordable, Place, Occupied;
    if pages != [] {
      var front, last := pages[..|pages| - 1], pages[|pages| - 1];
      assert front + [last] == pages;
      RecordableFront(front, last);
      RecordsExactly(docs, id, front, now);
      var docs' := RecordAll(docs, id, front, now).0;
      ShowsNext(docs'[id].pages, front, last);
    } else {
      assert docs == docs[id := docs[id]];
      ShowsNothing();
    }
  }

  lemma ShowsUnique(s: seq<Page>, t: seq<Page>, pages: seq<Page>, pages': seq<Page>)
    requires Shows(s, pages) && Shows(t, pages')
    requires forall p :: p in pages <==> p in pages'
    ensures s == t
  {
    assert |s| <= |t| by {
      assert s != [] ==> s[|s| - 1] in pages';
    }
    assert |t| <= |s| by {
      assert t != [] ==> t[|t| - 1] in pages;
    }
    forall j | 0 <= j < |s| ensures s[j] == t[j] {
      assert s[j] in pages ==> s[j] in pages';
      assert t[j] in pages' ==> t[j] in pages;
    }
  }

  lemma SameLength(pages: seq<Page>, pages': seq<Page>)
    requires multiset(pages) == multiset(pages')
    ensures |pages| == |pages'|
  {
    assert |multiset(pages)| == |pages| && |multiset(pages')| == |pages'|;
  }

  /** Two downloads of the same pages, finishing in different orders, leave the same slice and progress. */
  lemma OrderDoesNotMatter(docs: Docs, id: int, pages: seq<Page>, pages': seq<Page>, now: int)
    requires Visible(docs, id) && docs[id].pages == [] && docs[id].progress.done == 0
    requires Recordable(multiset(pages)) && multiset(pages) == multiset(pages')
    ensures RecordAll(docs, id, pages, now) == RecordAll(docs, id, pages', now)
  {
    SameLength(pages, pages');
    RecordsExactly(docs, id, pages, now);
    RecordsExactly(docs, id, pages', now);
    assert forall p :: p in pages <==> p in multiset(pages);
    assert forall p :: p in pages' <==> p in multiset(pages');
    var d, d' := RecordAll(docs, id, pages, now).0[id], RecordAll(docs, id, pages', now).0[id];
    ShowsUnique(d.pages, d'.pages, pages, pages');
  }

  /**
   * Pages planned for the slots 0 to n - 1 end up exactly in their slots, whatever the order in which their
   * downloads finish: the slice has no hole and the progress counts every page.
   */
  lemma PlannedPagesFillTheSlice(docs: Docs, id: int, plan: seq<Page>, pages: seq<Page>, now: int)
    requires Visible(docs, id) && docs[id].pages == [] && docs[id].progress.done == 0
    requires forall i :: 0 <= i < |plan| ==> SlotExists(plan[i], i)
    requires multiset(pages) == multiset(plan)
    ensures var (docs', ok) := RecordAll(docs, id, pages, now);
            && ok && |docs'| == |docs|
            && docs'[id].pages == plan
            && docs'[id].progress == Progress(|plan|, TotalAfter(docs[id].progress.total, |plan|))
            && CountExisting(docs'[id].pages) == |plan|
  {
    PlanIsRecordable(plan);
    PlanShowsItself(plan);
    SameLength(pages, plan);
    RecordsExactly(docs, id, pages, now);
    assert forall p :: p in pages <==> p in multiset(pages);
    assert forall p :: p in plan <==> p in multiset(plan);
    ShowsUnique(RecordAll(docs, id, pages, now).0[id].pages, plan, pages, plan);
    CountFull(plan);
  }

  lemma PlanShowsItself(plan: seq<Page>)
    requires forall i :: 0 <= i < |plan| ==> SlotExists(plan[i], i)
    ensures Shows(plan, plan)
  {
  }

  lemma RecordableNext(front: seq<Page>, last: Page)
    requires Recordable(multiset(front)) && last.key != "" && last.index >= 0
    requires forall p :: p in front ==> p.index != last.index
    ensures Recordable(multiset(front + [last]))
  {
    assert multiset(front + [last]) == multiset(front) + multiset{last};
    assert forall p :: p in front <==> p in multiset(front);
  }

  lemma {:induction false} PlanIsRecordable(plan: seq<Page>)
    requires forall i :: 0 <= i < |plan| ==> SlotExists(plan[i], i)
    ensures Recordable(multiset(plan))
  {
    hide Recordable;
    if plan != [] {
      var front, last := plan[..|plan| - 1], plan[|plan| - 1];
      PlanIsRecordable(front);
      RecordableNext(front, last);
      assert front + [last] == plan;
    } else {
      NothingIsRecordable();
    }
  }

  lemma NothingIsRecordable()
    ensures Recordable(multiset([]))
  {
  }

  lemma {:induction false} CountFull(plan: seq<Page>)
    requires forall i :: 0 <= i < |plan| ==> SlotExists(plan[i], i)
    ensures CountExisting(plan) == |plan|
  {
    if plan != [] {
      CountFull(plan[..|plan| - 1]);
    }
  }
}
