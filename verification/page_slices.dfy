/** Facts about sparse page slices: counting, placing, removing. */
module PageSlices {
  import opened Model

  function One(b: bool): nat {
    if b then 1 else 0
  }

  lemma {:induction false} CountUpdate(pages: seq<Page>, i: nat, page: Page)
    requires i < |pages|
    ensures CountExisting(pages[i := page])
            == CountExisting(pages) - One(SlotExists(pages[i], i)) + One(SlotExists(page, i))
  {
    var n := |pages| - 1;
    if i == n {
      assert pages[i := page][..n] == pages[..n];
    } else {
      assert pages[i := page][..n] == pages[..n][i := page];
      CountUpdate(pages[..n], i, page);
    }
  }

  lemma {:induction false} CountPad(pages: seq<Page>, n: nat)
    ensures CountExisting(Pad(pages, n)) == CountExisting(pages)
    decreases n
  {
    if |pages| < n {
      var padded := Pad(pages, n);
      assert padded[..n - 1] == Pad(pages, n - 1);
      CountPad(pages, n - 1);
    }
  }

  lemma {:induction false} CountTrim(pages: seq<Page>)
    ensures CountExisting(Trim(pages)) == CountExisting(pages)
  {
    if pages != [] && !SlotExists(pages[|pages| - 1], |pages| - 1) {
      CountTrim(pages[..|pages| - 1]);
    }
  }

  /** Placing a page in a free slot adds one to the count of existing pages. */
  lemma CountPlace(pages: seq<Page>, page: Page)
    requires page.index >= 0 && page.key != "" && !Occupied(pages, page.index)
    ensures CountExisting(Place(pages, page)) == CountExisting(pages) + 1
  {
    CountPad(pages, page.index + 1);
    CountUpdate(Pad(pages, page.index + 1), page.index, page);
  }

  /** Removing an existing page takes one off. */
  lemma CountUnplace(pages: seq<Page>, index: nat)
    requires Occupied(pages, index)
    ensures CountExisting(Unplace(pages, index)) == CountExisting(pages) - 1
  {
    CountUpdate(pages, index, EMPTY_PAGE);
    CountTrim(pages[index := EMPTY_PAGE]);
  }

  lemma {:induction false} CountBound(pages: seq<Page>)
    ensures CountExisting(pages) <= |pages|
    ensures CountExisting(pages) == |pages| <==> forall i :: 0 <= i < |pages| ==> SlotExists(pages[i], i)
  {
    if pages != [] {
      CountBound(pages[..|pages| - 1]);
    }
  }

  /** Every slot is an existing page or a blank one, and the last one exists. */
  ghost predicate Tidy(pages: seq<Page>) {
    && (forall i :: 0 <= i < |pages| ==> SlotExists(pages[i], i) || pages[i] == EMPTY_PAGE)
    && (pages != [] ==> SlotExists(pages[|pages| - 1], |pages| - 1))
  }

  lemma TidyPlace(pages: seq<Page>, page: Page)
    requires Tidy(pages) && page.index >= 0 && page.key != ""
    ensures Tidy(Place(pages, page))
  {
  }

  lemma TidyUnplace(pages: seq<Page>, index: nat)
    requires Tidy(pages) && index < |pages|
    ensures Tidy(Unplace(pages, index))
  {
  }

  /** A tidy slice without existing pages is empty. */
  lemma TidyCount(pages: seq<Page>)
    requires Tidy(pages) && CountExisting(pages) == 0
    ensures pages == []
  {
  }
}
