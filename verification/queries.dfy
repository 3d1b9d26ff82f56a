/** Queries over a list of documents: filtering, stable ordering and windows. */
module Queries {
  import opened Arithmetic
  import opened Wrappers
  import opened Model

  datatype ParamMismatch = ParamMismatch(expected: string, actual: string)

  datatype DocumentQuery = DocumentQuery(
    source: Option<string>, sourceDocumentID: Option<string>, status: Option<Status>,
    orderBy: string, order: string, offset: int, limit: int)

  const EMPTY_QUERY := DocumentQuery(None, None, None, "", "", 0, 0)

  function Build(q: DocumentQuery): Outcome<DocumentQuery, ParamMismatch> {
    if q.source.Some? && q.sourceDocumentID.None? then Err(ParamMismatch("sourceDocumentID", "nil"))
    else if q.source.None? && q.sourceDocumentID.Some? then Err(ParamMismatch("source", "nil"))
    else if q.order !in {"", "ASC", "DESC"} then Err(ParamMismatch("ASC or DESC", q.order))
    else if q.orderBy !in {"", "id", "created_at", "updated_at"} then
      Err(ParamMismatch("id or created_at or updated_at", q.orderBy))
    else
      Ok(q.(order := if q.order == "" then "ASC" else q.order,
            orderBy := if q.orderBy == "" then "id" else q.orderBy,
            limit := if q.limit == 0 then 10 else q.limit))
  }

  /**
   * A query is built exactly when source and source document id come together and order and ordering field are known
   * or left out. What is left out gets its default, what is given stays, and a built query builds to itself.
   */
  lemma BuildsExactly(q: DocumentQuery)
    ensures Build(q).Ok? <==> && (q.source.Some? <==> q.sourceDocumentID.Some?)
                              && q.order in {"", "ASC", "DESC"} && q.orderBy in {"", "id", "created_at", "updated_at"}
    ensures Build(q).Ok? ==>
              var b := Build(q).value;
              && (q.order == "" ==> b.order == "ASC") && (q.order != "" ==> b.order == q.order)
              && (q.orderBy == "" ==> b.orderBy == "id") && (q.orderBy != "" ==> b.orderBy == q.orderBy)
              && (q.limit == 0 ==> b.limit == 10) && (q.limit != 0 ==> b.limit == q.limit)
              && b.source == q.source && b.sourceDocumentID == q.sourceDocumentID && b.status == q.status
              && b.offset == q.offset && Build(b) == Ok(b)
  {
  }

  /** The query for the first documents of one status, by ascending id. */
  function StatusQuery(status: Status, limit: int): DocumentQuery {
    DocumentQuery(None, None, Some(status), "id", "ASC", 0, limit)
  }

  lemma StatusQueryBuilds(status: Status, limit: int)
    requires limit != 0
    ensures Build(EMPTY_QUERY.(status := Some(status), limit := limit)) == Ok(StatusQuery(status, limit))
  {
  }

  /** Only built queries reach a store: source and source document id come together. */
  predicate Wellformed(q: DocumentQuery) {
    q.source.Some? <==> q.sourceDocumentID.Some?
  }

  predicate Matches(q: DocumentQuery, d: Document)
    requires Wellformed(q)
  {
    && (if q.status.Some? then d.status == q.status.value else IsVisible(d.status))
    && (q.source.Some? ==> d.source == q.source.value && d.sourceDocumentID == q.sourceDocumentID.value)
  }

  function Filter(q: DocumentQuery, docs: seq<Document>): (found: seq<Document>)
    requires Wellformed(q)
    ensures forall d :: d in found <==> d in docs && Matches(q, d)
  {
    if docs == [] then []
    else
      var last := docs[|docs| - 1];
      Filter(q, docs[..|docs| - 1]) + if Matches(q, last) then [last] else []
  }

  /** The number documents are ordered by; descending order negates it. */
  function SortKey(q: DocumentQuery, d: Document): int {
    var key :=
      if q.orderBy == "created_at" then d.createdAt
      else if q.orderBy == "updated_at" then d.updatedAt
      else d.id;
    if q.order == "DESC" then -key else key
  }

  // ----- the three-way comparison of the source -----

  function CompareInt(left: int, right: int): int {
    if left < right then -1 else if left > right then 1 else 0
  }

  function Compare(left: Document, right: Document, orderBy: string): int {
    match orderBy
    case "created_at" => CompareInt(left.createdAt, right.createdAt)
    case "updated_at" => CompareInt(left.updatedAt, right.updatedAt)
    case _ => CompareInt(left.id, right.id)
  }

  predicate Less(q: DocumentQuery, a: Document, b: Document) {
    var cmp := Compare(a, b, q.orderBy);
    if q.order == "DESC" then cmp > 0 else cmp < 0
  }

  lemma LessIsKeyOrder(q: DocumentQuery, a: Document, b: Document)
    ensures Less(q, a, b) <==> SortKey(q, a) < SortKey(q, b)
  {
  }

  // ----- stable sorting -----

  /** Puts d behind every document that does not come after it. */
  function Insert(q: DocumentQuery, sorted: seq<Document>, d: Document): (r: seq<Document>)
    ensures |r| == |sorted| + 1
  {
    if sorted != [] && Less(q, d, sorted[|sorted| - 1]) then
      Insert(q, sorted[..|sorted| - 1], d) + [sorted[|sorted| - 1]]
    else sorted + [d]
  }

  function StableSort(q: DocumentQuery, docs: seq<Document>): (r: seq<Document>)
    ensures |r| == |docs|
  {
    if docs == [] then []
    else Insert(q, StableSort(q, docs[..|docs| - 1]), docs[|docs| - 1])
  }

  ghost predicate Sorted(q: DocumentQuery, s: seq<Document>) {
    forall i, j :: 0 <= i < j < |s| ==> SortKey(q, s[i]) <= SortKey(q, s[j])
  }

  /** The documents that share one sort key, in the order they appear. */
  function WithKey(q: DocumentQuery, k: int, s: seq<Document>): seq<Document> {
    if s == [] then []
    else
      var last := s[|s| - 1];
      WithKey(q, k, s[..|s| - 1]) + if SortKey(q, last) == k then [last] else []
  }

  lemma {:induction false} WithKeyMembers(q: DocumentQuery, k: int, s: seq<Document>)
    ensures forall d :: d in WithKey(q, k, s) <==> d in s && SortKey(q, d) == k
  {
    hide SortKey;
    if s != [] {
      WithKeyMembers(q, k, s[..|s| - 1]);
    }
  }

  /** `t` orders `s` stably: by key, and within one key as before. */
  ghost predicate StablyOrders(q: DocumentQuery, t: seq<Document>, s: seq<Document>) {
    Sorted(q, t) && forall k :: WithKey(q, k, t) == WithKey(q, k, s)
  }

  lemma {:induction false} InsertBounds(q: DocumentQuery, sorted: seq<Document>, d: Document, bound: int)
    requires forall x :: x in sorted ==> SortKey(q, x) <= bound
    requires SortKey(q, d) <= bound
    ensures forall x :: x in Insert(q, sorted, d) ==> SortKey(q, x) <= bound
  {
    hide SortKey, Less;
    if sorted != [] && Less(q, d, sorted[|sorted| - 1]) {
      InsertBounds(q, sorted[..|sorted| - 1], d, bound);
    }
  }

  lemma {:induction false} InsertSorts(q: DocumentQuery, sorted: seq<Document>, d: Document)
    requires Sorted(q, sorted)
    ensures Sorted(q, Insert(q, sorted, d))
  {
    hide SortKey, Less;
    if sorted != [] && Less(q, d, sorted[|sorted| - 1]) {
      var front, last := sorted[..|sorted| - 1], sorted[|sorted| - 1];
      LessIsKeyOrder(q, d, last);
      InsertSorts(q, front, d);
      InsertBounds(q, front, d, SortKey(q, last));
      var r := Insert(q, front, d);
      assert forall i :: 0 <= i < |r| ==> r[i] in r;
    } else if sorted != [] {
      LessIsKeyOrder(q, d, sorted[|sorted| - 1]);
    }
  }

  lemma {:induction false} InsertKeepsClasses(q: DocumentQuery, sorted: seq<Document>, d: Document, k: int)
    ensures WithKey(q, k, Insert(q, sorted, d))
            == WithKey(q, k, sorted) + if SortKey(q, d) == k then [d] else []
  {
    hide SortKey, Less;
    if sorted != [] && Less(q, d, sorted[|sorted| - 1]) {
      var front, last := sorted[..|sorted| - 1], sorted[|sorted| - 1];
      LessIsKeyOrder(q, d, last);
      InsertKeepsClasses(q, front, d, k);
      var r := Insert(q, front, d) + [last];
      assert r[..|r| - 1] == Insert(q, front, d);
    } else {
      var r := sorted + [d];
      assert r[..|r| - 1] == sorted;
    }
  }

  /** The sort orders by key and never reorders documents with equal keys. */
  lemma {:induction false} StableSortIsStable(q: DocumentQuery, docs: seq<Document>)
    ensures StablyOrders(q, StableSort(q, docs), docs)
  {
    hide SortKey, Less;
    if docs != [] {
      var front, last := docs[..|docs| - 1], docs[|docs| - 1];
      StableSortIsStable(q, front);
      InsertSorts(q, StableSort(q, front), last);
      forall k ensures WithKey(q, k, StableSort(q, docs)) == WithKey(q, k, docs) {
        InsertKeepsClasses(q, StableSort(q, front), last, k);
      }
    }
  }

  lemma LastEndsItsClass(q: DocumentQuery, t: seq<Document>)
    requires t != [] && Sorted(q, t)
    ensures var k := SortKey(q, t[|t| - 1]);
            && WithKey(q, k, t) != [] && WithKey(q, k, t)[|WithKey(q, k, t)| - 1] == t[|t| - 1]
            && forall d :: d in t ==> SortKey(q, d) <= k
  {
    hide SortKey;
  }

  /** The last document of a sorted list is in every list with the same documents of its key. */
  lemma ClassEnd(q: DocumentQuery, t: seq<Document>, u: seq<Document>)
    requires t != [] && Sorted(q, t)
    requires var k := SortKey(q, t[|t| - 1]); WithKey(q, k, t) == WithKey(q, k, u)
    ensures t[|t| - 1] in u
  {
    hide SortKey, WithKey, Sorted;
    var last := t[|t| - 1];
    LastEndsItsClass(q, t);
    WithKeyMembers(q, SortKey(q, last), u);
    assert last in WithKey(q, SortKey(q, last), t);
  }

  lemma LastOfClass(q: DocumentQuery, t: seq<Document>, u: seq<Document>)
    requires t != [] && Sorted(q, t) && Sorted(q, u)
    requires forall k :: WithKey(q, k, t) == WithKey(q, k, u)
    ensures u != [] && t[|t| - 1] == u[|u| - 1]
  {
    hide SortKey, WithKey, Sorted;
    ClassEnd(q, t, u);
    ClassEnd(q, u, t);
    LastEndsItsClass(q, t);
    LastEndsItsClass(q, u);
  }

  lemma DropLastOfClass(q: DocumentQuery, k: int, t: seq<Document>, u: seq<Document>)
    requires t != [] && u != [] && t[|t| - 1] == u[|u| - 1]
    requires WithKey(q, k, t) == WithKey(q, k, u)
    ensures WithKey(q, k, t[..|t| - 1]) == WithKey(q, k, u[..|u| - 1])
  {
    hide SortKey;
    var c := if SortKey(q, t[|t| - 1]) == k then [t[|t| - 1]] else [];
    var a, b := WithKey(q, k, t[..|t| - 1]), WithKey(q, k, u[..|u| - 1]);
    assert WithKey(q, k, t) == a + c && WithKey(q, k, u) == b + c;
    assert a == (a + c)[..|a|] && b == (b + c)[..|b|];
  }

  /** Any two stable orderings of the same documents are the same sequence. */
  lemma {:induction false} StableOrderUnique(q: DocumentQuery, t: seq<Document>, u: seq<Document>)
    requires Sorted(q, t) && Sorted(q, u)
    requires forall k :: WithKey(q, k, t) == WithKey(q, k, u)
    ensures t == u
    decreases |t|
  {
    hide SortKey, Less;
    if t == [] {
      if u != [] {
        LastOfClass(q, u, t);
        assert false;
      }
    } else {
      LastOfClass(q, t, u);
      var t', u' := t[..|t| - 1], u[..|u| - 1];
      forall k ensures WithKey(q, k, t') == WithKey(q, k, u') {
        DropLastOfClass(q, k, t, u);
      }
      StableOrderUnique(q, t', u');
    }
  }

  /** Whatever stable algorithm the library uses, it returns what `StableSort` returns. */
  lemma AnyStableSortAgrees(q: DocumentQuery, docs: seq<Document>, t: seq<Document>)
    ensures StablyOrders(q, t, docs) <==> t == StableSort(q, docs)
  {
    StableSortIsStable(q, docs);
    if StablyOrders(q, t, docs) {
      StableOrderUnique(q, t, StableSort(q, docs));
    }
  }

  // ----- windows -----

  function Window(s: seq<Document>, offset: int, limit: int): seq<Document> {
    var rest :=
      if 0 < offset < |s| then s[offset..]
      else if offset >= |s| then []
      else s;
    if limit > 0 && |rest| > limit then rest[..limit] else rest
  }

  function Ordered(q: DocumentQuery, docs: seq<Document>): seq<Document>
    requires Wellformed(q)
  {
    StableSort(q, Filter(q, docs))
  }

  function Run(q: DocumentQuery, docs: seq<Document>): seq<Document>
    requires Wellformed(q)
  {
    Window(Ordered(q, docs), q.offset, q.limit)
  }

  /** A query returns the slice [max(offset, 0), +limit) of the ordered matches; limit <= 0 means no limit. */
  lemma RunIsSlice(q: DocumentQuery, docs: seq<Document>)
    requires Wellformed(q)
    ensures var all := Ordered(q, docs);
            var from := Min(Max(q.offset, 0), |all|);
            var to := if q.limit > 0 then Min(from + q.limit, |all|) else |all|;
            Run(q, docs) == all[from..to]
  {
  }

  /** Earlier in the order the query asks for, or equal in it. */
  predicate InOrder(q: DocumentQuery, a: Document, b: Document) {
    var (left, right) := if q.order == "DESC" then (b, a) else (a, b);
    if q.orderBy == "created_at" then left.createdAt <= right.createdAt
    else if q.orderBy == "updated_at" then left.updatedAt <= right.updatedAt
    else left.id <= right.id
  }

  /** A query lists documents of the asked status, or visible ones, from the asked source, in the asked order. */
  lemma RunIsFilteredAndOrdered(q: DocumentQuery, docs: seq<Document>, i: nat, j: nat)
    requires Wellformed(q) && i < j < |Run(q, docs)|
    ensures InOrder(q, Run(q, docs)[i], Run(q, docs)[j])
    ensures var d := Run(q, docs)[i];
            && d in docs
            && (q.status.Some? ==> d.status == q.status.value)
            && (q.status.None? ==> d.status in VISIBLE)
            && (q.source.Some? ==> d.source == q.source.value && d.sourceDocumentID == q.sourceDocumentID.value)
  {
    var all := Ordered(q, docs);
    RunIsSlice(q, docs);
    StableSortIsStable(q, Filter(q, docs));
    var from := Min(Max(q.offset, 0), |all|);
    assert Run(q, docs)[i] == all[from + i] && Run(q, docs)[j] == all[from + j];
    RunMembers(q, docs, Run(q, docs)[i]);
    MovesAreTheGraph(Run(q, docs)[i].status, Queued);
  }

  /** The pages at offsets 0, l, 2l, ..., one behind the other. */
  function Walk(q: DocumentQuery, docs: seq<Document>, l: nat, n: nat): seq<Document>
    requires Wellformed(q)
  {
    if n == 0 then []
    else Walk(q, docs, l, n - 1) + Run(q.(offset := (n - 1) * l, limit := l), docs)
  }

  lemma OrderedIgnoresWindow(q: DocumentQuery, docs: seq<Document>, offset: int, limit: int)
    requires Wellformed(q)
    ensures Ordered(q.(offset := offset, limit := limit), docs) == Ordered(q, docs)
  {
    var q' := q.(offset := offset, limit := limit);
    FilterIgnoresWindow(q, q', docs);
    SortIgnoresWindow(q, q', Filter(q, docs));
  }

  lemma {:induction false} FilterIgnoresWindow(q: DocumentQuery, q': DocumentQuery, docs: seq<Document>)
    requires Wellformed(q) && q' == q.(offset := q'.offset, limit := q'.limit)
    ensures Filter(q', docs) == Filter(q, docs)
  {
    if docs != [] {
      FilterIgnoresWindow(q, q', docs[..|docs| - 1]);
    }
  }

  lemma {:induction false} InsertIgnoresWindow(q: DocumentQuery, q': DocumentQuery, s: seq<Document>, d: Document)
    requires q' == q.(offset := q'.offset, limit := q'.limit)
    ensures Insert(q', s, d) == Insert(q, s, d)
  {
    hide Compare;
    if s != [] {
      InsertIgnoresWindow(q, q', s[..|s| - 1], d);
    }
  }

  lemma {:induction false} SortIgnoresWindow(q: DocumentQuery, q': DocumentQuery, s: seq<Document>)
    requires q' == q.(offset := q'.offset, limit := q'.limit)
    ensures StableSort(q', s) == StableSort(q, s)
  {
    if s != [] {
      SortIgnoresWindow(q, q', s[..|s| - 1]);
      InsertIgnoresWindow(q, q', StableSort(q, s[..|s| - 1]), s[|s| - 1]);
    }
  }

  /** After n pages of length l the walk has produced exactly the first n * l ordered matches. */
  lemma {:induction false} WalkIsPrefix(q: DocumentQuery, docs: seq<Document>, l: nat, n: nat)
    requires Wellformed(q) && l > 0
    ensures Walk(q, docs, l, n) == Ordered(q, docs)[..Min(n * l, |Ordered(q, docs)|)]
  {
    hide Ordered, Run, Window;
    if n > 0 {
      var all := Ordered(q, docs);
      var at := (n - 1) * l;
      assert n * l == at + l;
      WalkIsPrefix(q, docs, l, n - 1);
      var q' := q.(offset := at, limit := l);
      OrderedIgnoresWindow(q, docs, at, l);
      RunIsSlice(q', docs);
      assert all[..Min(at, |all|)] + all[Min(at, |all|)..Min(at + l, |all|)] == all[..Min(at + l, |all|)];
    }
  }

  /** A long enough walk yields every match exactly once and in order. */
  lemma WalkIsComplete(q: DocumentQuery, docs: seq<Document>, l: nat, n: nat)
    requires Wellformed(q) && l > 0 && n * l >= |Ordered(q, docs)|
    ensures Walk(q, docs, l, n) == Ordered(q, docs)
    ensures multiset(Walk(q, docs, l, n)) == multiset(Filter(q, docs))
  {
    WalkIsPrefix(q, docs, l, n);
    SortKeepsMultiset(q, Filter(q, docs));
    assert Ordered(q, docs)[..|Ordered(q, docs)|] == Ordered(q, docs);
  }

  lemma {:induction false} InsertAddsOne(q: DocumentQuery, s: seq<Document>, d: Document)
    ensures multiset(Insert(q, s, d)) == multiset(s) + multiset{d}
  {
    hide SortKey, Less;
    if s != [] && Less(q, d, s[|s| - 1]) {
      InsertAddsOne(q, s[..|s| - 1], d);
      assert s == s[..|s| - 1] + [s[|s| - 1]];
    }
  }

  lemma {:induction false} SortKeepsMultiset(q: DocumentQuery, s: seq<Document>)
    ensures multiset(StableSort(q, s)) == multiset(s)
  {
    hide Insert;
    if s != [] {
      SortKeepsMultiset(q, s[..|s| - 1]);
      InsertAddsOne(q, StableSort(q, s[..|s| - 1]), s[|s| - 1]);
      assert s == s[..|s| - 1] + [s[|s| - 1]];
    }
  }

  /** A query only returns matching documents of the store. */
  lemma RunMembers(q: DocumentQuery, docs: seq<Document>, d: Document)
    requires Wellformed(q) && d in Run(q, docs)
    ensures d in docs && Matches(q, d)
  {
    SortKeepsMultiset(q, Filter(q, docs));
    var all := Ordered(q, docs);
    assert d in all;
    assert d in multiset(all);
  }
}
