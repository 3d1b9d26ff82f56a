/** Both stores answer a query ordered by id with the same documents. */
module QueryAgreement {
  import opened Model
  import opened StoreSpec
  import opened Queries
  import opened Simulation
  import Sql = SqliteSpec

  /** The SQL ids of a list of documents. */
  function SqlIds(s: seq<Document>): (ids: seq<int>)
    ensures |ids| == |s|
    ensures forall k :: 0 <= k < |s| ==> ids[k] == s[k].id + 1
  {
    seq(|s|, k requires 0 <= k < |s| => s[k].id + 1)
  }

  lemma MatchAgrees(q: DocumentQuery, d: Document, row: Sql.Row)
    requires Wellformed(q) && RowMatches(d, row)
    ensures Matches(q, d) <==> Sql.MatchesRow(q, row)
  {
  }

  lemma RowFields(docs: Docs, db: Sql.Db, i: int)
    requires Sim(docs, db) && InRange(docs, i)
    ensures docs[i].id == i && i + 1 in db.rows && RowMatches(docs[i], db.rows[i + 1])
  {
    assert DocumentMatches(docs[i], i, db);
  }

  lemma {:induction false} FilterAgrees(docs: Docs, db: Sql.Db, q: DocumentQuery, n: nat)
    requires Sim(docs, db) && Wellformed(q) && n <= |docs|
    ensures SqlIds(Filter(q, docs[..n])) == Sql.AscendingIds(db, q, n)
  {
    hide Matches, Sql.MatchesRow, RowMatches, DocumentMatches, IsVisible, Sim, Wellformed;
    if n > 0 {
      FilterAgrees(docs, db, q, n - 1);
      assert docs[..n][..n - 1] == docs[..n - 1];
      var d := docs[n - 1];
      RowFields(docs, db, n - 1);
      MatchAgrees(q, d, db.rows[n]);
      var found := Filter(q, docs[..n - 1]);
      assert SqlIds(found + [d]) == SqlIds(found) + [n];
    }
  }

  ghost predicate AscendingById(s: seq<Document>) {
    forall i, j :: 0 <= i < j < |s| ==> s[i].id < s[j].id
  }

  lemma {:induction false} FilterAscends(q: DocumentQuery, docs: Docs)
    requires Wellformed(q) && AscendingById(docs)
    ensures AscendingById(Filter(q, docs))
  {
    if docs != [] {
      FilterAscends(q, docs[..|docs| - 1]);
      var front := Filter(q, docs[..|docs| - 1]);
      forall i | 0 <= i < |front| ensures front[i].id < docs[|docs| - 1].id {
        assert front[i] in front;
      }
    }
  }

  lemma {:induction false} ClassOfConcat(q: DocumentQuery, k: int, s: seq<Document>, t: seq<Document>)
    ensures WithKey(q, k, s + t) == WithKey(q, k, s) + WithKey(q, k, t)
  {
    hide SortKey;
    if t == [] {
      assert s + t == s;
    } else {
      ClassOfConcat(q, k, s, t[..|t| - 1]);
      assert (s + t)[..|s + t| - 1] == s + t[..|t| - 1];
    }
  }

  lemma {:induction false} NoneWithKey(q: DocumentQuery, k: int, s: seq<Document>)
    requires forall i :: 0 <= i < |s| ==> SortKey(q, s[i]) != k
    ensures WithKey(q, k, s) == []
  {
    hide SortKey;
    if s != [] {
      NoneWithKey(q, k, s[..|s| - 1]);
    }
  }

  lemma {:induction false} ReverseKeepsClasses(q: DocumentQuery, k: int, s: seq<Document>)
    requires forall i, j :: 0 <= i < j < |s| ==> SortKey(q, s[i]) != SortKey(q, s[j])
    ensures WithKey(q, k, Sql.Reverse(s)) == WithKey(q, k, s)
  {
    hide SortKey;
    if s != [] {
      var front, last := s[..|s| - 1], s[|s| - 1];
      ReverseKeepsClasses(q, k, front);
      ClassOfConcat(q, k, [last], Sql.Reverse(front));
      assert [last][..0] == [];
      if SortKey(q, last) == k {
        NoneWithKey(q, k, front);
      }
    }
  }

  lemma {:induction false} ReverseAt<T(!new)>(s: seq<T>, k: nat)
    requires k < |s|
    ensures Sql.Reverse(s)[k] == s[|s| - 1 - k]
  {
    if k > 0 {
      ReverseAt(s[..|s| - 1], k - 1);
    }
  }

  /** Sorting by id leaves an ascending list alone, or turns it round. */
  lemma SortById(q: DocumentQuery, s: seq<Document>)
    requires q.orderBy == "id" && AscendingById(s)
    ensures StableSort(q, s) == if q.order == "DESC" then Sql.Reverse(s) else s
  {
    hide StableSort, WithKey;
    if q.order == "DESC" {
      hide Sql.Reverse;
      var r := Sql.Reverse(s);
      forall i, j | 0 <= i < j < |r| ensures SortKey(q, r[i]) <= SortKey(q, r[j]) {
        ReverseAt(s, i);
        ReverseAt(s, j);
      }
      forall k ensures WithKey(q, k, r) == WithKey(q, k, s) {
        ReverseKeepsClasses(q, k, s);
      }
      AnyStableSortAgrees(q, s, r);
    } else {
      AnyStableSortAgrees(q, s, s);
    }
  }

  lemma SqlIdsReverse(s: seq<Document>)
    ensures SqlIds(Sql.Reverse(s)) == Sql.Reverse(SqlIds(s))
  {
    forall k | 0 <= k < |s| ensures SqlIds(Sql.Reverse(s))[k] == Sql.Reverse(SqlIds(s))[k] {
      ReverseAt(s, k);
      ReverseAt(SqlIds(s), k);
    }
  }

  lemma {:induction false} DocumentsAt(db: Sql.Db, ids: seq<int>, k: nat)
    requires forall id :: id in ids ==> id in db.rows
    requires k < |ids|
    ensures Sql.Documents(db, ids)[k] == Sql.ToDocument(db, ids[k], db.rows[ids[k]])
  {
    if k < |ids| - 1 {
      DocumentsAt(db, ids[..|ids| - 1], k);
    }
  }

  lemma OrderedAgrees(docs: Docs, db: Sql.Db, q: DocumentQuery)
    requires Sim(docs, db) && Wellformed(q) && q.orderBy == "id"
    ensures var ascending := Sql.AscendingIds(db, q, db.lastId);
            SqlIds(Ordered(q, docs)) == if q.order == "DESC" then Sql.Reverse(ascending) else ascending
  {
    hide Filter, Sql.AscendingIds, StableSort, Sql.Reverse;
    var found := Filter(q, docs);
    assert docs[..|docs|] == docs;
    FilterAgrees(docs, db, q, |docs|);
    assert forall i :: 0 <= i < |docs| ==> DocumentMatches(docs[i], i, db);
    FilterAscends(q, docs);
    SortById(q, found);
    SqlIdsReverse(found);
  }

  lemma IdsAgree(docs: Docs, db: Sql.Db, q: DocumentQuery)
    requires Sim(docs, db) && Wellformed(q) && q.orderBy == "id"
    ensures Sql.SelectIds(db, q) == SqlIds(Run(q, docs))
  {
    hide Ordered, Sql.AscendingIds, Sql.Reverse, DocumentMatches, PagesSound;
    OrderedAgrees(docs, db, q);
  }

  /** The same documents in the same order, with ids shifted by one. */
  lemma QueryAgrees(docs: Docs, db: Sql.Db, q: DocumentQuery)
    requires Sim(docs, db) && Wellformed(q) && q.orderBy == "id"
    ensures var a, b := Run(q, docs), Sql.Documents(db, Sql.SelectIds(db, q));
            |a| == |b| && forall k :: 0 <= k < |a| ==> b[k] == a[k].(id := a[k].id + 1)
  {
    hide Run, Sql.SelectIds, DocumentMatches, PagesSound;
    var a := Run(q, docs);
    var ids := Sql.SelectIds(db, q);
    IdsAgree(docs, db, q);
    forall k | 0 <= k < |a|
      ensures Sql.Documents(db, ids)[k] == a[k].(id := a[k].id + 1)
    {
      DocumentsAt(db, ids, k);
      assert a[k] in docs by { RunMembers(q, docs, a[k]); }
      var i :| 0 <= i < |docs| && docs[i] == a[k];
      RowOfDocument(docs, db, i);
    }
  }

  lemma RowOfDocument(docs: Docs, db: Sql.Db, i: int)
    requires Sim(docs, db) && InRange(docs, i)
    ensures docs[i].id == i && i + 1 in db.rows
    ensures Sql.ToDocument(db, i + 1, db.rows[i + 1]) == docs[i].(id := i + 1)
  {
    assert DocumentMatches(docs[i], i, db);
    SliceOf(docs, db, i);
  }
}
