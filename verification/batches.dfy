/** The batches the worker takes: the first few documents of one status, by id. */
module Batches {
  import opened Arithmetic
  import opened Model
  import opened StoreSpec
  import Queries
  import QueryAgreement

  predicate IdsInOrder(docs: Docs) {
    forall i :: 0 <= i < |docs| ==> docs[i].id == i
  }

  /** How many of the first n documents have the status. */
  function CountBefore(docs: Docs, status: Status, n: nat): nat
    requires n <= |docs|
  {
    if n == 0 then 0 else CountBefore(docs, status, n - 1) + if docs[n - 1].status == status then 1 else 0
  }

  lemma {:induction false} FilterPositions(docs: Docs, status: Status, limit: nat, n: nat)
    requires limit > 0 && IdsInOrder(docs) && n <= |docs|
    ensures var found := Queries.Filter(Queries.StatusQuery(status, limit), docs[..n]);
            && |found| == CountBefore(docs, status, n)
            && (forall p :: 0 <= p < |found| ==>
                  0 <= found[p].id < n && docs[found[p].id] == found[p] && found[p].status == status
                  && CountBefore(docs, status, found[p].id) == p)
  {
    if n > 0 {
      FilterPositions(docs, status, limit, n - 1);
      assert docs[..n][..n - 1] == docs[..n - 1];
    }
  }

  lemma {:induction false} CountMonotone(docs: Docs, status: Status, m: nat, n: nat)
    requires m <= n <= |docs|
    ensures CountBefore(docs, status, m) <= CountBefore(docs, status, n)
    ensures m < n && docs[m].status == status ==> CountBefore(docs, status, m) < CountBefore(docs, status, n)
  {
    if m < n {
      CountMonotone(docs, status, m, n - 1);
    }
  }

  lemma FoundIsOrdered(docs: Docs, status: Status, limit: nat)
    requires limit > 0 && IdsInOrder(docs)
    ensures Queries.Ordered(Queries.StatusQuery(status, limit), docs) == Queries.Filter(Queries.StatusQuery(status, limit), docs)
  {
    hide Queries.Filter, Queries.StableSort;
    var found := Queries.Filter(Queries.StatusQuery(status, limit), docs);
    assert docs[..|docs|] == docs;
    FilterPositions(docs, status, limit, |docs|);
    forall p, r | 0 <= p < r < |found| ensures found[p].id < found[r].id {
      if found[r].id <= found[p].id {
        CountMonotone(docs, status, found[r].id, found[p].id);
      }
    }
    QueryAgreement.SortById(Queries.StatusQuery(status, limit), found);
  }

  /** The batch lists the documents of the status that fewer than `limit` others of the status precede, by id. */
  lemma BatchIsFirstFew(docs: Docs, status: Status, limit: nat)
    requires limit > 0 && IdsInOrder(docs)
    ensures var batch := Queries.Run(Queries.StatusQuery(status, limit), docs);
            && |batch| == Min(limit, CountBefore(docs, status, |docs|))
            && (forall p :: 0 <= p < |batch| ==>
                  InRange(docs, batch[p].id) && docs[batch[p].id] == batch[p] && batch[p].status == status
                  && CountBefore(docs, status, batch[p].id) == p)
  {
    hide Queries.Ordered, Queries.Filter;
    assert docs[..|docs|] == docs;
    FilterPositions(docs, status, limit, |docs|);
    FoundIsOrdered(docs, status, limit);
  }

  lemma InBatch(docs: Docs, status: Status, limit: nat, batch: seq<Document>, i: nat)
    requires limit > 0 && IdsInOrder(docs) && batch == Queries.Run(Queries.StatusQuery(status, limit), docs)
    requires i < |docs| && docs[i].status == status && CountBefore(docs, status, i) < |batch|
    ensures batch[CountBefore(docs, status, i)] == docs[i]
  {
    hide Queries.Run;
    BatchIsFirstFew(docs, status, limit);
    var p := CountBefore(docs, status, i);
    var j := batch[p].id;
    if j < i {
      CountMonotone(docs, status, j, i);
    } else if i < j {
      CountMonotone(docs, status, i, j);
    }
  }
}
