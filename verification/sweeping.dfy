/** What one uninterrupted purge of deleted documents does, and why batches of five decide it exactly. */
module Sweeping {
  import opened Strings
  import opened Keys
  import opened Model
  import opened StoreSpec
  import opened Objects
  import opened Batches
  import Queries

  /** Documents whose objects cannot be deleted: their backend is not registered, or it refuses. */
  type StuckTest = Document -> bool

  function StuckBefore(docs: Docs, stuck: StuckTest, n: nat): nat
    requires n <= |docs|
  {
    if n == 0 then 0
    else StuckBefore(docs, stuck, n - 1) + if docs[n - 1].status.Deleted? && stuck(docs[n - 1]) then 1 else 0
  }

  /** A deleted document is purged when it is not stuck and fewer than five stuck ones come before it. */
  predicate Purgeable(docs: Docs, stuck: StuckTest, i: int) {
    InRange(docs, i) && docs[i].status.Deleted? && !stuck(docs[i]) && StuckBefore(docs, stuck, i) < 5
  }

  lemma {:induction false} StuckMonotone(docs: Docs, stuck: StuckTest, m: nat, n: nat)
    requires m <= n <= |docs|
    ensures StuckBefore(docs, stuck, m) <= StuckBefore(docs, stuck, n)
  {
    if m < n {
      StuckMonotone(docs, stuck, m, n - 1);
    }
  }

  // ----- a sweep in progress -----

  /** The store after the documents of `purged` have been emptied. */
  ghost predicate SweptTo(docs0: Docs, docs: Docs, stuck: StuckTest, purged: set<int>, now: int) {
    && |docs| == |docs0|
    && (forall i :: i in purged ==> InRange(docs0, i) && docs0[i].status.Deleted? && !stuck(docs0[i]))
    && (forall i :: 0 <= i < |docs0| ==> docs[i] == if i in purged then Emptied(docs0[i], now) else docs0[i])
  }

  /** The key lies below the prefix of a purged document that used this backend. */
  ghost predicate Doomed(docs0: Docs, purged: set<int>, backend: string, key: string) {
    exists i: nat :: i in purged && i < |docs0| && docs0[i].storageBackend == backend && HasPrefix(key, PrefixOf(i))
  }

  ghost predicate BucketSweptTo(docs0: Docs, purged: set<int>, backend: string, before: Bucket, after: Bucket) {
    && (forall k :: k in after <==> k in before && !Doomed(docs0, purged, backend, k))
    && (forall k :: k in after ==> after[k] == before[k])
  }

  lemma {:induction false} StuckStayDeleted(docs0: Docs, docs: Docs, stuck: StuckTest, purged: set<int>, now: int, n: nat)
    requires SweptTo(docs0, docs, stuck, purged, now) && n <= |docs0|
    ensures StuckBefore(docs0, stuck, n) <= CountBefore(docs, Deleted, n)
  {
    if n > 0 {
      StuckStayDeleted(docs0, docs, stuck, purged, now, n - 1);
      assert docs0[n - 1].status.Deleted? && stuck(docs0[n - 1]) ==> docs[n - 1] == docs0[n - 1];
    }
  }

  /** Only purgeable documents are purged: whatever is in a batch has fewer than five stuck ones before it. */
  lemma BatchIsPurgeable(docs0: Docs, docs: Docs, stuck: StuckTest, purged: set<int>, now: int, d: Document)
    requires SweptTo(docs0, docs, stuck, purged, now) && IdsInOrder(docs)
    requires d in Queries.Run(Queries.StatusQuery(Deleted, PURGE_BATCH), docs) && !stuck(d)
    ensures InRange(docs, d.id) && docs[d.id] == d && d == docs0[d.id] && d.id !in purged
    ensures Purgeable(docs0, stuck, d.id)
  {
    hide Queries.Run;
    BatchIsFirstFew(docs, Deleted, PURGE_BATCH);
    StuckStayDeleted(docs0, docs, stuck, purged, now, d.id);
  }

  lemma {:induction false} AllStuckCount(docs0: Docs, docs: Docs, stuck: StuckTest, purged: set<int>, now: int, n: nat)
    requires SweptTo(docs0, docs, stuck, purged, now) && n <= |docs0|
    requires forall i :: 0 <= i < n && docs[i].status.Deleted? ==> stuck(docs[i])
    ensures StuckBefore(docs0, stuck, n) == CountBefore(docs, Deleted, n)
  {
    if n > 0 {
      AllStuckCount(docs0, docs, stuck, purged, now, n - 1);
    }
  }

  /** When a full batch is stuck, everything purgeable has been purged. */
  lemma StuckBatchEndsSweep(docs0: Docs, docs: Docs, stuck: StuckTest, purged: set<int>, now: int)
    requires SweptTo(docs0, docs, stuck, purged, now) && IdsInOrder(docs)
    requires var batch := Queries.Run(Queries.StatusQuery(Deleted, PURGE_BATCH), docs);
             |batch| == PURGE_BATCH && forall d :: d in batch ==> stuck(d)
    ensures forall i :: Purgeable(docs0, stuck, i) ==> i in purged
  {
    hide Queries.Run;
    var batch := Queries.Run(Queries.StatusQuery(Deleted, PURGE_BATCH), docs);
    BatchIsFirstFew(docs, Deleted, PURGE_BATCH);
    var last := batch[PURGE_BATCH - 1].id;
    forall i | 0 <= i < last + 1 && docs[i].status.Deleted? ensures stuck(docs[i]) {
      CountMonotone(docs, Deleted, i, last);
      InBatch(docs, Deleted, PURGE_BATCH, batch, i);
    }
    AllStuckCount(docs0, docs, stuck, purged, now, last + 1);
    forall i | Purgeable(docs0, stuck, i) ensures i in purged {
      assert i in purged || docs[i] == docs0[i];
      if i > last {
        StuckMonotone(docs0, stuck, last + 1, i);
      }
    }
  }

  /** When the batch holds all deleted documents and none of them is left unpurged, the sweep is complete. */
  lemma ShortBatchEndsSweep(docs0: Docs, before: Docs, stuck: StuckTest, start: set<int>, purged: set<int>, now: int)
    requires SweptTo(docs0, before, stuck, start, now) && IdsInOrder(before)
    requires var batch := Queries.Run(Queries.StatusQuery(Deleted, PURGE_BATCH), before);
             |batch| < PURGE_BATCH && forall d :: d in batch && !stuck(d) ==> d.id in purged
    requires start <= purged
    ensures forall i :: Purgeable(docs0, stuck, i) ==> i in purged
  {
    hide Queries.Run;
    var batch := Queries.Run(Queries.StatusQuery(Deleted, PURGE_BATCH), before);
    BatchIsFirstFew(before, Deleted, PURGE_BATCH);
    forall i | Purgeable(docs0, stuck, i) ensures i in purged {
      if i !in start {
        CountMonotone(before, Deleted, i, |before|);
        InBatch(before, Deleted, PURGE_BATCH, batch, i);
      }
    }
  }

  /** If fewer than five documents are stuck, the purgeable ones are all the deleted ones that are not stuck. */
  lemma FewStuckPurgesAll(docs: Docs, stuck: StuckTest, i: nat)
    requires StuckBefore(docs, stuck, |docs|) < PURGE_BATCH && i < |docs|
    ensures Purgeable(docs, stuck, i) <==> docs[i].status.Deleted? && !stuck(docs[i])
  {
    StuckMonotone(docs, stuck, i, |docs|);
  }

  // ----- one more document -----

  lemma SweepOne(docs0: Docs, docs: Docs, stuck: StuckTest, purged: set<int>, now: int, id: nat)
    requires SweptTo(docs0, docs, stuck, purged, now) && id < |docs|
    requires docs[id] == docs0[id] && docs[id].status.Deleted? && !stuck(docs[id])
    ensures SweptTo(docs0, docs[id := Emptied(docs[id], now)], stuck, purged + {id}, now)
  {
  }

  lemma SweepOneBucket(docs0: Docs, purged: set<int>, id: nat, name: string, before: Bucket, mid: Bucket)
    requires BucketSweptTo(docs0, purged, name, before, mid) && id < |docs0|
    ensures BucketSweptTo(docs0, purged + {id}, name, before,
                          if name == docs0[id].storageBackend then WithoutPrefix(mid, PrefixOf(id)) else mid)
  {
    hide PrefixOf;
    var purged' := purged + {id};
    forall k ensures Doomed(docs0, purged', name, k)
                     <==> Doomed(docs0, purged, name, k)
                          || (docs0[id].storageBackend == name && HasPrefix(k, PrefixOf(id)))
    {
      if Doomed(docs0, purged, name, k) {
        var i: nat :| i in purged && i < |docs0| && docs0[i].storageBackend == name && HasPrefix(k, PrefixOf(i));
        assert i in purged';
      }
      if docs0[id].storageBackend == name && HasPrefix(k, PrefixOf(id)) {
        assert id in purged';
      }
    }
  }

  lemma {:induction false} PurgeLowersCount(docs: Docs, id: nat, now: int, n: nat)
    requires id < |docs| && docs[id].status.Deleted? && n <= |docs|
    ensures CountBefore(docs[id := Emptied(docs[id], now)], Deleted, n) == CountBefore(docs, Deleted, n) - if id < n then 1 else 0
  {
    if n > 0 {
      PurgeLowersCount(docs, id, now, n - 1);
    }
  }

  type Buckets = map<string, Bucket>

  /** Store and objects after exactly the documents of `purged` have been swept, all of them purgeable. */
  ghost predicate Swept(docs0: Docs, buckets0: Buckets, docs: Docs, buckets: Buckets, stuck: StuckTest,
                        purged: set<int>, now: int) {
    && SweptTo(docs0, docs, stuck, purged, now)
    && (forall i :: i in purged ==> Purgeable(docs0, stuck, i))
    && buckets.Keys == buckets0.Keys
    && (forall name :: name in buckets ==> BucketSweptTo(docs0, purged, name, buckets0[name], buckets[name]))
  }

  /** The buckets after the objects of one document are gone. */
  ghost predicate ClearedOf(buckets: Buckets, buckets': Buckets, d: Document) {
    && buckets'.Keys == buckets.Keys
    && (forall name :: name in buckets ==>
          buckets'[name] == if name == d.storageBackend && d.id >= 0 then WithoutPrefix(buckets[name], PrefixOf(d.id))
                            else buckets[name])
  }

  lemma SweptNext(docs0: Docs, buckets0: Buckets, docs: Docs, buckets: Buckets, buckets': Buckets, stuck: StuckTest,
                  purged: set<int>, now: int, id: nat)
    requires Swept(docs0, buckets0, docs, buckets, stuck, purged, now)
    requires Purgeable(docs0, stuck, id) && id !in purged
    requires docs0[id].id == id && ClearedOf(buckets, buckets', docs0[id])
    ensures id < |docs| && docs[id] == docs0[id]
    ensures Swept(docs0, buckets0, docs[id := Emptied(docs[id], now)], buckets', stuck, purged + {id}, now)
    ensures CountBefore(docs[id := Emptied(docs[id], now)], Deleted, |docs|) == CountBefore(docs, Deleted, |docs|) - 1
  {
    hide PrefixOf, BucketSweptTo, StuckBefore;
    SweepOne(docs0, docs, stuck, purged, now, id);
    PurgeLowersCount(docs, id, now, |docs|);
    forall name | name in buckets'
      ensures BucketSweptTo(docs0, purged + {id}, name, buckets0[name], buckets'[name])
    {
      SweepOneBucket(docs0, purged, id, name, buckets0[name], buckets[name]);
    }
  }

  /** Whatever was purged had its objects deleted first: nothing is left below its prefix. */
  lemma PurgedObjectsAreGone(docs0: Docs, buckets0: Buckets, docs: Docs, buckets: Buckets, stuck: StuckTest,
                             purged: set<int>, now: int, id: nat, key: string)
    requires Swept(docs0, buckets0, docs, buckets, stuck, purged, now) && id in purged
    requires docs0[id].storageBackend in buckets && HasPrefix(key, PrefixOf(id))
    ensures key !in buckets[docs0[id].storageBackend]
  {
    hide PrefixOf, Purgeable, SweptTo;
    assert id < |docs0| by {
      assert Purgeable(docs0, stuck, id);
      PurgeableInRange(docs0, stuck, id);
    }
    assert BucketSweptTo(docs0, purged, docs0[id].storageBackend, buckets0[docs0[id].storageBackend],
                         buckets[docs0[id].storageBackend]);
    assert Doomed(docs0, purged, docs0[id].storageBackend, key);
  }

  lemma PurgeableInRange(docs: Docs, stuck: StuckTest, i: int)
    requires Purgeable(docs, stuck, i)
    ensures InRange(docs, i)
  {
  }

  /** The objects of every other document are untouched. */
  lemma OtherObjectsStay(docs0: Docs, buckets0: Buckets, docs: Docs, buckets: Buckets, stuck: StuckTest,
                         purged: set<int>, now: int, id: nat, name: string, key: string)
    requires Swept(docs0, buckets0, docs, buckets, stuck, purged, now) && id !in purged
    requires name in buckets && HasPrefix(key, PrefixOf(id))
    ensures key in buckets[name] <==> key in buckets0[name]
    ensures key in buckets[name] ==> buckets[name][key] == buckets0[name][key]
  {
    hide PrefixOf, Purgeable, SweptTo;
    assert BucketSweptTo(docs0, purged, name, buckets0[name], buckets[name]);
    if Doomed(docs0, purged, name, key) {
      var i: nat :| i in purged && i < |docs0| && docs0[i].storageBackend == name && HasPrefix(key, PrefixOf(i));
      PrefixesDisjoint(i, id, key);
    }
  }
}
