/** The archive application over its stores, run by one worker with no API call in between. */
module Apps {
  import opened Arithmetic
  import opened Wrappers
  import opened Keys
  import opened Model
  import opened StoreSpec
  import opened Objects
  import opened MemoryStores
  import opened Batches
  import opened Sweeping
  import opened Recording
  import opened Processing
  import Lifecycle
  import Queries

  type Storages = map<string, MemoryObjectStore>

  /** The manifest of a document is stored, with this body. */
  predicate HoldsManifest(bucket: Bucket, id: nat, body: Bytes) {
    ManifestKeyOf(id) in bucket && bucket[ManifestKeyOf(id)].content == body
    && bucket[ManifestKeyOf(id)].contentType == "application/json"
  }

  /** The manifest of a document is stored in the backend the document names. */
  predicate ManifestStored(docs: Docs, buckets: Buckets, id: nat, visit: Visit)
    requires id < |docs|
  {
    var backend := docs[id].storageBackend;
    visit.manifest.Ok? && backend in buckets && HoldsManifest(buckets[backend], id, visit.manifest.value)
  }

  /** Of the first k queued documents, those that were archived have their manifests. */
  ghost predicate ManifestsStored(docs0: Docs, docs: Docs, buckets: Buckets, visits: int -> Visit, k: nat) {
    |docs| == |docs0| && forall i :: AmongFirst(docs0, i, k) && docs[i].status.Archived? ==>
      ManifestStored(docs0, buckets, i, visits(i))
  }

  /** Manifests of different documents do not overwrite each other. */
  lemma OneMoreManifest(docs0: Docs, docs: Docs, docs': Docs, buckets: Buckets, buckets': Buckets, id: nat,
                        visits: int -> Visit, k: nat)
    requires ManifestsStored(docs0, docs, buckets, visits, k) && |docs'| == |docs| && id < |docs|
    requires docs0[id].status.Queued? && CountBefore(docs0, Queued, id) == k
    requires forall j :: 0 <= j < |docs| && j != id ==> docs'[j] == docs[j]
    requires buckets'.Keys == buckets.Keys
    requires forall name, key :: name in buckets && key != ManifestKeyOf(id) ==>
               MapGet(buckets'[name], key) == MapGet(buckets[name], key)
    requires docs'[id].status.Archived? ==> ManifestStored(docs0, buckets', id, visits(id))
    ensures ManifestsStored(docs0, docs', buckets', visits, k + 1)
  {
    hide ManifestKeyOf, PrefixOf, CountBefore;
    forall i | AmongFirst(docs0, i, k + 1) && docs'[i].status.Archived?
      ensures ManifestStored(docs0, buckets', i, visits(i))
    {
      if i != id {
        if i < id { CountMonotone(docs0, Queued, i, id); } else { CountMonotone(docs0, Queued, id, i); }
        if ManifestKeyOf(i) == ManifestKeyOf(id) {
          KeysUnderOwnPrefix(i, "", "");
          KeysUnderOwnPrefix(id, "", "");
          PrefixesDisjoint(i, id, ManifestKeyOf(i));
        }
        var backend := docs0[i].storageBackend;
        assert MapGet(buckets'[backend], ManifestKeyOf(i)) == MapGet(buckets[backend], ManifestKeyOf(i));
      }
    }
  }

  /** No two names share an object store. */
  predicate Distinct(storages: Storages) {
    forall a, b :: a in storages && b in storages && a != b ==> storages[a] != storages[b]
  }

  predicate IsStuck(storages: Storages, d: Document) {
    d.storageBackend !in storages || (d.id >= 0 && PrefixOf(d.id) in storages[d.storageBackend].denied)
  }

  function Stuck(storages: Storages): StuckTest {
    (d: Document) => IsStuck(storages, d)
  }

  class App {
    const documents: MemoryStore
    const storages: Storages
    const factories: set<string>

    constructor (documents: MemoryStore, storages: Storages, factories: set<string>)
      ensures this.documents == documents && this.storages == storages && this.factories == factories
    {
      this.documents := documents;
      this.storages := storages;
      this.factories := factories;
    }

    ghost predicate Valid()
      reads documents
    {
      Distinct(storages) && IdsInOrder(documents.docs)
    }

    ghost function Backends(): set<MemoryObjectStore> {
      set name | name in storages :: storages[name]
    }

    ghost function Contents(): Buckets
      reads Backends()
    {
      map name | name in storages :: storages[name].objects
    }

    /** Deletes the objects of a deleted document and then purges it; a stuck document is left as it is. */
    method PurgeDocument(document: Document, now: int) returns (ok: bool)
      requires Valid() && InRange(documents.docs, document.id)
      requires documents.docs[document.id] == document && document.status.Deleted?
      modifies documents, Backends()
      ensures Valid()
      ensures ok <==> !IsStuck(storages, document)
      ensures ok ==> documents.docs == old(documents.docs)[document.id := Emptied(document, now)]
                     && ClearedOf(old(Contents()), Contents(), document)
      ensures !ok ==> documents.docs == old(documents.docs) && Contents() == old(Contents())
    {
      if document.storageBackend !in storages {
        return false;
      }
      var objectStorage := storages[document.storageBackend];
      var prefix := PrefixOf(document.id);
      PrefixShape(document.id);
      var removed := objectStorage.DeletePrefix(prefix);
      if removed.Err? && removed.error != ObjectNotFound {
        return false;
      }
      var result := documents.Purge(document.id, now);
      ok := result.Ok?;
    }

    /** The inner loop: one pass over a batch. */
    method PurgeBatch(deleted: seq<Document>, now: int, ghost docs0: Docs, ghost buckets0: Buckets, ghost start: set<int>)
      returns (purgedCount: nat, ghost purged: set<int>)
      requires Valid() && Swept(docs0, buckets0, documents.docs, Contents(), Stuck(storages), start, now)
      requires deleted == Queries.Run(Queries.StatusQuery(Deleted, PURGE_BATCH), documents.docs)
      modifies documents, Backends()
      ensures Valid() && Swept(docs0, buckets0, documents.docs, Contents(), Stuck(storages), purged, now)
      ensures start <= purged
      ensures forall d :: d in deleted && !IsStuck(storages, d) ==> d.id in purged
      ensures purgedCount == 0 ==> documents.docs == old(documents.docs) && purged == start
                                   && forall d :: d in deleted ==> IsStuck(storages, d)
      ensures purgedCount + CountBefore(documents.docs, Deleted, |documents.docs|)
              == CountBefore(old(documents.docs), Deleted, |old(documents.docs)|)
    {
      hide Queries.Run, PrefixOf, Swept, SweptTo, Purgeable, IsStuck, ClearedOf, Distinct, CountBefore, Emptied;
      ghost var before, stuck := documents.docs, Stuck(storages);
      assert forall d :: d in deleted ==> stuck(d) == IsStuck(storages, d);
      BatchIsFirstFew(before, Deleted, PURGE_BATCH);
      SweptIsSweptTo(docs0, buckets0, before, Contents(), stuck, start, now);
      purgedCount, purged := 0, start;
      for k := 0 to |deleted|
        invariant Valid() && Swept(docs0, buckets0, documents.docs, Contents(), stuck, purged, now) && start <= purged
        invariant forall p :: 0 <= p < k && !IsStuck(storages, deleted[p]) ==> deleted[p].id in purged
        invariant forall p :: k <= p < |deleted| ==>
                    InRange(documents.docs, deleted[p].id) && documents.docs[deleted[p].id] == deleted[p]
        invariant purgedCount == 0 ==> documents.docs == before && purged == start
                                       && forall p :: 0 <= p < k ==> IsStuck(storages, deleted[p])
        invariant purgedCount + CountBefore(documents.docs, Deleted, |documents.docs|) == CountBefore(before, Deleted, |before|)
      {
        var document := deleted[k];
        ghost var docs, buckets := documents.docs, Contents();
        var ok := PurgeDocument(document, now);
        if ok {
          purgedCount := purgedCount + 1;
          BatchMember(docs0, buckets0, before, docs, buckets, stuck, start, purged, now, document);
          SweptNext(docs0, buckets0, docs, buckets, Contents(), stuck, purged, now, document.id);
          purged := purged + {document.id};
        }
      }
    }

    /**
     * Purges deleted documents in batches of five until a batch is short or purges nothing. Afterwards
     * exactly the purgeable documents are purged, and exactly their objects are gone.
     */
    method ProcessDeleted(now: int) returns (ghost purged: set<int>)
      requires Valid()
      modifies documents, Backends()
      ensures Valid()
      ensures forall i :: i in purged <==> Purgeable(old(documents.docs), Stuck(storages), i)
      ensures Swept(old(documents.docs), old(Contents()), documents.docs, Contents(), Stuck(storages), purged, now)
    {
      hide Queries.Run, Purgeable, PrefixOf, BucketSweptTo, IsStuck;
      ghost var stuck := Stuck(storages);
      ghost var docs0, buckets0 := documents.docs, Contents();
      purged := {};
      SweptNone(docs0, buckets0, stuck, now);
      while true
        invariant Valid() && Swept(docs0, buckets0, documents.docs, Contents(), stuck, purged, now)
        decreases CountBefore(documents.docs, Deleted, |documents.docs|)
      {
        Queries.StatusQueryBuilds(Deleted, PURGE_BATCH);
        var query := Queries.Build(Queries.EMPTY_QUERY.(status := Some(Deleted), limit := PURGE_BATCH)).value;
        var deleted := documents.Query(query);
        if |deleted| == 0 {
          ShortBatchEndsSweep(docs0, documents.docs, stuck, purged, purged, now);
          return;
        }

        ghost var before, start := documents.docs, purged;
        var purgedCount;
        purgedCount, purged := PurgeBatch(deleted, now, docs0, buckets0, start);
        if |deleted| < PURGE_BATCH || purgedCount == 0 {
          if |deleted| < PURGE_BATCH {
            assert forall d :: d in deleted ==> stuck(d) == IsStuck(storages, d);
            ShortBatchEndsSweep(docs0, before, stuck, start, purged, now);
          } else {
            assert forall d :: d in deleted ==> stuck(d) == IsStuck(storages, d);
            BatchIsFirstFew(before, Deleted, PURGE_BATCH);
            StuckBatchEndsSweep(docs0, documents.docs, stuck, purged, now);
          }
          return;
        }
      }
    }

    // ----- queued documents -----

    method FailDocument(id: int, cause: string, now: int) returns (r: Outcome<Document, string>)
      modifies documents
      ensures r.Err?
      ensures |documents.docs| == |old(documents.docs)|
      ensures forall j :: 0 <= j < |documents.docs| && j != id ==> documents.docs[j] == old(documents.docs)[j]
      ensures var was := old(documents.docs);
              Visible(was, id) && CanTransition(was[id].status, Failed)
              ==> r.error == cause
                  && documents.docs[id] == was[id].(error := cause, status := Failed, updatedAt := now)
      ensures var was := old(documents.docs);
              Visible(was, id) && !CanTransition(was[id].status, Failed)
              ==> documents.docs[id] == was[id].(error := cause, updatedAt := now)
      ensures !Visible(old(documents.docs), id) ==> documents.docs == old(documents.docs)
    {
      var updated := documents.UpdateMeta(id, Lifecycle.ErrorCallback(cause), now);
      if updated.Err? {
        return Err(Lifecycle.Message(Lifecycle.UpdateRefused));
      }
      var failed := documents.TransitionTo(id, Failed, now);
      if failed.Err? {
        return Err(Lifecycle.Message(Lifecycle.TransitionRefused));
      }
      return Err(cause);
    }

    /** The download of a document: the handler records its pages through the hook until one is refused. */
    method ArchiveContent(id: int, visit: Visit, now: int) returns (r: Outcome<(), string>)
      modifies documents
      ensures documents.docs == RecordAll(old(documents.docs), id, visit.pages, now).0
      ensures r == if RecordAll(old(documents.docs), id, visit.pages, now).1 then visit.content
                   else Err(Lifecycle.Message(Lifecycle.PageRefused))
    {
      ghost var start := documents.docs;
      for k := 0 to |visit.pages|
        invariant RecordAll(start, id, visit.pages[..k], now) == (documents.docs, true)
      {
        assert visit.pages[..k + 1][..k] == visit.pages[..k];
        var recorded := documents.AddPage(id, visit.pages[k], now);
        if recorded.Err? {
          RecordAllStops(start, id, visit.pages, k + 1, now);
          return Err(Lifecycle.Message(Lifecycle.PageRefused));
        }
      }
      assert visit.pages[..|visit.pages|] == visit.pages;
      return visit.content;
    }

    /** The last part of processing: reload, write the manifest and mark the document archived. */
    method FinishDocument(id: int, objectStorage: MemoryObjectStore, manifest: Outcome<Bytes, string>, now: int)
      returns (r: Outcome<Document, string>)
      requires Visible(documents.docs, id)
      requires documents.docs[id].status.Resolving? || documents.docs[id].status.Downloading?
      modifies documents, objectStorage
      ensures var was := old(documents.docs);
              documents.docs == was[id := if manifest.Ok? then SetStatus(was[id], Archived, now)
                                          else was[id].(error := manifest.error, status := Failed, updatedAt := now)]
      ensures r == if manifest.Ok? then Ok(documents.docs[id]) else Err(manifest.error)
      ensures manifest.Ok? ==> HoldsManifest(objectStorage.objects, id, manifest.value)
      ensures forall key :: key != ManifestKeyOf(id) ==>
                MapGet(objectStorage.objects, key) == MapGet(old(objectStorage.objects), key)
    {
      hide ManifestKeyOf;
      var loaded := documents.Get(id);
      assert loaded.Ok?;
      if manifest.Err? {
        r := FailDocument(id, manifest.error, now);
        return;
      }
      var body := manifest.value;
      ManifestKeyShape(id);
      var put := objectStorage.PutObject(ObjectInfo(ManifestKeyOf(id), |body|, "application/json", ""), body, now);
      assert put.Ok?;
      var moved := documents.TransitionTo(id, Archived, now);
      assert moved.Ok?;
      var result := documents.Get(id);
      return if result.Ok? then Ok(result.value) else Err(Lifecycle.Message(Lifecycle.DocumentGone));
    }

    /** The middle part of processing: save what was resolved, and download it unless it is all there. */
    method ArchiveResolved(id: int, objectStorage: MemoryObjectStore, visit: Visit, now: int)
      returns (r: Outcome<Document, string>)
      requires InRange(documents.docs, id) && documents.docs[id].status.Resolving? && visit.resolved.Ok?
      modifies documents, objectStorage
      ensures |documents.docs| == |old(documents.docs)|
      ensures forall j :: 0 <= j < |documents.docs| && j != id ==> documents.docs[j] == old(documents.docs)[j]
      ensures ArchivedTo(old(documents.docs), documents.docs, id, visit, now, r)
      ensures SameRecord(old(documents.docs)[id], documents.docs[id])
      ensures r.Ok? ==> visit.manifest.Ok? && HoldsManifest(objectStorage.objects, id, visit.manifest.value)
      ensures forall key :: key != ManifestKeyOf(id) ==>
                MapGet(objectStorage.objects, key) == MapGet(old(objectStorage.objects), key)
    {
      hide PrefixOf, ManifestKeyOf, RecordAll;
      ghost var docs0 := documents.docs;
      var updated := documents.UpdateMeta(id, Lifecycle.ResolvedCallback(visit.resolved.value), now);
      assert updated.Ok?;
      var document := updated.value;

      if document.progress.done < document.progress.total {
        var reset := documents.ResetPages(id, now);
        assert reset.Ok?;
        var moved := documents.TransitionTo(id, Downloading, now);
        assert moved.Ok?;
        ghost var begun := documents.docs;
        assert begun == docs0[id := Opened(docs0[id], visit.resolved.value, now)];
        var archived := ArchiveContent(id, visit, now);
        RecordAllTouchesPages(begun, id, visit.pages, now);
        if archived.Err? {
          r := FailDocument(id, archived.error, now);
          return;
        }
      }

      assert forall k :: 0 <= k < |documents.docs| && k != id ==> documents.docs[k] == docs0[k];
      r := FinishDocument(id, objectStorage, visit.manifest, now);
      var d := documents.docs[id];
      assert r.Ok? <==> Archives(docs0, id, visit, now);
      assert r.Ok? ==> d == Finished(docs0, id, visit, now) == r.value;
      assert r.Err? ==> FailedWith(docs0[id], d, r.error);
      assert r.Err? ==> NeedsDownload(docs0[id], visit.resolved.value, now) || SamePages(docs0[id], d);
    }

    /**
     * Archives one document: resolve it, download what is missing, write the manifest. Each `assert … .Ok?` stands
     * where the source tests for an error that only an interleaved API call could cause.
     */
    method ProcessDocument(id: int, visit: Visit, now: int) returns (r: Outcome<Document, string>)
      requires Valid()
      modifies documents, Backends()
      ensures Valid() && |documents.docs| == |old(documents.docs)|
      ensures forall j :: 0 <= j < |documents.docs| && j != id ==> documents.docs[j] == old(documents.docs)[j]
      ensures !Visible(old(documents.docs), id) ==> r.Err? && documents.docs == old(documents.docs)
      ensures var was := old(documents.docs);
              InRange(was, id) && (was[id].status.Queued? || was[id].status.Resolving?)
              ==> ProcessedTo(factories, storages.Keys, old(documents.docs), documents.docs, id, visit, now, r)
      ensures var was := old(documents.docs);
              InRange(was, id) && was[id].status in {Downloading, Archived, Failed}
              ==> r.Err? && documents.docs == was[id := TurnedAway(factories, storages.Keys, was[id], visit, now)]
      ensures r.Ok? ==>
                && InRange(old(documents.docs), id) && visit.manifest.Ok?
                && var backend := old(documents.docs)[id].storageBackend;
                && backend in storages && HoldsManifest(storages[backend].objects, id, visit.manifest.value)
      ensures forall name, key :: name in storages && (id < 0 || key != ManifestKeyOf(id)) ==>
                MapGet(storages[name].objects, key) == MapGet(old(storages[name].objects), key)
    {
      hide PrefixOf, ManifestKeyOf, RecordAll, ArchivedTo, Lifecycle.Message, Distinct;
      ghost var docs0 := documents.docs;
      var loaded := documents.Get(id);
      if loaded.Err? {
        return Err(Lifecycle.Message(Lifecycle.DocumentGone));
      }
      var document := loaded.value;
      if document.source !in factories {
        r := FailDocument(id, Lifecycle.Message(Lifecycle.NoFactory), now);
        return;
      }
      if document.storageBackend !in storages {
        r := FailDocument(id, Lifecycle.Message(Lifecycle.NoStorage), now);
        return;
      }
      var objectStorage := storages[document.storageBackend];
      if !visit.usable {
        r := FailDocument(id, Lifecycle.Message(Lifecycle.NoHandler), now);
        return;
      }

      var moved := documents.TransitionTo(id, Resolving, now);
      if moved.Err? {
        r := FailDocument(id, Lifecycle.Message(Lifecycle.TransitionRefused), now);
        return;
      }
      if visit.resolved.Err? {
        r := FailDocument(id, visit.resolved.error, now);
        return;
      }
      ghost var claimed := documents.docs;
      r := ArchiveResolved(id, objectStorage, visit, now);
      if docs0[id].status.Queued? || docs0[id].status.Resolving? {
        ClaimedFirst(docs0, claimed, documents.docs, id, visit, now, r);
      }
    }

    /**
     * Takes the first five queued documents and processes each; afterwards exactly these are archived or
     * failed, and that many fewer are queued.
     */
    method ProcessQueued(visits: int -> Visit, now: int)
      requires Valid()
      modifies documents, Backends()
      ensures Valid()
      ensures FirstProcessed(factories, storages.Keys, old(documents.docs), documents.docs, visits, now, 5)
      ensures var count := CountBefore(old(documents.docs), Queued, |old(documents.docs)|);
              CountBefore(documents.docs, Queued, |documents.docs|) == count - Min(5, count)
      ensures ManifestsStored(old(documents.docs), documents.docs, Contents(), visits, 5)
    {
      hide Queries.Run, PrefixOf, ManifestKeyOf, ProcessedTo, CountBefore, FirstProcessed, ManifestsStored;
      ghost var docs0 := documents.docs;
      Queries.StatusQueryBuilds(Queued, QUEUE_BATCH);
      var query := Queries.Build(Queries.EMPTY_QUERY.(status := Some(Queued), limit := QUEUE_BATCH)).value;
      var queued := documents.Query(query);
      BatchIsFirstFew(docs0, Queued, QUEUE_BATCH);
      NoneProcessed(factories, storages.Keys, docs0, visits, now);
      NoManifests(docs0, Contents(), visits);
      for k := 0 to |queued|
        invariant Valid()
        invariant FirstProcessed(factories, storages.Keys, docs0, documents.docs, visits, now, k)
        invariant CountBefore(documents.docs, Queued, |documents.docs|) == CountBefore(docs0, Queued, |docs0|) - k
        invariant ManifestsStored(docs0, documents.docs, Contents(), visits, k)
      {
        var id := queued[k].id;
        ghost var docs, buckets := documents.docs, Contents();
        NextIsUntouched(factories, storages.Keys, docs0, docs, id, visits, now, k);
        var r := ProcessDocument(id, visits(id), now);
        OneMoreProcessed(factories, storages.Keys, docs0, docs, documents.docs, id, visits, now, k, r);
        ProcessedIsOver(factories, storages.Keys, docs, documents.docs, id, visits(id), now, r);
        OneMoreManifest(docs0, docs, documents.docs, buckets, Contents(), id, visits, k);
      }
      WholeBatchProcessed(factories, storages.Keys, docs0, documents.docs, visits, now, |queued|);
      WholeBatchManifests(docs0, documents.docs, Contents(), visits, |queued|);
    }
  }

  lemma NoManifests(docs: Docs, buckets: Buckets, visits: int -> Visit)
    ensures ManifestsStored(docs, docs, buckets, visits, 0)
  {
  }

  lemma WholeBatchManifests(docs0: Docs, docs: Docs, buckets: Buckets, visits: int -> Visit, k: nat)
    requires ManifestsStored(docs0, docs, buckets, visits, k)
    requires k == Min(QUEUE_BATCH, CountBefore(docs0, Queued, |docs0|))
    ensures ManifestsStored(docs0, docs, buckets, visits, 5)
  {
    hide ManifestStored, CountBefore;
    forall i | AmongFirst(docs0, i, 5) ensures AmongFirst(docs0, i, k) {
      CountMonotone(docs0, Queued, i, |docs0|);
    }
  }

  lemma SweptNone(docs: Docs, buckets: Buckets, stuck: StuckTest, now: int)
    ensures Swept(docs, buckets, docs, buckets, stuck, {}, now)
  {
    hide PrefixOf, Purgeable;
  }

  lemma SweptIsSweptTo(docs0: Docs, buckets0: Buckets, docs: Docs, buckets: Buckets, stuck: StuckTest,
                       purged: set<int>, now: int)
    requires Swept(docs0, buckets0, docs, buckets, stuck, purged, now)
    ensures SweptTo(docs0, docs, stuck, purged, now)
  {
  }

  /** What a batch member that is not stuck was when the sweep began. */
  lemma BatchMember(docs0: Docs, buckets0: Buckets, before: Docs, docs: Docs, buckets: Buckets, stuck: StuckTest,
                    start: set<int>, purged: set<int>, now: int, d: Document)
    requires SweptTo(docs0, before, stuck, start, now) && IdsInOrder(before)
    requires Swept(docs0, buckets0, docs, buckets, stuck, purged, now)
    requires d in Queries.Run(Queries.StatusQuery(Deleted, PURGE_BATCH), before) && !stuck(d)
    requires InRange(docs, d.id) && docs[d.id] == d && d.status.Deleted?
    ensures Purgeable(docs0, stuck, d.id) && docs0[d.id] == d && d.id !in purged
  {
    hide Queries.Run, PrefixOf, BucketSweptTo, StuckBefore;
    BatchIsPurgeable(docs0, before, stuck, start, now, d);
  }
}
