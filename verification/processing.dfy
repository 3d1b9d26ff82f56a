/** What processing one queued document comes to when nothing interferes. */
module Processing {
  import opened Arithmetic
  import opened Wrappers
  import opened Model
  import opened StoreSpec
  import opened Objects
  import opened Batches
  import opened Recording
  import Lifecycle

  /**
   * How the source handler behaves while it works on one document: whether the factory yields a handler,
   * what resolving returns, which pages the download hands to the hook and in which order, how the download
   * ends once they are recorded, and the body of the manifest.
   */
  datatype Visit = Visit(
    usable: bool, resolved: Outcome<Lifecycle.Resolved, string>, pages: seq<Page>, content: Outcome<(), string>,
    manifest: Outcome<Bytes, string>)

  /** The document while it is being resolved, with the resolved metadata filled in. */
  function Refilled(d: Document, resolved: Lifecycle.Resolved, now: int): Document {
    var total := if resolved.pages.Some? then resolved.pages.value else d.progress.total;
    d.(sourceMeta := resolved.sourceMeta, title := resolved.title, progress := Progress(d.progress.done, total),
       error := "", status := Resolving, updatedAt := now)
  }

  /** The download runs only when fewer pages are recorded than were resolved. */
  predicate NeedsDownload(d: Document, resolved: Lifecycle.Resolved, now: int) {
    var p := Refilled(d, resolved, now).progress;
    p.done < p.total
  }

  /** The document as its download begins: emptied, and downloading. */
  function Opened(d: Document, resolved: Lifecycle.Resolved, now: int): Document {
    var r := Refilled(d, resolved, now);
    r.(pages := [], progress := r.progress.(done := 0), status := Downloading)
  }

  /** The store after the download has handed its pages to the hook, and whether all were recorded. */
  function Downloaded(docs: Docs, id: nat, visit: Visit, now: int): (r: (Docs, bool))
    requires id < |docs| && visit.resolved.Ok?
    ensures |r.0| == |docs|
  {
    RecordAll(docs[id := Opened(docs[id], visit.resolved.value, now)], id, visit.pages, now)
  }

  /** The handler exists and has resolved the document. */
  predicate Resolves(factories: set<string>, backends: set<string>, d: Document, visit: Visit) {
    d.source in factories && d.storageBackend in backends && visit.usable && visit.resolved.Ok?
  }

  /** The document after it has been archived. */
  function Finished(docs: Docs, id: nat, visit: Visit, now: int): Document
    requires id < |docs| && visit.resolved.Ok?
  {
    var d := if NeedsDownload(docs[id], visit.resolved.value, now) then Downloaded(docs, id, visit, now).0[id]
             else Refilled(docs[id], visit.resolved.value, now);
    SetStatus(d, Archived, now)
  }

  /** Nothing fails once the document has been resolved. */
  predicate Archives(docs: Docs, id: nat, visit: Visit, now: int)
    requires id < |docs| && visit.resolved.Ok?
  {
    && (NeedsDownload(docs[id], visit.resolved.value, now) ==>
          Downloaded(docs, id, visit, now).1 && visit.content.Ok?)
    && visit.manifest.Ok?
  }

  /** What goes wrong first once the document has been resolved. */
  function Cause(docs: Docs, id: nat, visit: Visit, now: int): string
    requires id < |docs| && visit.resolved.Ok? && !Archives(docs, id, visit, now)
  {
    if NeedsDownload(docs[id], visit.resolved.value, now) && !Downloaded(docs, id, visit, now).1 then
      Lifecycle.Message(Lifecycle.PageRefused)
    else if NeedsDownload(docs[id], visit.resolved.value, now) && visit.content.Err? then visit.content.error
    else visit.manifest.error
  }

  /**
   * How the rest goes once the document has been resolved: it is archived exactly when nothing fails, and then
   * holds what was resolved and downloaded; otherwise it is failed and carries the cause.
   * Its pages survive unless a download began.
   */
  ghost predicate ArchivedTo(docs: Docs, docs': Docs, id: nat, visit: Visit, now: int, r: Outcome<Document, string>)
    requires id < |docs| == |docs'| && visit.resolved.Ok?
  {
    && (r.Ok? <==> Archives(docs, id, visit, now))
    && (r.Ok? ==> docs'[id] == Finished(docs, id, visit, now) == r.value)
    && (r.Err? ==> && r.error == Cause(docs, id, visit, now) && FailedWith(docs[id], docs'[id], r.error)
                   && (NeedsDownload(docs[id], visit.resolved.value, now) || SamePages(docs[id], docs'[id])))
    && SameRecord(docs[id], docs'[id])
  }

  predicate FailedWith(d: Document, d': Document, cause: string) {
    d'.status == Failed && d'.error == cause && SameRecord(d, d')
  }

  predicate SamePages(d: Document, d': Document) {
    d'.pages == d.pages && d'.progress.done == d.progress.done
  }

  predicate SameRecord(d: Document, d': Document) {
    SameIdentity(d, d') && d'.storageBackend == d.storageBackend
  }

  /** What goes wrong first before the document has been resolved. */
  function EarlyCause(factories: set<string>, backends: set<string>, d: Document, visit: Visit): string
    requires !Resolves(factories, backends, d, visit)
  {
    if d.source !in factories then Lifecycle.Message(Lifecycle.NoFactory)
    else if d.storageBackend !in backends then Lifecycle.Message(Lifecycle.NoStorage)
    else if !visit.usable then Lifecycle.Message(Lifecycle.NoHandler)
    else visit.resolved.error
  }

  /** A document that cannot be resolved again keeps the reason; it fails, unless it is archived already. */
  function TurnedAway(factories: set<string>, backends: set<string>, d: Document, visit: Visit, now: int): Document {
    var cause := if d.source in factories && d.storageBackend in backends && visit.usable
                 then Lifecycle.Message(Lifecycle.TransitionRefused)
                 else EarlyCause(factories, backends, d, visit);
    d.(error := cause, status := if d.status.Archived? then Archived else Failed, updatedAt := now)
  }

  /** How processing a queued document ends, whatever its handler does. */
  ghost predicate ProcessedTo(factories: set<string>, backends: set<string>, docs: Docs, docs': Docs, id: nat,
                              visit: Visit, now: int, r: Outcome<Document, string>)
    requires id < |docs| == |docs'|
  {
    if Resolves(factories, backends, docs[id], visit) then ArchivedTo(docs, docs', id, visit, now, r)
    else
      && r == Err(EarlyCause(factories, backends, docs[id], visit))
      && FailedWith(docs[id], docs'[id], r.error) && SamePages(docs[id], docs'[id])
  }

  /** Moving the document to resolving first makes no difference to how it ends. */
  lemma ClaimedFirst(docs: Docs, claimed: Docs, docs': Docs, id: nat, visit: Visit, now: int,
                     r: Outcome<Document, string>)
    requires id < |docs| == |claimed| == |docs'| && visit.resolved.Ok?
    requires claimed == docs[id := SetStatus(docs[id], Resolving, now)]
    requires ArchivedTo(claimed, docs', id, visit, now, r)
    ensures ArchivedTo(docs, docs', id, visit, now, r)
  {
    hide RecordAll;
    var resolved := visit.resolved.value;
    assert Refilled(claimed[id], resolved, now) == Refilled(docs[id], resolved, now);
    assert claimed[id := Opened(docs[id], resolved, now)] == docs[id := Opened(docs[id], resolved, now)];
  }

  function MapGet<K, V>(m: map<K, V>, k: K): Option<V> {
    if k in m then Some(m[k]) else None
  }

  /** Recording pages changes only the pages, the progress and the time stamp of their document. */
  lemma {:induction false} RecordAllTouchesPages(docs: Docs, id: nat, pages: seq<Page>, now: int)
    requires id < |docs|
    ensures var (docs', ok) := RecordAll(docs, id, pages, now);
            && |docs'| == |docs|
            && docs' == docs[id := docs[id].(pages := docs'[id].pages, progress := docs'[id].progress,
                                             updatedAt := docs'[id].updatedAt)]
            && (ok ==> docs'[id].progress.done == docs[id].progress.done + |pages|)
            && (ok ==> docs'[id].progress.total
                       == if pages != [] && docs[id].progress.total < docs'[id].progress.done
                          then docs'[id].progress.done else docs[id].progress.total)
  {
    hide Place, Occupied;
    if pages != [] {
      RecordAllTouchesPages(docs, id, pages[..|pages| - 1], now);
    } else {
      assert docs == docs[id := docs[id]];
    }
  }

  /**
   * An archived document is complete exactly when its download was not needed or recorded at least as many
   * pages as were resolved.
   */
  lemma ArchivedDoneExactly(docs: Docs, id: nat, visit: Visit, now: int)
    requires id < |docs| && visit.resolved.Ok? && Archives(docs, id, visit, now)
    ensures var p := Finished(docs, id, visit, now).progress;
            p.done >= p.total
            <==> (!NeedsDownload(docs[id], visit.resolved.value, now)
                  || |visit.pages| >= Refilled(docs[id], visit.resolved.value, now).progress.total)
  {
    RecordAllTouchesPages(docs[id := Opened(docs[id], visit.resolved.value, now)], id, visit.pages, now);
  }

  /** A document that has as many pages as were resolved keeps them and is archived without a download. */
  lemma CompleteDocumentsKeepTheirPages(docs: Docs, id: nat, visit: Visit, now: int)
    requires id < |docs| && visit.resolved.Ok? && visit.manifest.Ok?
    requires docs[id].progress.done >= (if visit.resolved.value.pages.Some? then visit.resolved.value.pages.value
                                        else docs[id].progress.total)
    ensures Archives(docs, id, visit, now) && Finished(docs, id, visit, now).pages == docs[id].pages
    ensures Finished(docs, id, visit, now).progress.done == docs[id].progress.done
  {
  }

  /** Whatever happens to its pages, an archived document has the resolved title and metadata, no error, and its identity. */
  lemma ArchivedCarriesResolved(docs: Docs, id: nat, visit: Visit, now: int)
    requires id < |docs| && visit.resolved.Ok? && Archives(docs, id, visit, now)
    ensures var d, resolved := Finished(docs, id, visit, now), visit.resolved.value;
            && d.title == resolved.title && d.sourceMeta == resolved.sourceMeta && d.error == "" && d.status == Archived
            && d.updatedAt == now && SameRecord(docs[id], d)
  {
    RecordAllTouchesPages(docs[id := Opened(docs[id], visit.resolved.value, now)], id, visit.pages, now);
  }

  /**
   * A handler that hands each of the n resolved pages to the hook once, in any order, never meets a duplicate,
   * and the archived document lists exactly those pages in their order.
   */
  lemma FaithfulDownloadArchivesAll(docs: Docs, id: nat, visit: Visit, plan: seq<Page>, now: int)
    requires id < |docs| && visit.resolved.Ok? && NeedsDownload(docs[id], visit.resolved.value, now)
    requires visit.resolved.value.pages == Some(|plan|)
    requires forall i :: 0 <= i < |plan| ==> SlotExists(plan[i], i)
    requires multiset(visit.pages) == multiset(plan)
    ensures Downloaded(docs, id, visit, now).1
    ensures Finished(docs, id, visit, now).pages == plan
    ensures Finished(docs, id, visit, now).progress == Progress(|plan|, |plan|)
  {
    var begun := docs[id := Opened(docs[id], visit.resolved.value, now)];
    PlannedPagesFillTheSlice(begun, id, plan, visit.pages, now);
  }

  // ----- a batch of queued documents -----

  /** Queued, with fewer than k queued documents before it. */
  predicate AmongFirst(docs: Docs, i: int, k: nat) {
    InRange(docs, i) && docs[i].status.Queued? && CountBefore(docs, Queued, i) < k
  }

  /** What a caller of processing was told, read off the document it left. */
  function ResultOf(d: Document): Outcome<Document, string> {
    if d.status.Archived? then Ok(d) else Err(d.error)
  }

  /** Exactly the first k queued documents have been processed, each as it would have been on its own. */
  ghost predicate FirstProcessed(factories: set<string>, backends: set<string>, docs: Docs, docs': Docs,
                                 visits: int -> Visit, now: int, k: nat) {
    && |docs'| == |docs|
    && (forall i :: 0 <= i < |docs| && !AmongFirst(docs, i, k) ==> docs'[i] == docs[i])
    && (forall i :: AmongFirst(docs, i, k) ==>
          ProcessedTo(factories, backends, docs, docs', i, visits(i), now, ResultOf(docs'[i])))
  }

  lemma ProcessedIsOver(factories: set<string>, backends: set<string>, docs: Docs, docs': Docs, id: nat, visit: Visit,
                        now: int, r: Outcome<Document, string>)
    requires id < |docs| == |docs'| && ProcessedTo(factories, backends, docs, docs', id, visit, now, r)
    ensures r == ResultOf(docs'[id]) && (docs'[id].status.Archived? || docs'[id].status.Failed?)
  {
    hide RecordAll;
  }

  /** Recording pages of one document does not depend on the others. */
  lemma {:induction false} RecordAllIsLocal(docs: Docs, docs': Docs, id: nat, pages: seq<Page>, now: int)
    requires id < |docs| == |docs'| && docs[id] == docs'[id]
    ensures RecordAll(docs, id, pages, now).0[id] == RecordAll(docs', id, pages, now).0[id]
    ensures RecordAll(docs, id, pages, now).1 == RecordAll(docs', id, pages, now).1
  {
    hide Place, Occupied;
    if pages != [] {
      RecordAllIsLocal(docs, docs', id, pages[..|pages| - 1], now);
    }
  }

  lemma ProcessedIsLocal(factories: set<string>, backends: set<string>, docs: Docs, docs0: Docs, docs': Docs,
                         docs'': Docs, id: nat, visit: Visit, now: int, r: Outcome<Document, string>)
    requires id < |docs| == |docs0| == |docs'| == |docs''|
    requires docs[id] == docs0[id] && docs'[id] == docs''[id]
    requires ProcessedTo(factories, backends, docs0, docs', id, visit, now, r)
    ensures ProcessedTo(factories, backends, docs, docs'', id, visit, now, r)
  {
    hide RecordAll;
    if visit.resolved.Ok? {
      var begun := Opened(docs[id], visit.resolved.value, now);
      RecordAllIsLocal(docs[id := begun], docs0[id := begun], id, visit.pages, now);
    }
  }

  lemma NoneProcessed(factories: set<string>, backends: set<string>, docs: Docs, visits: int -> Visit, now: int)
    ensures FirstProcessed(factories, backends, docs, docs, visits, now, 0)
  {
  }

  lemma NextIsUntouched(factories: set<string>, backends: set<string>, docs0: Docs, docs: Docs, id: nat,
                        visits: int -> Visit, now: int, k: nat)
    requires FirstProcessed(factories, backends, docs0, docs, visits, now, k)
    requires id < |docs0| && CountBefore(docs0, Queued, id) == k
    ensures |docs| == |docs0| && docs[id] == docs0[id]
  {
  }

  /** A batch that is short held every queued document. */
  lemma WholeBatchProcessed(factories: set<string>, backends: set<string>, docs0: Docs, docs: Docs,
                            visits: int -> Visit, now: int, k: nat)
    requires FirstProcessed(factories, backends, docs0, docs, visits, now, k)
    requires k == Min(QUEUE_BATCH, CountBefore(docs0, Queued, |docs0|))
    ensures FirstProcessed(factories, backends, docs0, docs, visits, now, QUEUE_BATCH)
  {
    hide ProcessedTo;
    forall i | AmongFirst(docs0, i, QUEUE_BATCH) ensures AmongFirst(docs0, i, k) {
      CountMonotone(docs0, Queued, i, |docs0|);
    }
  }

  /** One more document of the batch. */
  lemma OneMoreProcessed(factories: set<string>, backends: set<string>, docs0: Docs, docs: Docs, docs': Docs, id: nat,
                         visits: int -> Visit, now: int, k: nat, r: Outcome<Document, string>)
    requires FirstProcessed(factories, backends, docs0, docs, visits, now, k)
    requires id < |docs0| == |docs'| && docs0[id].status.Queued? && CountBefore(docs0, Queued, id) == k
    requires forall j :: 0 <= j < |docs| && j != id ==> docs'[j] == docs[j]
    requires ProcessedTo(factories, backends, docs, docs', id, visits(id), now, r)
    ensures FirstProcessed(factories, backends, docs0, docs', visits, now, k + 1)
    ensures CountBefore(docs', Queued, |docs'|) == CountBefore(docs, Queued, |docs|) - 1
  {
    hide ProcessedTo;
    assert docs[id] == docs0[id];
    forall i | AmongFirst(docs0, i, k + 1) && i != id ensures AmongFirst(docs0, i, k) {
      if i < id { CountMonotone(docs0, Queued, i, id); } else { CountMonotone(docs0, Queued, id, i); }
    }
    ProcessedIsOver(factories, backends, docs, docs', id, visits(id), now, r);
    forall i | AmongFirst(docs0, i, k + 1)
      ensures ProcessedTo(factories, backends, docs0, docs', i, visits(i), now, ResultOf(docs'[i]))
    {
      if i == id {
        ProcessedIsLocal(factories, backends, docs0, docs, docs', docs', id, visits(id), now, r);
      } else {
        ProcessedIsLocal(factories, backends, docs0, docs0, docs, docs', i, visits(i), now, ResultOf(docs[i]));
      }
    }
    OneLessQueued(docs, docs', id, |docs|);
  }

  lemma {:induction false} OneLessQueued(docs: Docs, docs': Docs, id: nat, n: nat)
    requires |docs'| == |docs| && id < |docs| && n <= |docs|
    requires forall j :: 0 <= j < |docs| && j != id ==> docs'[j] == docs[j]
    requires docs[id].status.Queued? && !docs'[id].status.Queued?
    ensures CountBefore(docs', Queued, n) == CountBefore(docs, Queued, n) - if id < n then 1 else 0
  {
    if n > 0 {
      OneLessQueued(docs, docs', id, n - 1);
    }
  }
}
