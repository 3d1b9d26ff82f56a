/**
 * The archive at run time: one worker goroutine and any number of API calls on the same stores.
 * Every store or object call is one step, and API calls may fall between any two steps of the worker.
 */
module Lifecycle {
  import opened Arithmetic
  import opened Wrappers
  import opened Keys
  import opened Model
  import opened StoreSpec
  import opened Objects
  import Queries

  const MAX_ATTEMPTS := 5

  // ----- what a source handler can do -----

  /** What resolving yields; `pages` is None where the handler leaves the page list nil. */
  datatype Resolved = Resolved(sourceMeta: string, title: string, pages: Option<nat>)

  datatype PagePlan = PagePlan(index: int, hash: string, contentType: string)

  datatype FetchResult = FetchedBytes(content: Bytes) | RateLimited | FetchFailed

  /** One page of a download: before the head call, after a miss, before the put, before the hook, or over. */
  datatype Stage =
    | Starting(attempt: nat)
    | Missing(attempt: nat)
    | Fetched(content: Bytes)
    | Ready(page: Page)
    | Recorded
    | Abandoned

  datatype Task = Task(plan: PagePlan, stage: Stage)

  // ----- where the worker stands -----

  /** The position inside the processing of one document: which call comes next. */
  datatype Position =
    | Loading
    | Claiming(document: Document)
    | ResolvingSource
    | SavingMeta(resolved: Resolved)
    | ClearingPages
    | Opening
    | Planning
    | Archiving(tasks: seq<Task>)
    | Reloading
    | WritingManifest
    | Finishing
    | Returning
    | SavingError(cause: string)
    | MarkingFailed(cause: string)

  datatype SweepPosition = Querying | Deleting(document: Document) | Purging(document: Document)

  datatype Worker =
    | Idle
    | Draining(id: int, rest: seq<int>, backend: string, position: Position)
    | Sweeping(batch: nat, purged: nat, left: seq<Document>, at: SweepPosition)

  /**
   * What happened to the pages of a document since the worker last saved what it resolved: the total it
   * resolved; the pages it was then due to have, which are those recorded already or those a download
   * planned; the pages API calls have cleared since; the most pages recorded at once by the download.
   */
  datatype Ledger = Ledger(resolved: int, due: int, lost: int, peak: int)

  const NEW_LEDGER := Ledger(0, 0, 0, 0)

  /**
   * `pending` holds the documents whose full refresh has been queued but not yet cleared.
   * The last two fields record history and influence nothing: documents whose objects a sweep removed
   * and whose pages are still recorded, and the ledgers of all documents.
   */
  datatype State = State(
    docs: Docs, buckets: map<string, Bucket>, factories: set<string>, worker: Worker, pending: multiset<int>,
    torn: set<int>, ledgers: seq<Ledger>)

  function LedgerOf(s: State, id: int): Ledger {
    if 0 <= id < |s.ledgers| then s.ledgers[id] else NEW_LEDGER
  }

  function WithLedger(s: State, id: int, ledger: Ledger): State {
    if 0 <= id < |s.ledgers| then s.(ledgers := s.ledgers[id := ledger]) else s
  }

  datatype Action =
    | ApiRequest(source: string, sourceDocumentID: string, backend: string, now: int)
    | ApiDelete(id: int, now: int)
    | ApiRefresh(id: int, all: bool, now: int)
    | ApiClear(id: int, now: int)
    | ApiRestore(id: int, now: int)
    | BeginQueue
    | BeginSweep
    | Load
    | Claim(usable: bool, now: int)
    | ResolveSource(resolved: Outcome<Resolved, string>)
    | SaveMeta(now: int)
    | ClearPages(now: int)
    | Open(now: int)
    | PlanPages(plans: Outcome<seq<PagePlan>, string>)
    | HeadPage(k: nat)
    | FetchPage(k: nat, result: FetchResult)
    | PutPage(k: nat, now: int)
    | RecordPage(k: nat, now: int)
    | AbandonPage(k: nat)
    | Collect
    | Reload
    | PutManifest(manifest: Outcome<Object, string>)
    | Finish(now: int)
    | Return
    | SaveError(now: int)
    | MarkFailed(now: int)
    | SweepQuery
    | SweepDelete(ok: bool)
    | SweepPurge(now: int)

  function Initial(factories: set<string>, backends: set<string>): State {
    State([], map b | b in backends :: map[], factories, Idle, multiset{}, {}, [])
  }

  // ----- API calls -----

  function NewDocument(source: string, sourceDocumentID: string, backend: string): Document {
    Document(0, source, sourceDocumentID, "", "", backend, Progress(0, 0), "", [], 0, 0, Queued)
  }

  function DoRequest(s: State, source: string, sourceDocumentID: string, backend: string, now: int): State {
    if source == "" || sourceDocumentID == "" || source !in s.factories || backend !in s.buckets then s
    else
      var r := Create(s.docs, NewDocument(source, sourceDocumentID, backend), now);
      if r.result.Ok? then s.(docs := r.docs, ledgers := s.ledgers + [NEW_LEDGER]) else s
  }

  function DoRefresh(s: State, id: int, all: bool, now: int): State {
    var r := TransitionTo(s.docs, id, Queued, now);
    if r.result.Err? then s
    else s.(docs := r.docs, pending := if all then s.pending + multiset{id} else s.pending)
  }

  /** The second half of a full refresh, which runs some time after the first. */
  function DoClear(s: State, id: int, now: int): State {
    if id !in s.pending then s
    else
      var r := ResetPages(s.docs, id, now);
      var s' := s.(pending := s.pending - multiset{id});
      if r.result.Err? then s'
      else
        var l := LedgerOf(s, id);
        var cleared := if InRange(s.docs, id) then s.docs[id].progress.done else 0;
        WithLedger(s', id, l.(lost := l.lost + cleared)).(docs := r.docs, torn := s.torn - {id})
  }

  // ----- processing one document -----

  function Goto(s: State, position: Position): State
    requires s.worker.Draining?
  {
    s.(worker := s.worker.(position := position))
  }

  /** What the worker itself can find wrong; the handler's errors bring their own words. */
  datatype Fault =
    | NoFactory | NoStorage | NoHandler | TransitionRefused | UpdateRefused | ResetRefused | ContentFailed
    | PageRefused | DocumentGone

  function Message(fault: Fault): string {
    match fault
    case NoFactory => "source handler factory not found"
    case NoStorage => "object storage not found"
    case NoHandler => "source handler factory returned nil"
    case TransitionRefused => "invalid document status transition"
    case UpdateRefused => "update metadata"
    case ResetRefused => "reset pages"
    case ContentFailed => "archive content"
    case PageRefused => "page download hook"
    case DocumentGone => "document not found"
  }

  function Fail(s: State, cause: string): State
    requires s.worker.Draining?
  {
    Goto(s, SavingError(cause))
  }

  function Leave(s: State): State
    requires s.worker.Draining?
  {
    s.(worker := if s.worker.rest == [] then Idle else Draining(s.worker.rest[0], s.worker.rest[1..], "", Loading))
  }

  function Ids(found: seq<Document>): seq<int> {
    if found == [] then [] else [found[0].id] + Ids(found[1..])
  }

  function DoBeginQueue(s: State): State {
    var ids := Ids(Queries.Run(Queries.StatusQuery(Queued, QUEUE_BATCH), s.docs));
    if ids == [] then s else s.(worker := Draining(ids[0], ids[1..], "", Loading))
  }

  function DoLoad(s: State): State
    requires s.worker.Draining?
  {
    var r := Get(s.docs, s.worker.id);
    if r.Err? then Leave(s)
    else s.(worker := s.worker.(position := Claiming(r.value), backend := r.value.storageBackend))
  }

  /** Factory and storage are looked up, then the document is moved to resolving. */
  function DoClaim(s: State, document: Document, usable: bool, now: int): State
    requires s.worker.Draining?
  {
    var id := s.worker.id;
    if document.source !in s.factories then Fail(s, Message(NoFactory))
    else if document.storageBackend !in s.buckets then Fail(s, Message(NoStorage))
    else if !usable then Fail(s, Message(NoHandler))
    else
      var r := TransitionTo(s.docs, id, Resolving, now);
      if r.result.Err? then Fail(s, Message(TransitionRefused))
      else
        WithLedger(Goto(s, ResolvingSource), id, LedgerOf(s, id).(lost := 0)).(docs := r.docs)
  }

  function ApplyResolved(meta: DocumentMeta, resolved: Resolved): DocumentMeta {
    var total := if resolved.pages.Some? then resolved.pages.value else meta.progress.total;
    meta.(sourceMeta := resolved.sourceMeta, title := resolved.title,
          progress := meta.progress.(total := total), error := "")
  }

  function ResolvedCallback(resolved: Resolved): Callback {
    (meta: DocumentMeta) => Ok(ApplyResolved(meta, resolved))
  }

  function ErrorCallback(cause: string): Callback {
    (meta: DocumentMeta) => Ok(meta.(error := cause))
  }

  function DoSaveMeta(s: State, resolved: Resolved, now: int): State
    requires s.worker.Draining?
  {
    var r := UpdateMeta(s.docs, s.worker.id, ResolvedCallback(resolved), now);
    if r.result.Err? then Fail(s, Message(UpdateRefused))
    else
      var d := r.result.value;
      var next := Goto(s, if d.progress.done < d.progress.total then ClearingPages else Reloading);
      WithLedger(next, s.worker.id, Ledger(d.progress.total, d.progress.done, 0, 0)).(docs := r.docs)
  }

  function DoClearPages(s: State, now: int): State
    requires s.worker.Draining?
  {
    var id := s.worker.id;
    var r := ResetPages(s.docs, id, now);
    if r.result.Err? then Fail(s, Message(ResetRefused))
    else
      WithLedger(Goto(s, Opening), id, LedgerOf(s, id).(due := 0, lost := 0, peak := 0)).(
        docs := r.docs, torn := s.torn - {id})
  }

  function DoOpen(s: State, now: int): State
    requires s.worker.Draining?
  {
    var r := TransitionTo(s.docs, s.worker.id, Downloading, now);
    if r.result.Err? then Fail(s, Message(TransitionRefused))
    else Goto(s, Planning).(docs := r.docs)
  }

  function NewTasks(plans: seq<PagePlan>): (tasks: seq<Task>)
    ensures |tasks| == |plans|
  {
    seq(|plans|, k requires 0 <= k < |plans| => Task(plans[k], Starting(1)))
  }

  function DoPlanPages(s: State, plans: Outcome<seq<PagePlan>, string>): State
    requires s.worker.Draining?
  {
    if plans.Err? then Fail(s, plans.error)
    else
      WithLedger(Goto(s, Archiving(NewTasks(plans.value))), s.worker.id,
                 LedgerOf(s, s.worker.id).(due := |plans.value|))
  }

  // ----- downloading pages -----

  function BucketOf(s: State): Bucket
    requires s.worker.Draining?
  {
    if s.worker.backend in s.buckets then s.buckets[s.worker.backend] else map[]
  }

  function PutInto(s: State, key: string, stored: Object): State
    requires s.worker.Draining?
  {
    s.(buckets := s.buckets[s.worker.backend := BucketOf(s)[key := stored]])
  }

  function SetStage(s: State, k: nat, stage: Stage): State
    requires s.worker.Draining? && s.worker.position.Archiving? && k < |s.worker.position.tasks|
  {
    var tasks := s.worker.position.tasks;
    Goto(s, Archiving(tasks[k := tasks[k].(stage := stage)]))
  }

  function PageFor(plan: PagePlan, key: string, size: int): Page {
    Page(plan.index, key, plan.contentType, size, plan.hash)
  }

  /** The object put for a page. */
  function ObjectFor(plan: PagePlan, content: Bytes, now: int): Object {
    Object(content, plan.contentType, plan.hash, now)
  }

  /** The stage after the head call: reuse the object, report a clash, or go on to fetch. */
  function AfterHead(id: int, plan: PagePlan, bucket: Bucket, attempt: nat): Stage {
    if id < 0 then Abandoned
    else
      var key := PageKeyOf(id, plan.hash, plan.contentType);
      if key.Err? then Abandoned
      else if key.value in bucket then
        var found := bucket[key.value];
        if Matches(found, plan.hash) then Ready(PageFor(plan, key.value, |found.content|)) else Abandoned
      else Missing(attempt)
  }

  function AfterFetch(result: FetchResult, attempt: nat): Stage {
    match result
    case FetchedBytes(content) => Fetched(content)
    case RateLimited => if attempt >= MAX_ATTEMPTS then Abandoned else Starting(attempt + 1)
    case FetchFailed => Abandoned
  }

  function DoPutPage(s: State, k: nat, now: int): State
    requires s.worker.Draining? && s.worker.position.Archiving? && k < |s.worker.position.tasks|
    requires s.worker.position.tasks[k].stage.Fetched? && s.worker.id >= 0
  {
    var plan, content := s.worker.position.tasks[k].plan, s.worker.position.tasks[k].stage.content;
    var key := PageKeyOf(s.worker.id, plan.hash, plan.contentType);
    if key.Err? then SetStage(s, k, Abandoned)
    else
      PutInto(SetStage(s, k, Ready(PageFor(plan, key.value, |content|))), key.value,
              ObjectFor(plan, content, now))
  }

  function DoRecordPage(s: State, k: nat, now: int): State
    requires s.worker.Draining? && s.worker.position.Archiving? && k < |s.worker.position.tasks|
    requires s.worker.position.tasks[k].stage.Ready?
  {
    var id := s.worker.id;
    var r := AddPage(s.docs, id, s.worker.position.tasks[k].stage.page, now);
    if r.result.Err? then SetStage(s, k, Abandoned)
    else
      var l := LedgerOf(s, id);
      var done := if InRange(r.docs, id) then r.docs[id].progress.done else 0;
      WithLedger(SetStage(s, k, Recorded), id, l.(peak := Max(l.peak, done))).(docs := r.docs)
  }

  predicate Over(stage: Stage) {
    stage.Recorded? || stage.Abandoned?
  }

  function DoCollect(s: State): State
    requires s.worker.Draining? && s.worker.position.Archiving?
  {
    var tasks := s.worker.position.tasks;
    if exists k :: 0 <= k < |tasks| && !Over(tasks[k].stage) then s
    else if exists k :: 0 <= k < |tasks| && tasks[k].stage.Abandoned? then Fail(s, Message(ContentFailed))
    else Goto(s, Reloading)
  }

  /** A step of one page task; a task that is not at the step's stage does nothing. */
  function PageStep(s: State, a: Action): State
    requires s.worker.Draining? && s.worker.position.Archiving?
  {
    var tasks := s.worker.position.tasks;
    match a
    case HeadPage(k) =>
      if k < |tasks| && tasks[k].stage.Starting? then
        SetStage(s, k, AfterHead(s.worker.id, tasks[k].plan, BucketOf(s), tasks[k].stage.attempt))
      else s
    case FetchPage(k, result) =>
      if k < |tasks| && tasks[k].stage.Missing? then SetStage(s, k, AfterFetch(result, tasks[k].stage.attempt))
      else s
    case PutPage(k, now) =>
      if k < |tasks| && tasks[k].stage.Fetched? && s.worker.id >= 0 then DoPutPage(s, k, now) else s
    case RecordPage(k, now) =>
      if k < |tasks| && tasks[k].stage.Ready? then DoRecordPage(s, k, now) else s
    case AbandonPage(k) =>
      if k < |tasks| && !Over(tasks[k].stage) then SetStage(s, k, Abandoned) else s
    case Collect => DoCollect(s)
    case _ => s
  }

  // ----- finishing -----

  function DoReload(s: State): State
    requires s.worker.Draining?
  {
    if Get(s.docs, s.worker.id).Err? then Fail(s, Message(DocumentGone)) else Goto(s, WritingManifest)
  }

  function DoPutManifest(s: State, manifest: Outcome<Object, string>): State
    requires s.worker.Draining?
  {
    if manifest.Err? then Fail(s, manifest.error)
    else if s.worker.id < 0 then s
    else PutInto(Goto(s, Finishing), ManifestKeyOf(s.worker.id), manifest.value)
  }

  function DoFinish(s: State, now: int): State
    requires s.worker.Draining?
  {
    var r := TransitionTo(s.docs, s.worker.id, Archived, now);
    if r.result.Err? then Fail(s, Message(TransitionRefused))
    else Goto(s, Returning).(docs := r.docs)
  }

  function DoSaveError(s: State, cause: string, now: int): State
    requires s.worker.Draining?
  {
    var r := UpdateMeta(s.docs, s.worker.id, ErrorCallback(cause), now);
    if r.result.Err? then Leave(s) else Goto(s, MarkingFailed(cause)).(docs := r.docs)
  }

  function DoMarkFailed(s: State, now: int): State
    requires s.worker.Draining?
  {
    Leave(s).(docs := TransitionTo(s.docs, s.worker.id, Failed, now).docs)
  }

  // ----- sweeping deleted documents -----

  function NextSwept(s: State, batch: nat, purged: nat, left: seq<Document>): State {
    s.(worker :=
         if left != [] then Sweeping(batch, purged, left[1..], Deleting(left[0]))
         else if batch < PURGE_BATCH || purged == 0 then Idle
         else Sweeping(0, 0, [], Querying))
  }

  function DoSweepQuery(s: State): State {
    var deleted := Queries.Run(Queries.StatusQuery(Deleted, PURGE_BATCH), s.docs);
    if deleted == [] then s.(worker := Idle) else NextSwept(s, |deleted|, 0, deleted)
  }

  function DoSweepDelete(s: State, d: Document, ok: bool): State
    requires s.worker.Sweeping?
  {
    if d.storageBackend !in s.buckets || !ok || d.id < 0 then
      NextSwept(s, s.worker.batch, s.worker.purged, s.worker.left)
    else
      s.(buckets := s.buckets[d.storageBackend := WithoutPrefix(s.buckets[d.storageBackend], PrefixOf(d.id))],
         torn := s.torn + {d.id},
         worker := s.worker.(at := Purging(d)))
  }

  function DoSweepPurge(s: State, d: Document, now: int): State
    requires s.worker.Sweeping?
  {
    var r := Purge(s.docs, d.id, now);
    if r.result.Err? then NextSwept(s, s.worker.batch, s.worker.purged, s.worker.left)
    else
      NextSwept(s, s.worker.batch, s.worker.purged + 1, s.worker.left).(docs := r.docs, torn := s.torn - {d.id})
  }

  // ----- the machine -----

  function DrainStep(s: State, a: Action): State
    requires s.worker.Draining?
  {
    match s.worker.position
    case Loading => if a.Load? then DoLoad(s) else s
    case Claiming(d) => if a.Claim? then DoClaim(s, d, a.usable, a.now) else s
    case ResolvingSource =>
      if !a.ResolveSource? then s
      else if a.resolved.Err? then Fail(s, a.resolved.error)
      else Goto(s, SavingMeta(a.resolved.value))
    case SavingMeta(resolved) => if a.SaveMeta? then DoSaveMeta(s, resolved, a.now) else s
    case ClearingPages => if a.ClearPages? then DoClearPages(s, a.now) else s
    case Opening => if a.Open? then DoOpen(s, a.now) else s
    case Planning => if a.PlanPages? then DoPlanPages(s, a.plans) else s
    case Archiving(_) => PageStep(s, a)
    case Reloading => if a.Reload? then DoReload(s) else s
    case WritingManifest => if a.PutManifest? then DoPutManifest(s, a.manifest) else s
    case Finishing => if a.Finish? then DoFinish(s, a.now) else s
    case Returning => if a.Return? then Leave(s) else s
    case SavingError(cause) => if a.SaveError? then DoSaveError(s, cause, a.now) else s
    case MarkingFailed(_) => if a.MarkFailed? then DoMarkFailed(s, a.now) else s
  }

  function SweepStep(s: State, a: Action): State
    requires s.worker.Sweeping?
  {
    match s.worker.at
    case Querying => if a.SweepQuery? then DoSweepQuery(s) else s
    case Deleting(d) => if a.SweepDelete? then DoSweepDelete(s, d, a.ok) else s
    case Purging(d) => if a.SweepPurge? then DoSweepPurge(s, d, a.now) else s
  }

  /** One step. An action that does not fit the worker's position changes nothing. */
  function Next(s: State, a: Action): State {
    match a
    case ApiRequest(source, sourceDocumentID, backend, now) => DoRequest(s, source, sourceDocumentID, backend, now)
    case ApiDelete(id, now) => s.(docs := Delete(s.docs, id, now).docs)
    case ApiRefresh(id, all, now) => DoRefresh(s, id, all, now)
    case ApiClear(id, now) => DoClear(s, id, now)
    case ApiRestore(id, now) => s.(docs := Restore(s.docs, id, now).docs)
    case _ =>
      match s.worker
      case Idle =>
        if a.BeginQueue? then DoBeginQueue(s)
        else if a.BeginSweep? then s.(worker := Sweeping(0, 0, [], Querying))
        else s
      case Draining(_, _, _, _) => DrainStep(s, a)
      case Sweeping(_, _, _, _) => SweepStep(s, a)
  }

  function Run(s: State, actions: seq<Action>): State
    decreases actions
  {
    if actions == [] then s else Run(Next(s, actions[0]), actions[1..])
  }
}
