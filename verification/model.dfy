/** Documents, their pages, and the graph of statuses a document moves through. */
module Model {

  /** `Unknown` stands for any status string the program does not define. */
  datatype Status =
    | Queued | Resolving | Downloading | Archived | Failed | Deleted | Purged
    | Unknown(name: string)

  predicate IsKnown(status: Status) {
    !status.Unknown?
  }

  predicate IsVisible(status: Status) {
    status.Queued? || status.Resolving? || status.Downloading? || status.Archived? || status.Failed?
  }

  predicate CanTransition(from: Status, to: Status) {
    if !IsKnown(from) || !IsKnown(to) then false
    else if from == to then true
    else
      match from
      case Queued => to.Resolving? || to.Failed? || to.Deleted?
      case Resolving => to.Downloading? || to.Archived? || to.Failed? || to.Deleted?
      case Downloading => to.Archived? || to.Failed? || to.Deleted?
      case Archived => to.Queued? || to.Deleted?
      case Failed => to.Queued? || to.Deleted?
      case Deleted => to.Purged?
      case Purged => false
      case Unknown(_) => false
  }

  /** Every move from one status to another that the graph allows. */
  const MOVES: set<(Status, Status)> := {
    (Queued, Resolving), (Queued, Failed), (Queued, Deleted),
    (Resolving, Downloading), (Resolving, Archived), (Resolving, Failed), (Resolving, Deleted),
    (Downloading, Archived), (Downloading, Failed), (Downloading, Deleted),
    (Archived, Queued), (Archived, Deleted),
    (Failed, Queued), (Failed, Deleted),
    (Deleted, Purged)
  }

  const VISIBLE: set<Status> := {Queued, Resolving, Downloading, Archived, Failed}

  /** The graph consists of these moves and of staying; unknown statuses take no part. */
  lemma MovesAreTheGraph(from: Status, to: Status)
    ensures CanTransition(from, to) <==> (from, to) in MOVES || (from == to && !from.Unknown?)
    ensures IsVisible(from) <==> from in VISIBLE
  {
  }

  datatype Progress = Progress(done: int, total: int)

  datatype Page = Page(index: int, key: string, contentType: string, size: int, hash: string)

  /** What fills the gap between two recorded pages. */
  const EMPTY_PAGE := Page(0, "", "", 0, "")

  datatype Document = Document(
    id: int, source: string, sourceDocumentID: string, sourceMeta: string, title: string,
    storageBackend: string, progress: Progress, error: string, pages: seq<Page>,
    createdAt: int, updatedAt: int, status: Status)

  /** The part of a document that an update callback may change; the status is not among it. */
  datatype DocumentMeta = DocumentMeta(
    sourceMeta: string, title: string, storageBackend: string, progress: Progress, error: string)

  function ExtractMeta(d: Document): DocumentMeta {
    DocumentMeta(d.sourceMeta, d.title, d.storageBackend, d.progress, d.error)
  }

  function FillMeta(d: Document, meta: DocumentMeta): Document {
    d.(sourceMeta := meta.sourceMeta, title := meta.title, storageBackend := meta.storageBackend,
       progress := meta.progress, error := meta.error)
  }

  predicate SameIdentity(d: Document, d': Document) {
    d'.id == d.id && d'.source == d.source && d'.sourceDocumentID == d.sourceDocumentID && d'.createdAt == d.createdAt
  }

  // ----- sparse page slices -----

  predicate SlotExists(page: Page, index: int) {
    page.index == index && page.key != ""
  }

  predicate Occupied(pages: seq<Page>, index: int) {
    0 <= index < |pages| && SlotExists(pages[index], index)
  }

  function CountExisting(pages: seq<Page>): nat {
    if pages == [] then 0
    else CountExisting(pages[..|pages| - 1]) + if SlotExists(pages[|pages| - 1], |pages| - 1) then 1 else 0
  }

  /** The slice grown with empty pages to at least n slots. */
  function Pad(pages: seq<Page>, n: nat): (padded: seq<Page>)
    ensures |padded| == if |pages| < n then n else |pages|
    ensures forall i :: 0 <= i < |padded| ==> padded[i] == if i < |pages| then pages[i] else EMPTY_PAGE
  {
    if |pages| < n then pages + seq(n - |pages|, i => EMPTY_PAGE) else pages
  }

  function Place(pages: seq<Page>, page: Page): seq<Page>
    requires page.index >= 0
  {
    Pad(pages, page.index + 1)[page.index := page]
  }

  /** The slice without its trailing holes. */
  function Trim(pages: seq<Page>): (trimmed: seq<Page>)
    ensures trimmed <= pages
    ensures trimmed != [] ==> SlotExists(trimmed[|trimmed| - 1], |trimmed| - 1)
    ensures forall i :: |trimmed| <= i < |pages| ==> !SlotExists(pages[i], i)
  {
    if pages == [] || SlotExists(pages[|pages| - 1], |pages| - 1) then pages
    else Trim(pages[..|pages| - 1])
  }

  function Unplace(pages: seq<Page>, index: nat): seq<Page>
    requires index < |pages|
  {
    Trim(pages[index := EMPTY_PAGE])
  }

  function Bump(p: Progress): Progress {
    Progress(p.done + 1, if p.total < p.done + 1 then p.done + 1 else p.total)
  }

  /** How many deleted and how many queued documents the worker takes at a time. */
  const PURGE_BATCH := 5
  const QUEUE_BATCH := 5
}
