/** What downloading a page promises about the object store and the document store. */
module Downloads {
  import opened Wrappers
  import opened Strings
  import opened Keys
  import opened Model
  import opened StoreSpec
  import opened Objects
  import opened Recording
  import opened Lifecycle

  function KeyFor(id: nat, plan: PagePlan): Outcome<string, KeyError> {
    PageKeyOf(id, plan.hash, plan.contentType)
  }

  lemma KeyNeedsHash(id: nat, plan: PagePlan)
    requires KeyFor(id, plan).Ok?
    ensures plan.hash != ""
  {
    hide PageKeyOf, Itoa;
    PageKeyShape(id, plan.hash, plan.contentType);
  }

  /** The object holds these bytes, with the content type of the page and its hash as ETag. */
  predicate Holds(found: Object, plan: PagePlan, content: Bytes) {
    found.content == content && found.contentType == plan.contentType && found.etag == plan.hash
  }

  /** The page describes an object that is in the bucket under the page's own key and hash. */
  predicate StoredAs(id: nat, plan: PagePlan, page: Page, bucket: Bucket) {
    var key := KeyFor(id, plan);
    && key.Ok? && key.value in bucket && Matches(bucket[key.value], plan.hash)
    && page.index == plan.index && page.key == key.value && page.contentType == plan.contentType
    && page.hash == plan.hash && page.size == |bucket[key.value].content|
  }

  /** Nothing stored before is changed, and only pages of one document are added. */
  predicate Extends(id: nat, before: Bucket, after: Bucket) {
    && (forall k :: k in before ==> k in after && after[k] == before[k])
    && (forall k :: k in after && k !in before ==> HasPrefix(k, PrefixOf(id)))
  }

  lemma StoredAsExtends(id: nat, plan: PagePlan, page: Page, before: Bucket, after: Bucket)
    requires StoredAs(id, plan, page, before) && Extends(id, before, after)
    ensures StoredAs(id, plan, page, after)
  {
  }

  /** A page that could be stored has its plan's index and hash, and a key. */
  lemma StoredPage(id: nat, plan: PagePlan, page: Page, bucket: Bucket)
    requires StoredAs(id, plan, page, bucket)
    ensures page.index == plan.index && page.hash == plan.hash && page.key != ""
  {
    hide PageKeyOf, PrefixOf, ManifestKeyOf;
    PageKeyFacts(id, plan.hash, plan.contentType);
  }

  /** The document is there and has no pages, as the download finds it. */
  predicate StartsEmpty(docs: Docs, id: nat) {
    Visible(docs, id) && docs[id].pages == [] && docs[id].progress.done == 0
  }

  /** The store refuses to record a page of the plan. */
  predicate TurnedDown(docs: Docs, id: nat, plan: PagePlan, page: Page, now: int) {
    page.index == plan.index && KeyFor(id, plan) == Ok(page.key) && AddPage(docs, id, page, now).result.Err?
  }

  /** Nothing hinders a single page: its object is there under its hash, or it is missing and can be fetched. */
  predicate Obtainable(id: nat, plan: PagePlan, bucket: Bucket, fetched: bool) {
    var key := KeyFor(id, plan);
    key.Ok? && if key.value in bucket then Matches(bucket[key.value], plan.hash) else fetched
  }

  /**
   * How archiving one page ends. The page is obtained and recorded, or the document store is left alone; it
   * fails only when the page cannot be obtained or the store refuses it.
   */
  ghost predicate PageArchived<E>(plan: PagePlan, id: nat, fetched: Option<Bytes>, now: int, before: Bucket,
                                  after: Bucket, docs: Docs, docs': Docs, r: Outcome<Page, E>) {
    && Extends(id, before, after)
    && (forall k :: k in after && k !in before ==>
          KeyFor(id, plan) == Ok(k) && fetched.Some? && Holds(after[k], plan, fetched.value))
    && (!Obtainable(id, plan, before, fetched.Some?) ==> after == before)
    && (r.Ok? ==> && Obtainable(id, plan, before, fetched.Some?) && StoredAs(id, plan, r.value, after)
                  && Reply(docs', Ok(())) == AddPage(docs, id, r.value, now))
    && (r.Err? ==> && docs' == docs
                   && (Obtainable(id, plan, before, fetched.Some?) ==> exists page :: TurnedDown(docs, id, plan, page, now)))
  }

  lemma PutExtends(id: nat, plan: PagePlan, bucket: Bucket, stored: Object)
    requires KeyFor(id, plan).Ok? && KeyFor(id, plan).value !in bucket
    ensures Extends(id, bucket, bucket[KeyFor(id, plan).value := stored])
  {
    hide PageKeyOf, PrefixOf, ManifestKeyOf;
    PageKeyFacts(id, plan.hash, plan.contentType);
  }

  lemma ExtendsTwice(id: nat, a: Bucket, b: Bucket, c: Bucket)
    requires Extends(id, a, b) && Extends(id, b, c)
    ensures Extends(id, a, c)
  {
    hide PrefixOf;
  }

  /** Adding one more page to pages already recorded. */
  lemma RecordOneMore(docs: Docs, id: int, pages: seq<Page>, page: Page, now: int)
    requires RecordAll(docs, id, pages, now).1
    ensures var mid, r := RecordAll(docs, id, pages, now).0, RecordAll(docs, id, pages + [page], now);
            r == (AddPage(mid, id, page, now).docs, AddPage(mid, id, page, now).result.Ok?)
  {
    assert (pages + [page])[..|pages|] == pages;
  }

  /** Pages with keys and different indexes can all be recorded on an emptied document. */
  lemma {:induction false} DistinctIsRecordable(pages: seq<Page>)
    requires forall k :: 0 <= k < |pages| ==> pages[k].key != "" && pages[k].index >= 0
    requires forall k, l :: 0 <= k < l < |pages| ==> pages[k].index != pages[l].index
    ensures Recordable(multiset(pages))
  {
    hide Recordable;
    if pages != [] {
      var front, last := pages[..|pages| - 1], pages[|pages| - 1];
      DistinctIsRecordable(front);
      RecordableNext(front, last);
      assert front + [last] == pages;
    } else {
      NothingIsRecordable();
    }
  }

  /** Recording pages with different indexes on an emptied document never meets a refusal. */
  lemma RecordingSucceeds(docs: Docs, id: int, pages: seq<Page>, now: int)
    requires Visible(docs, id) && docs[id].pages == [] && docs[id].progress.done == 0
    requires forall k :: 0 <= k < |pages| ==> pages[k].key != "" && pages[k].index >= 0
    requires forall k, l :: 0 <= k < l < |pages| ==> pages[k].index != pages[l].index
    ensures RecordAll(docs, id, pages, now).1
  {
    DistinctIsRecordable(pages);
    RecordsExactly(docs, id, pages, now);
  }
}
