/** Whether an archived JMComic document is complete: pages are resolved from the chapter, but planned from the album. */
module JmcomicCompleteness {
  import opened Wrappers
  import opened Model
  import opened Objects
  import opened StoreSpec
  import opened Recording
  import opened Processing
  import opened JmcomicMetadata
  import opened Jmcomic

  /**
   * The handler as the worker meets it: it resolves as many pages as the comic has, and a download that succeeds
   * has handed every page planned from the stored metadata to the hook.
   */
  predicate HandledAs(visit: Visit, comic: ResolvedComic) {
    && visit.resolved.Ok? && visit.resolved.value.pages == Some(|comic.pages|)
    && visit.resolved.value.title == comic.title
    && (visit.content.Ok? ==> |visit.pages| == PlannedCount(comic.sourceMeta))
  }

  /**
   * What the worker meets when it downloads a resolved comic with this handler: the pages handed to the hook and how
   * the download ended. The metadata text and the manifest come from elsewhere.
   */
  method Download(handler: Handler, comic: ResolvedComic, text: string, manifest: Outcome<Bytes, string>, id: nat,
                  scramble: Outcome<int, string>, fetched: nat -> Outcome<Bytes, string>, now: int)
    returns (visit: Visit)
    requires handler.Valid()
    modifies handler.objects, handler.documents
    ensures HandledAs(visit, comic) && visit.manifest == manifest
    ensures visit.content.Ok? ==> Readable(comic.sourceMeta)
    ensures RecordAll(old(handler.documents.docs), id, visit.pages, now) == (handler.documents.docs, true)
  {
    var pages, err := handler.ArchiveContent(id, comic.sourceMeta, scramble, fetched, now);
    var content := if err.None? then Ok(()) else Err(err.value);
    return Visit(true, Ok(Lifecycle.Resolved(text, comic.title, Some(|comic.pages|))), pages, content, manifest);
  }

  /**
   * An archived document is complete exactly when it had all pages of the chapter already, or the album lists at
   * least as many images as the chapter.
   */
  lemma CompleteExactlyWhenAlbumListsImages(md5Hex: Digest, sourceDocumentID: string, album: Json, chapter: Json,
                                            comic: ResolvedComic, docs: Docs, id: nat, visit: Visit, now: int)
    requires ResolvesTo(md5Hex, sourceDocumentID, album, chapter, comic) && HandledAs(visit, comic)
    requires id < |docs| && Archives(docs, id, visit, now)
    ensures var p, images := Finished(docs, id, visit, now).progress, |DecodePhoto(chapter).value.images|;
            p.done >= p.total <==> docs[id].progress.done >= images || PlannedCount(album) >= images
  {
    hide DecodePhoto, DecodeAlbum;
    ArchivedDoneExactly(docs, id, visit, now);
  }

  /** The download plans as many pages as were resolved exactly when album and chapter list as many images. */
  lemma PlannedIsResolvedExactly(md5Hex: Digest, sourceDocumentID: string, album: Json, chapter: Json,
                                 comic: ResolvedComic)
    requires ResolvesTo(md5Hex, sourceDocumentID, album, chapter, comic) && DecodePhoto(album).Ok?
    ensures PlannedCount(comic.sourceMeta) == |comic.pages|
            <==> |DecodePhoto(album).value.images| == |DecodePhoto(chapter).value.images|
  {
  }

  // ----- an album without an id -----

  /**
   * The download of a resolved comic gets past its metadata exactly when the album has an id of its own and its
   * images, if it lists any, are a list of texts. Resolving asks for neither: a missing id is filled in.
   */
  lemma ReadableExactly(album: Json)
    requires DecodeAlbum(album).Ok?
    ensures Readable(album) <==> DecodeAlbum(album).value.id != "" && AsTexts(Field(album, "images")).Ok?
  {
    hide AsTexts, AsText, CountEpisodes;
  }

  const NAMELESS := Fields("{\"name\":\"single\"}", map["name" := Text("single")])

  /** A comic whose album has no id resolves, and its download fails whatever the server answers. */
  lemma AlbumWithoutIdResolves(md5Hex: Digest)
    ensures exists comic :: ResolvesTo(md5Hex, "42", NAMELESS, CHAPTER, comic) && !Readable(comic.sourceMeta)
  {
    assert DecodeAlbum(NAMELESS) == Ok(Album("", "single", 0)) by {
      assert AsTexts(NULL) == Ok([]);
      assert CountEpisodes(Field(NAMELESS, "series")) == Ok(0);
    }
    ReadableExactly(NAMELESS);
    AlbumAndChapterDecode();
    var photo := Photo("42", "123", ["00001.webp", "00002.png"]);
    var comic := ResolvedComic(NAMELESS, "42", "single", [PlanAt(md5Hex, photo, 0), PlanAt(md5Hex, photo, 1)]);
    assert ResolvesTo(md5Hex, "42", NAMELESS, CHAPTER, comic);
  }

  // ----- an album that lists no images, as the server sends them -----

  const ALBUM := Fields("{\"id\":\"42\",\"name\":\"single\",\"series\":[]}",
                        map["id" := Text("42"), "name" := Text("single"), "series" := Items("[]", [])])

  const IMAGES := Items("[\"00001.webp\",\"00002.png\"]", [Text("00001.webp"), Text("00002.png")])

  const CHAPTER := Fields("{\"id\":\"42\",\"name\":\"photo\",\"addtime\":\"123\",\"images\":[\"00001.webp\",\"00002.png\"]}",
                          map["id" := Text("42"), "name" := Text("photo"), "addtime" := Text("123"), "images" := IMAGES])

  lemma AlbumAndChapterDecode()
    ensures DecodeAlbum(ALBUM) == Ok(Album("42", "single", 0))
    ensures DecodePhoto(ALBUM) == Ok(Photo("42", "", []))
    ensures DecodePhoto(CHAPTER) == Ok(Photo("42", "123", ["00001.webp", "00002.png"]))
  {
    assert AsTexts(NULL) == Ok([]);
    assert AsTexts(IMAGES).Ok? && AsTexts(IMAGES).value == ["00001.webp", "00002.png"];
    assert CountEpisodes(Field(ALBUM, "series")) == Ok(0);
  }

  /** A new document with this album and this two-page chapter is archived with none of its two pages. */
  lemma AlbumWithoutImagesArchivesNothing(md5Hex: Digest, comic: ResolvedComic, docs: Docs, id: nat, visit: Visit,
                                          now: int)
    requires ResolvesTo(md5Hex, "42", ALBUM, CHAPTER, comic) && HandledAs(visit, comic)
    requires visit.content.Ok? && visit.manifest.Ok?
    requires id < |docs| && docs[id].status.Queued? && docs[id].pages == [] && docs[id].progress == Progress(0, 0)
    ensures Archives(docs, id, visit, now)
    ensures Finished(docs, id, visit, now).progress == Progress(0, 2) && Finished(docs, id, visit, now).pages == []
  {
    AlbumAndChapterDecode();
    assert visit.pages == [];
  }

  /** Such a comic exists: it is what resolving yields. */
  lemma AlbumWithoutImagesResolves(md5Hex: Digest)
    ensures exists comic :: ResolvesTo(md5Hex, "42", ALBUM, CHAPTER, comic) && |comic.pages| == 2
                            && PlannedCount(comic.sourceMeta) == 0
  {
    AlbumAndChapterDecode();
    var photo := Photo("42", "123", ["00001.webp", "00002.png"]);
    var comic := ResolvedComic(ALBUM, "42", "single", [PlanAt(md5Hex, photo, 0), PlanAt(md5Hex, photo, 1)]);
    assert ResolvesTo(md5Hex, "42", ALBUM, CHAPTER, comic);
  }
}
