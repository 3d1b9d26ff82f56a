/** The metadata a JMComic server sends, and what the album and chapter readers make of it. */
module JmcomicMetadata {
  import opened Wrappers
  import opened Strings

  /** A JSON value; all but texts keep the characters they were written with. */
  datatype Json =
    | Text(value: string)
    | Literal(raw: string)
    | Items(raw: string, items: seq<Json>)
    | Fields(raw: string, fields: map<string, Json>)

  const NULL := Literal("null")

  datatype Photo = Photo(id: string, addTime: string, images: seq<string>)

  datatype Album = Album(id: string, name: string, episodes: nat)

  function Field(json: Json, name: string): Json {
    if json.Fields? && name in json.fields then json.fields[name] else NULL
  }

  /** An id that may be written as a text or as a number; a missing one is empty. */
  function FlexString(json: Json, name: string): string {
    if !json.Fields? || name !in json.fields then ""
    else match json.fields[name]
      case Text(value) => value
      case other => TrimSpace(other.raw)
  }

  function AsText(json: Json): Outcome<string, string> {
    if json == NULL then Ok("") else if json.Text? then Ok(json.value) else Err("not a text")
  }

  function AsTexts(json: Json): Outcome<seq<string>, string> {
    if json == NULL then Ok([])
    else if !json.Items? then Err("not a list")
    else if exists k :: 0 <= k < |json.items| && AsText(json.items[k]).Err? then Err("not a list of texts")
    else Ok(seq(|json.items|, k requires 0 <= k < |json.items| =>
                  if AsText(json.items[k]).Ok? then AsText(json.items[k]).value else ""))
  }

  /** A list of texts may hold nulls, which count as empty texts; anything else in it is refused. */
  lemma TextsExactly(raw: string, items: seq<Json>)
    ensures AsTexts(Items(raw, items)).Ok? <==> forall k :: 0 <= k < |items| ==> items[k].Text? || items[k] == Literal("null")
    ensures AsTexts(Items(raw, items)).Ok? ==>
              var texts := AsTexts(Items(raw, items)).value;
              && |texts| == |items|
              && forall k :: 0 <= k < |items| ==> texts[k] == if items[k].Text? then items[k].value else ""
    ensures AsTexts(Literal("null")) == Ok([])
  {
  }

  /** An id is the text itself, or the number as it is written. */
  lemma IdsExactly(raw: string, fields: map<string, Json>, name: string)
    ensures name !in fields ==> FlexString(Fields(raw, fields), name) == ""
    ensures name in fields && fields[name].Text? ==> FlexString(Fields(raw, fields), name) == fields[name].value
    ensures name in fields && fields[name].Literal? ==>
              FlexString(Fields(raw, fields), name) == TrimSpace(fields[name].raw)
  {
  }

  predicate IsEpisode(json: Json) {
    json == NULL || (json.Fields? && AsText(Field(json, "name")).Ok?)
  }

  function CountEpisodes(json: Json): Outcome<nat, string> {
    if json == NULL then Ok(0)
    else if !json.Items? || exists k :: 0 <= k < |json.items| && !IsEpisode(json.items[k]) then Err("not a series")
    else Ok(|json.items|)
  }

  function DecodeAlbum(json: Json): Outcome<Album, string> {
    if json != NULL && !json.Fields? then Err("not an album")
    else
      var name, episodes := AsText(Field(json, "name")), CountEpisodes(Field(json, "series"));
      if name.Err? || AsTexts(Field(json, "author")).Err? || AsTexts(Field(json, "tags")).Err? || episodes.Err? then
        Err("not an album")
      else Ok(Album(FlexString(json, "id"), name.value, episodes.value))
  }

  function DecodePhoto(json: Json): Outcome<Photo, string> {
    if json != NULL && !json.Fields? then Err("not a photo")
    else
      var images := AsTexts(Field(json, "images"));
      if AsText(Field(json, "name")).Err? || images.Err? then Err("not a photo")
      else Ok(Photo(FlexString(json, "id"), FlexString(json, "addtime"), images.value))
  }

  predicate HasText(fields: map<string, Json>, name: string) {
    name in fields && fields[name].Text?
  }

  /** A chapter whose fields are texts and a list of texts is read field by field. */
  lemma PhotosExactly(raw: string, fields: map<string, Json>, items: seq<Json>)
    requires HasText(fields, "id") && HasText(fields, "addtime")
    requires "images" in fields && fields["images"] == Items(raw, items)
    ensures DecodePhoto(Fields(raw, fields)).Ok?
            <==> && ("name" in fields ==> HasText(fields, "name") || fields["name"] == NULL)
                 && forall k :: 0 <= k < |items| ==> items[k].Text? || items[k] == NULL
    ensures DecodePhoto(Fields(raw, fields)).Ok? ==>
              var photo := DecodePhoto(Fields(raw, fields)).value;
              && photo.id == fields["id"].value && photo.addTime == fields["addtime"].value
              && |photo.images| == |items|
              && forall k :: 0 <= k < |items| ==> photo.images[k] == if items[k].Text? then items[k].value else ""
  {
    TextsExactly(raw, items);
  }

  /** An album is read with its id, its name and the number of entries in its series. */
  lemma AlbumsExactly(raw: string, fields: map<string, Json>, items: seq<Json>)
    requires HasText(fields, "id") && HasText(fields, "name")
    requires "series" in fields && fields["series"] == Items(raw, items)
    ensures DecodeAlbum(Fields(raw, fields)).Ok? ==>
              DecodeAlbum(Fields(raw, fields)).value == Album(fields["id"].value, fields["name"].value, |items|)
    ensures DecodeAlbum(Fields(raw, fields)).Ok?
            <==> && (forall k :: 0 <= k < |items| ==> IsEpisode(items[k]))
                 && AsTexts(Field(Fields(raw, fields), "author")).Ok? && AsTexts(Field(Fields(raw, fields), "tags")).Ok?
  {
  }
}
