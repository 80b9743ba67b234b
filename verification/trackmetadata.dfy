/** The main process's `get-metadata` handler (main.js): tags read from an audio file become a
    display record, with every missing or empty field defaulted and every extraction error
    turned into the same defaults. */
module TrackMetadata {
  import opened Wrappers

  newtype Byte = b: int | 0 <= b < 256

  /** One embedded picture: its declared MIME type and its bytes. */
  datatype Picture = Picture(format: string, data: seq<Byte>)

  /** The `common` tags the extraction library reports; any of them may be absent. */
  datatype CommonTags = CommonTags(
    title: Option<string>,
    artist: Option<string>,
    album: Option<string>,
    picture: Option<seq<Picture>>)

  /** The record the handler returns to the renderer; `albumArt` is `null` when `None`. */
  datatype TrackRecord = TrackRecord(title: string, artist: string, album: string, albumArt: Option<string>)

  const UnknownArtist := "Unknown Artist"
  const UnknownAlbum := "Unknown Album"

  /** JavaScript's `tag || fallback` on a string tag: an absent or empty tag is falsy. */
  function OrElse(tag: Option<string>, fallback: string): (r: string)
    ensures r == fallback || (tag.Some? && r == tag.value && r != "")
    ensures tag.Some? && tag.value != "" ==> r == tag.value
  {
    if tag.Some? && tag.value != "" then tag.value else fallback
  }

  /** `data:<format>;base64,<payload>`, a data URL in the form of section 3 of RFC 2397. */
  function DataUrl(format: string, payload: string): (url: string)
    ensures |url| == |format| + |payload| + 13
    ensures url[..5] == "data:" && url[5..5 + |format|] == format
    ensures url[5 + |format|..13 + |format|] == ";base64," && url[13 + |format|..] == payload
  {
    "data:" + format + ";base64," + payload
  }

  /** Index of the first occurrence of `c` in `s`, if any. */
  function FirstIndexOf(s: string, c: char): (r: Option<nat>)
    ensures r.None? <==> c !in s
    ensures r.Some? ==> r.value < |s| && s[r.value] == c && c !in s[..r.value]
  {
    if |s| == 0 then None
    else if s[0] == c then Some(0)
    else
      match FirstIndexOf(s[1..], c)
      case None => None
      case Some(i) =>
        assert s[..i + 1] == [s[0]] + s[1..][..i];
        Some(i + 1)
  }

  /** Reads a base64 data URL back into its media type and its payload; `None` when the text
      does not begin with `data:` or the media type is not followed by `;base64,`. */
  function ParseDataUrl(url: string): (parts: Option<(string, string)>) {
    if |url| < 5 || url[..5] != "data:" then None
    else
      var rest := url[5..];
      match FirstIndexOf(rest, ';')
      case None => None
      case Some(k) =>
        if |rest| - k >= 8 && rest[k..k + 8] == ";base64," then Some((rest[..k], rest[k + 8..]))
        else None
  }

  /** A data URL built from a media type without `;` parses back to that type and payload. */
  lemma DataUrlRoundTrip(format: string, payload: string)
    requires ';' !in format
    ensures ParseDataUrl(DataUrl(format, payload)) == Some((format, payload))
  {
    var url := DataUrl(format, payload);
    var rest := url[5..];
    assert url[..5] == "data:";
    assert rest == format + ";base64," + payload;
    assert rest[..|format|] == format;
    assert rest[|format|] == ';';
    assert FirstIndexOf(rest, ';') == Some(|format|);
    assert rest[|format|..|format| + 8] == ";base64,";
    assert rest[|format| + 8..] == payload;
  }

  /** The album art: the first picture as a data URL, or `None` when the picture list is
      absent or empty. Later pictures are ignored. */
  function AlbumArt(pictures: Option<seq<Picture>>, base64: seq<Byte> -> string): (r: Option<string>)
    ensures r.Some? <==> pictures.Some? && |pictures.value| > 0
    ensures r.Some? ==> r.value == DataUrl(pictures.value[0].format, base64(pictures.value[0].data))
  {
    if pictures.Some? && |pictures.value| > 0 then
      var picture := pictures.value[0];
      Some(DataUrl(picture.format, base64(picture.data)))
    else None
  }

  /** The `get-metadata` handler. `extraction` is what the extraction library produced for
      `filePath`, or the error it threw; `baseName` stands for Node's
      `path.basename(p, path.extname(p))` and `base64` for `Buffer.toString('base64')`.
      It never fails: an error yields the default record. */
  function GetMetadata(
    filePath: string,
    extraction: Result<CommonTags, string>,
    baseName: string -> string,
    base64: seq<Byte> -> string): (r: TrackRecord)
    ensures r.artist != "" && r.album != ""
    ensures extraction.Failure? ==> r == TrackRecord(baseName(filePath), UnknownArtist, UnknownAlbum, None)
    ensures extraction.Success? ==>
              var tags := extraction.value;
              && (r.title == baseName(filePath) || (tags.title.Some? && r.title == tags.title.value))
              && (tags.title.Some? && tags.title.value != "" ==> r.title == tags.title.value)
              && (tags.title.None? || tags.title.value == "" ==> r.title == baseName(filePath))
              && (r.artist == UnknownArtist || (tags.artist.Some? && r.artist == tags.artist.value))
              && (tags.artist.Some? && tags.artist.value != "" ==> r.artist == tags.artist.value)
              && (tags.artist.None? || tags.artist.value == "" ==> r.artist == UnknownArtist)
              && (r.album == UnknownAlbum || (tags.album.Some? && r.album == tags.album.value))
              && (tags.album.Some? && tags.album.value != "" ==> r.album == tags.album.value)
              && (tags.album.None? || tags.album.value == "" ==> r.album == UnknownAlbum)
              && (r.albumArt.Some? <==> tags.picture.Some? && |tags.picture.value| > 0)
              && r.albumArt == AlbumArt(tags.picture, base64)
  {
    match extraction
    case Success(tags) =>
      TrackRecord(
        OrElse(tags.title, baseName(filePath)),
        OrElse(tags.artist, UnknownArtist),
        OrElse(tags.album, UnknownAlbum),
        AlbumArt(tags.picture, base64))
    case Failure(_) =>
      TrackRecord(baseName(filePath), UnknownArtist, UnknownAlbum, None)
  }

  /** Tags with nothing in them. */
  const NoTags := CommonTags(None, None, None, None)

  /** The error path returns exactly what the success path returns for a file with no tags:
      the fallback is the same defaulting, applied to nothing. */
  lemma FailureMatchesEmptyTags(filePath: string, error: string, baseName: string -> string, base64: seq<Byte> -> string)
    ensures GetMetadata(filePath, Failure(error), baseName, base64)
         == GetMetadata(filePath, Success(NoTags), baseName, base64)
  {
  }

  /** An empty string in any one tag behaves exactly like that tag being absent, whatever
      the other tags hold. */
  lemma EmptyTagsAreMissing(filePath: string, tags: CommonTags, baseName: string -> string, base64: seq<Byte> -> string)
    ensures GetMetadata(filePath, Success(tags.(title := Some(""))), baseName, base64)
         == GetMetadata(filePath, Success(tags.(title := None)), baseName, base64)
    ensures GetMetadata(filePath, Success(tags.(artist := Some(""))), baseName, base64)
         == GetMetadata(filePath, Success(tags.(artist := None)), baseName, base64)
    ensures GetMetadata(filePath, Success(tags.(album := Some(""))), baseName, base64)
         == GetMetadata(filePath, Success(tags.(album := None)), baseName, base64)
  {
  }

  /** Only the first picture matters: pictures after it never change the record. */
  lemma ArtFromFirstPicture(
    filePath: string, tags: CommonTags, first: Picture, more: seq<Picture>,
    baseName: string -> string, base64: seq<Byte> -> string)
    requires tags.picture == Some([first] + more)
    ensures GetMetadata(filePath, Success(tags), baseName, base64)
         == GetMetadata(filePath, Success(tags.(picture := Some([first]))), baseName, base64)
    ensures GetMetadata(filePath, Success(tags), baseName, base64).albumArt
         == Some(DataUrl(first.format, base64(first.data)))
  {
  }

  /** When the first picture's media type has no `;`, its art reads back to that type and the
      picture's encoded bytes. */
  lemma ArtParsesBack(
    filePath: string, tags: CommonTags, first: Picture, more: seq<Picture>,
    baseName: string -> string, base64: seq<Byte> -> string)
    requires tags.picture == Some([first] + more)
    requires ';' !in first.format
    ensures var art := GetMetadata(filePath, Success(tags), baseName, base64).albumArt;
            art.Some? && ParseDataUrl(art.value) == Some((first.format, base64(first.data)))
  {
    DataUrlRoundTrip(first.format, base64(first.data));
  }
}
