/** What the renderer shows about the loaded song (script.js): the title and artist labels and
    the album-art image or its placeholder, chosen by `loadAudioFile` from the main process's
    record, the browser file's name, or the path itself. */
module SongInfo {
  import opened Wrappers
  import opened FileNames
  import TrackMetadata
  import FileDialog
  import Transport

  /** The song labels; `art` is the image source shown, `None` when the placeholder is shown. */
  datatype SongDisplay = SongDisplay(title: string, artist: string, art: Option<string>)

  /** `setFallbackInfo(filePath, fileName)`: the title from the given name when it is a
      non-empty string, otherwise from the last `/`-separated segment of the path, in both
      cases without its extension; the artist unknown; the placeholder shown. */
  function FallbackInfo(filePath: string, fileName: Option<string>): (d: SongDisplay)
    ensures d.artist == TrackMetadata.UnknownArtist && d.art.None?
    ensures fileName.Some? && fileName.value != "" ==> d.title == StripExtension(fileName.value)
    ensures fileName.None? || fileName.value == "" ==>
              var seg := LastSegment(filePath);
              && |d.title| <= |seg|
              && d.title == seg[..|d.title|]
              && '/' !in d.title
              && (|d.title| < |seg| ==> seg[|d.title|] == '.')
              && d.title == StripExtension(seg)
  {
    if fileName.Some? && fileName.value != "" then
      SongDisplay(StripExtension(fileName.value), TrackMetadata.UnknownArtist, None)
    else
      var seg := LastSegment(filePath);
      LastSegmentAfterFinalSlash(filePath);
      SongDisplay(StripExtension(seg), TrackMetadata.UnknownArtist, None)
  }

  /** `loadMetadataFromFile(file)` in a plain browser: the file's name without extension. */
  function BrowserFileInfo(name: string): (d: SongDisplay)
    ensures d == FallbackInfo(name, Some(name))
  {
    SongDisplay(StripExtension(name), TrackMetadata.UnknownArtist, None)
  }

  /** The labels after `loadAudioFile(filePath, file, fileName)`.
      `bridge` is whether the Electron bridge with `getMetadata` exists; `reply` is what
      `getMetadata(filePath)` resolved to, or the error it rejected with; `file` is the name
      of the browser `File` object, when one was passed. */
  function LoadedInfo(
    bridge: bool,
    filePath: string,
    file: Option<string>,
    fileName: Option<string>,
    reply: Result<TrackMetadata.TrackRecord, string>): (d: SongDisplay)
    ensures bridge && reply.Success? ==>
              && d.title == reply.value.title
              && d.artist == reply.value.artist
              && (d.art.Some? <==> reply.value.albumArt.Some? && reply.value.albumArt.value != "")
              && (d.art.Some? ==> d.art == reply.value.albumArt)
    ensures bridge && reply.Failure? ==> d == FallbackInfo(filePath, fileName)
    ensures !bridge ==> d.artist == TrackMetadata.UnknownArtist && d.art.None?
    ensures !bridge && file.Some? ==> d == BrowserFileInfo(file.value)
    ensures !bridge && file.None? ==> d == FallbackInfo(filePath, fileName)
  {
    if bridge then
      match reply
      case Success(record) =>
        var art := if record.albumArt.Some? && record.albumArt.value != "" then record.albumArt else None;
        SongDisplay(record.title, record.artist, art)
      case Failure(_) => FallbackInfo(filePath, fileName)
    else if file.Some? then BrowserFileInfo(file.value)
    else FallbackInfo(filePath, fileName)
  }

  /** `loadAudioFile` as a whole: the source is set first, the labels are replaced, and the
      engine is told to load last. */
  function LoadAudioFile(
    player: Transport.PlayerState,
    bridge: bool,
    filePath: string,
    file: Option<string>,
    fileName: Option<string>,
    reply: Result<TrackMetadata.TrackRecord, string>): (r: (Transport.Transition, SongDisplay))
    ensures r.0.state == player.(hasSrc := true)
    ensures r.0.commands == [Transport.SetSource(filePath), Transport.Load]
    ensures r.1 == LoadedInfo(bridge, filePath, file, fileName, reply)
  {
    var t := Transport.Step(player, Transport.SourceSet(filePath));
    (Transport.Transition(t.state, t.commands + [Transport.Load]), LoadedInfo(bridge, filePath, file, fileName, reply))
  }

  /** The open button under Electron: the dialog's path is loaded only when it is a non-empty
      string, that is, when the dialog was not cancelled and its first path is not empty. */
  function PathToOpen(canceled: bool, filePaths: seq<string>): (r: Option<string>)
    ensures r.Some? <==> !canceled && |filePaths| > 0 && filePaths[0] != ""
    ensures r.Some? ==> r.value == filePaths[0]
  {
    match FileDialog.SelectedPath(canceled, filePaths)
    case Some(path) => if path != "" then Some(path) else None
    case None => None
  }

  /** Under Electron the artist label is never empty after a file is loaded, whatever the
      extraction library did and whether or not the request to the main process failed. */
  lemma ElectronArtistNeverEmpty(
    filePath: string,
    fileName: Option<string>,
    extraction: Result<TrackMetadata.CommonTags, string>,
    baseName: string -> string,
    base64: seq<TrackMetadata.Byte> -> string,
    delivered: bool)
    ensures var record := TrackMetadata.GetMetadata(filePath, extraction, baseName, base64);
            var reply := if delivered then Success(record) else Failure("ipc");
            LoadedInfo(true, filePath, None, fileName, reply).artist != ""
  {
  }

  /** A song tagged with a title and artist, loaded under Electron, shows exactly those. */
  lemma ElectronShowsTags(
    filePath: string,
    tags: TrackMetadata.CommonTags,
    baseName: string -> string,
    base64: seq<TrackMetadata.Byte> -> string)
    requires tags.title.Some? && tags.title.value != ""
    requires tags.artist.Some? && tags.artist.value != ""
    ensures var record := TrackMetadata.GetMetadata(filePath, Success(tags), baseName, base64);
            var d := LoadedInfo(true, filePath, None, None, Success(record));
            d.title == tags.title.value && d.artist == tags.artist.value
            && (d.art.Some? <==> tags.picture.Some? && |tags.picture.value| > 0)
  {
    var record := TrackMetadata.GetMetadata(filePath, Success(tags), baseName, base64);
    if record.albumArt.Some? {
      assert record.albumArt.value[..5] == "data:";
    }
  }

  /** With no usable name, a path like `/x/Song.flac` shows the title `Song`. */
  lemma FallbackTitleFromPath()
    ensures FallbackInfo("/x/Song.flac", None).title == "Song"
  {
    SongSegment();
    StripAfterAppend("Song", "flac");
    assert "Song" + "." + "flac" == "Song.flac";
  }
}
