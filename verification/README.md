# Lenny audio player: transport, display strings and metadata, in Dafny

Lenny is a small Electron audio player. The renderer (`script.js`) wires a play button, a
stop button, a progress slider and the `<audio>` element together and shows the song's
title, artist and cover; the main process (`main.js`) answers two requests from the renderer:
"open a file dialog" and "read this file's tags". This project models the logic in those two
files that is more than plumbing:

- `transport.dfy` (module `Transport`): the play/stop/slider handlers (including the
  slider's thumb and its maximum, which is the duration) and the audio element's
  `play`, `pause`, `ended`, `loadedmetadata` and `timeupdate` listeners, rebuilt as one
  immutable `PlayerState` and one transition function `Step` that also returns the calls made
  on the audio element (`SetSource`, `Load`, `Play`, `Pause`, `Seek`). The audio element is
  the engine: it answers only through later events, so nothing it does is assumed.
- `timeformat.dfy` (`TimeFormat`) and `decimal.dfy` (`Decimal`): `formatTime`, with NaN as
  `None`, JavaScript's `Math.floor` and truncating `%`, integer `toString` and `padStart`,
  plus a parser that reads a `M:SS` clock face back.
- `filenames.dfy` (`FileNames`): `split('/')`, `.pop()` and `replace(/\.[^/.]+$/, '')`.
- `trackmetadata.dfy` (`TrackMetadata`): the `get-metadata` handler. JavaScript's `||` is
  modelled so that an empty tag falls back like a missing one; the cover is a base64 data URL
  (section 3 of RFC 2397) of the first picture, with a parser to read it back.
- `filedialog.dfy` (`FileDialog`): the `open-file-dialog` handler's choice of path.
- `songinfo.dfy` (`SongInfo`): `loadAudioFile`'s choice of labels (main-process record, browser
  file name, or fallback from the path), `setFallbackInfo`, `loadMetadataFromFile`, and the
  open button's guard on the returned path.
- `wrappers.dfy` (`Wrappers`): `Option` (for `null`, `undefined` and NaN) and `Result` (for a
  value or a thrown error).

The extraction library (`music-metadata`'s `parseFile`), Node's
`path.basename(p, path.extname(p))` and `Buffer.toString('base64')` are parameters: the
extraction outcome is an input `Result`, and the other two are functions passed in. The
renderer's reply from the main process is also an input `Result`, because the request can
reject.

Some behaviour of the code worth knowing, all reproduced by the model except the volume
slider, which is left out:
- the play button chooses between play and pause by the `isPlaying` flag, and only the
  audio element's `play` and `pause` events, the stop button and the `ended` event set it;
- volume is passed through as `value / 100` with no clamping;
- `loadAudioFile` awaits the main process's reply and then loads, with nothing that tells
  a reply for an earlier file from one for the current file;
- the title can be empty: when the tag title is missing and the base name is empty, the
  record's title is empty (`GetMetadata` promises non-empty artist and album only);
- the stop button does not check for a source, and loading a file does not reset the
  position, duration or dragging flag in the renderer; those change only on later events.

## Model

| member | source | states |
|---|---|---|
| `Decimal.NatToString` | script.js:27 | The decimal text of a whole number is non-empty, all digits, without a leading zero unless it is `0`, and reads back to the number. |
| `Decimal.IntToString` | script.js:27 | A negative integer renders as `-` followed by the digits of its magnitude; a non-negative one as its digits. |
| `Decimal.PadStart` | script.js:27 | `padStart` keeps the string as its suffix and fills only the missing width with the fill character. |
| `Decimal.LeadingZeroNeutral` | script.js:27 | A leading zero does not change the value a digit string denotes. |
| `TimeFormat.JsFloor` | script.js:25-26 | `Math.floor(x)` is the integer `n` with `n <= x < n + 1`. |
| `TimeFormat.JsRemainder` | script.js:26 | `s % 60` lies in [0, 60) for non-negative `s` and in (-60, 0] for negative `s`, and differs from `s` by a whole multiple of 60. |
| `TimeFormat.FloorSplit` | script.js:25-26 | For non-negative seconds, `Math.floor(s / 60)` and `Math.floor(s % 60)` are the quotient and remainder of the whole seconds by 60; for negative seconds the minutes are negative. |
| `TimeFormat.FormatTime` | script.js:23-28 | NaN shows `0:00`; a non-negative time shows the clock face of its whole seconds; a negative one starts with `-`. |
| `TimeFormat.FormatTimeFields` | script.js:25-27 | For a non-negative time the text is minutes, `:`, then exactly two digits with value below 60, and minutes * 60 + seconds equals the whole seconds. |
| `TimeFormat.ClockFaceFields` | script.js:25-27 | The same layout stated of the clock face of any whole number of seconds. |
| `TimeFormat.FormatThenParse` | script.js:23-28 | Reading back the text of a non-negative time gives its whole seconds. |
| `FileNames.SplitPushFacts` | script.js:117 | Adding one character to the text keeps the parts separator-free, joining back to the longer text, with one part exactly when there is no separator. |
| `FileNames.Split` | script.js:117 | `split('/')` yields at least one part, no part contains the separator, joining the parts gives the input back, and there is one part exactly when the separator is absent. |
| `FileNames.LastSegmentAfterFinalSlash` | script.js:117 | The last part of `split('/')` is the suffix after the last `/`, or the whole path when it has none. |
| `FileNames.LastSegment` | script.js:117 | `split('/').pop()` is a suffix of the path without `/`, preceded by a `/` unless it is the whole path: the text after the last `/`. |
| `FileNames.SongSegment` | script.js:117 | The last segment of `/x/Song.flac` is `Song.flac`. |
| `FileNames.ExtensionUnique` | script.js:113 | The pattern `\.[^/.]+$` can match at one position at most. |
| `FileNames.ScanExtension` | script.js:113 | Scanning left from a clean suffix finds the match position if there is one, and finds none exactly when the pattern does not match. |
| `FileNames.FindExtension` | script.js:113 | The position found is a match of `\.[^/.]+$`, and none is found only when the pattern has no match. |
| `FileNames.StripExtension` | script.js:113 | The result is the text before the match of `\.[^/.]+$`, or the input unchanged when the pattern does not match. |
| `FileNames.StripAfterAppend` | script.js:113 | Appending `.ext` (non-empty, no `/` or `.`) to any base and stripping gives the base back. |
| `FileNames.StripKeepsInnerDots` | script.js:113 | `a.b.mp3` becomes `a.b`. |
| `FileNames.StripNeedsCleanSuffix` | script.js:113 | A name is left unchanged exactly when each of its dots is the last character or is followed later by a `/` or another dot. |
| `FileNames.StripNeedsCleanSuffixExamples` | script.js:113 | `dir.d/track` and `track.` are left unchanged. |
| `TrackMetadata.OrElse` | main.js:86-88 | `tag || fallback` yields the tag when it is a non-empty string and the fallback otherwise. |
| `TrackMetadata.DataUrl` | main.js:82 | The URL is `data:`, then the format, then `;base64,`, then the payload, and nothing else. |
| `TrackMetadata.FirstIndexOf` | main.js:82 | Finds the first occurrence of a character, and none exactly when it is absent. |
| `TrackMetadata.AlbumArt` | main.js:78-83 | Art exists exactly when the picture list exists and is non-empty, and is the data URL of the first picture's format and encoded bytes. |
| `TrackMetadata.DataUrlRoundTrip` | main.js:82 | The data URL parses back to the picture's format and payload when the format has no `;`. |
| `TrackMetadata.GetMetadata` | main.js:73-100 | Artist and album are never empty; an extraction error yields base-name title, unknown artist and album, no art; on success each field is its tag when that is a non-empty string and its default otherwise, and the art is the first picture's data URL when there is a picture and none otherwise. |
| `TrackMetadata.FailureMatchesEmptyTags` | main.js:85-98 | The error path returns exactly what the success path returns for a file with no tags. |
| `TrackMetadata.EmptyTagsAreMissing` | main.js:86-88 | An empty title, artist or album tag gives the same record as that tag being absent, whatever the other tags hold. |
| `TrackMetadata.ArtFromFirstPicture` | main.js:79-83 | For any first picture, pictures after it never change the record, and the art is the data URL of the first picture's format and encoded bytes. |
| `TrackMetadata.ArtParsesBack` | main.js:79-83 | When the first picture's format has no `;`, the art reads back to that format and the picture's encoded bytes. |
| `FileDialog.SelectedPath` | main.js:58-61 | A path is returned exactly when the dialog was not cancelled and has a path, and it is the first one. |
| `SongInfo.PathToOpen` | script.js:45-49 | A file is loaded exactly when the dialog was not cancelled and its first path is a non-empty string, and that path is loaded. |
| `SongInfo.FallbackInfo` | script.js:111-122 | A non-empty given name wins, stripped of its extension; otherwise the title is the path's last `/`-separated segment with its final extension stripped, a prefix of that segment without `/` cut at a dot; the artist is unknown and the placeholder shows. |
| `SongInfo.BrowserFileInfo` | script.js:125-133 | The browser path shows what the fallback shows when given the file's name. |
| `SongInfo.LoadedInfo` | script.js:67-105 | Under Electron a delivered record supplies title and artist and the art when it is a non-empty string; a failed request falls back from the path and name; without Electron a browser file shows its name's labels and otherwise the fallback from the path and name applies. |
| `SongInfo.LoadAudioFile` | script.js:67-108 | Loading sets the source, leaves the rest of the player state alone, issues set-source then load, and replaces the labels. |
| `SongInfo.ElectronArtistNeverEmpty` | script.js:73-92 | Under Electron the artist label is never empty, whatever extraction and the request did. |
| `SongInfo.ElectronShowsTags` | script.js:73-88 | A tagged song shows its title and artist, and a cover exactly when it has a picture. |
| `SongInfo.FallbackTitleFromPath` | script.js:117 | The fallback title of `/x/Song.flac` is `Song`. |
| `Transport.Step` | script.js:136-212 | Stop and ended clear the playing flag and rewind to 0; stop commands pause then a seek to 0, ended only the seek; the engine's play event turns the flag and pause icon on and its pause event turns them off; mouse down sets dragging and mouse up clears it; loadedmetadata records the duration; setting a source records it and hands the path to the engine; a tick outside a drag moves label and thumb and always records the engine position; slider events move the thumb; ticks, slider input, mouse and engine play/pause/metadata events command nothing; the icon invariant and non-negative positions are kept. |
| `Transport.StepFrame` | script.js:136-212 | Only engine play/pause, stop and ended change the playing flag; only mouse down/up change dragging; only loadedmetadata changes the duration; the engine position moves only on a tick, stop, ended, or slider release with a source; a source once set stays and only loading sets it; the label moves only on a tick outside a drag or slider input with a source, the thumb only on such a tick or a slider event; play is commanded only on a click with a source while not playing, and a seek away from 0 only on slider release with a source. |
| `Transport.PlayClickOnlyAsks` | script.js:136-146 | A play click never changes the state; with no source it issues nothing, otherwise pause when playing and play when not. |
| `Transport.StopIdempotent` | script.js:149-155 | Stopping twice gives the same state and calls as stopping once. |
| `Transport.ReleaseResumesTicks` | script.js:175-198 | After the slider is released the next engine tick shows on the label. |
| `Transport.PlayToEnd` | script.js:158-189 | Loading, the engine starting and the engine ending leave the player stopped at position 0 with the play icon. |
| `Transport.DragFreezesLabel` | script.js:175-206 | While the slider is held, no run of events without release or slider input moves the label or ends the drag. |
| `Transport.NoSourceNeverMoves` | script.js:136-212 | Without a source, no run of events that loads nothing starts playback or seeks away from 0. |
| `Transport.PlayingNeedsEngine` | script.js:136-168 | The playing flag stays off through any run without an engine play event. |
| `Transport.RunKeepsInvariants` | script.js:149-189 | Along any run of well-formed events the icon matches the playing flag and no position is negative. |
| `Transport.InitialInvariants` | script.js:19-20 | The initial state satisfies the icon and non-negativity invariants. |
| `Transport.SliderInputOnlyLabel` | script.js:200-206 | Slider input issues no engine call; besides the thumb it changes only the label, and only with a source. |
| `Transport.SliderChangeSeeksWithSource` | script.js:208-212 | Slider release seeks to its value exactly when there is a source, and leaves the label alone. |
| `Transport.CurrentTimeLabel` | script.js:175-177 | The current-time text reads back to the whole seconds of a non-negative displayed position. |
| `Transport.TotalTimeLabel` | script.js:170-173 | The total-time text is `0:00` before a duration is known and reads back to the whole seconds of a known non-negative duration. |
| `Transport.DragKeepsLabelText` | script.js:175-182 | An engine tick during a drag leaves the current-time text unchanged. |

## Left out

- Window creation, the app lifecycle and the minimize/close requests (main.js:8-46, 64-70; script.js:227-238): host-shell plumbing.
- The dialog's file-type filters (main.js:50-56): advisory input to the host dialog.
- `music-metadata`'s `parseFile`, Node's `path.basename`/`path.extname` and `Buffer.toString('base64')`: foreign code, taken as an input `Result` and function parameters; nothing is assumed about how Node's base name relates to the renderer's regular expression.
- A picture whose `format` is undefined (the URL would then contain the word `undefined`): formats are modelled as strings.
- Slider gradient fills and percentage arithmetic (script.js:31-40, 178, 202, 219): styling and floating-point division.
- The volume slider (script.js:215-224): a pass-through of `value / 100` with no clamping.
- The browser file input and `URL.createObjectURL` (script.js:52-62) and `console.error` logging; the browser path of `loadAudioFile` is modelled from the file's name.
- Asynchronous interleaving inside `loadAudioFile`: the model applies setting the source, the labels and the final load as one step, as the code runs them in order.
- Floating point: times are exact reals; Infinity, rounding, and JavaScript's exponent notation for numbers of 1e21 and above are not modelled.
- The labels' text before the first `loadedmetadata`/`timeupdate` comes from the page markup, which is not part of this model; `Initial` shows no duration and position 0.
- The progress slider's own value sanitization (the browser clamps an `<input type=range>` value to `[min, max]` and snaps it to `step` on script.js:172 and 179): `sliderPos` and `duration` keep the exact values assigned.
- The audio element's own behaviour (whether `play()` succeeds, what `load()` resets, which events follow a seek) is not modelled: it answers only through the events given to `Step`.
