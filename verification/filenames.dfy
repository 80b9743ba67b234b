/** The renderer's file-name handling (script.js): `path.split('/').pop()` for the last path
    segment and `name.replace(/\.[^/.]+$/, '')` for dropping an extension. */
module FileNames {
  import opened Wrappers

  /** Glues parts back together with `sep` between consecutive parts (`parts.join(sep)`). */
  function Join(parts: seq<string>, sep: char): (s: string)
    requires |parts| >= 1
  {
    if |parts| == 1 then parts[0]
    else Join(parts[..|parts| - 1], sep) + [sep] + parts[|parts| - 1]
  }

  /** The parts of `prefix + [c]` from the parts of `prefix`: a separator opens a new empty
      part, any other character extends the last part. */
  function SplitPush(init: seq<string>, c: char, sep: char): (parts: seq<string>)
    requires |init| >= 1
  {
    if c == sep then init + [""]
    else init[..|init| - 1] + [init[|init| - 1] + [c]]
  }

  /** Pushing one character keeps the parts a separator-free split of the longer text. */
  lemma SplitPushFacts(prefix: string, init: seq<string>, c: char, sep: char)
    requires |init| >= 1
    requires forall i :: 0 <= i < |init| ==> sep !in init[i]
    requires Join(init, sep) == prefix
    requires |init| == 1 <==> sep !in prefix
    ensures var parts := SplitPush(init, c, sep);
            && |parts| >= 1
            && (forall i :: 0 <= i < |parts| ==> sep !in parts[i])
            && Join(parts, sep) == prefix + [c]
            && (|parts| == 1 <==> sep !in prefix + [c])
  {
    var parts := SplitPush(init, c, sep);
    if c == sep {
      assert parts[..|parts| - 1] == init;
      assert c in prefix + [c];
    } else {
      var last := init[|init| - 1];
      if |init| > 1 {
        assert parts[..|parts| - 1] == init[..|init| - 1];
      }
    }
  }

  /** `s.split(sep)` for a one-character separator: always at least one part, an empty string
      gives `[""]`, and a trailing separator gives a trailing empty part. */
  function Split(s: string, sep: char): (parts: seq<string>)
    ensures |parts| >= 1
    ensures forall i :: 0 <= i < |parts| ==> sep !in parts[i]
    ensures Join(parts, sep) == s
    ensures |parts| == 1 <==> sep !in s
    decreases |s|
  {
    if |s| == 0 then [""]
    else
      var prefix := s[..|s| - 1];
      var init := Split(prefix, sep);
      assert s == prefix + [s[|s| - 1]];
      SplitPushFacts(prefix, init, s[|s| - 1], sep);
      SplitPush(init, s[|s| - 1], sep)
  }

  /** The last `/`-separated segment of a path: `path.split('/').pop()`. */
  function LastSegment(path: string): (seg: string)
    ensures |seg| <= |path| && seg == path[|path| - |seg|..]
    ensures '/' !in seg
    ensures |seg| < |path| ==> path[|path| - |seg| - 1] == '/'
  {
    var parts := Split(path, '/');
    LastSegmentAfterFinalSlash(path);
    parts[|parts| - 1]
  }

  /** The last segment is exactly the text after the final `/`, or the whole path when it
      has none: a suffix without `/`, preceded in the path by a `/` unless it is all of it. */
  lemma {:induction false} LastSegmentAfterFinalSlash(path: string)
    ensures var parts := Split(path, '/');
            var seg := parts[|parts| - 1];
            && |seg| <= |path|
            && seg == path[|path| - |seg|..]
            && '/' !in seg
            && (|seg| < |path| ==> path[|path| - |seg| - 1] == '/')
    decreases |path|
  {
    if |path| > 0 {
      var prefix := path[..|path| - 1];
      LastSegmentAfterFinalSlash(prefix);
      var c := path[|path| - 1];
      if c != '/' {
        var parts := Split(path, '/');
        var pparts := Split(prefix, '/');
        assert parts[|parts| - 1] == pparts[|pparts| - 1] + [c];
      }
    }
  }

  /** `s[i..]` is what the regular expression `\.[^/.]+$` matches: a dot followed by one or
      more characters, none of them `/` or `.`, running to the end of the string. */
  ghost predicate ExtensionAt(s: string, i: int) {
    && 0 <= i < |s| - 1
    && s[i] == '.'
    && forall j :: i < j < |s| ==> s[j] != '/' && s[j] != '.'
  }

  /** The regular expression can match at one position at most: the last dot of the string. */
  lemma ExtensionUnique(s: string, i: int, k: int)
    requires ExtensionAt(s, i) && ExtensionAt(s, k)
    ensures i == k
  {
  }

  /** Scans left from `k`, every character at or after `k` being neither `/` nor `.`, for the
      dot that starts a match of `\.[^/.]+$`. */
  function ScanExtension(s: string, k: nat): (r: Option<nat>)
    requires k <= |s|
    requires forall j :: k <= j < |s| ==> s[j] != '/' && s[j] != '.'
    ensures r.Some? ==> ExtensionAt(s, r.value)
    ensures r.None? ==> forall i :: !ExtensionAt(s, i)
    decreases k
  {
    if k == 0 then None
    else if s[k - 1] == '.' then
      if k < |s| then Some(k - 1)
      else None
    else if s[k - 1] == '/' then None
    else ScanExtension(s, k - 1)
  }

  /** Where `s` matches `\.[^/.]+$`, if it does. */
  function FindExtension(s: string): (r: Option<nat>)
    ensures r.Some? ==> ExtensionAt(s, r.value)
    ensures r.None? ==> forall i :: !ExtensionAt(s, i)
  {
    ScanExtension(s, |s|)
  }

  /** `s.replace(/\.[^/.]+$/, '')`: the final extension removed, or `s` unchanged when the
      regular expression does not match. */
  function StripExtension(s: string): (r: string)
    ensures (exists i :: ExtensionAt(s, i) && r == s[..i])
            || ((forall i :: !ExtensionAt(s, i)) && r == s)
  {
    match FindExtension(s)
    case Some(i) => s[..i]
    case None => s
  }

  /** Appending `.ext` to any base, with `ext` non-empty and free of `/` and `.`, and then
      stripping the extension gives back the base. */
  lemma StripAfterAppend(base: string, ext: string)
    requires |ext| >= 1
    requires forall j :: 0 <= j < |ext| ==> ext[j] != '/' && ext[j] != '.'
    ensures StripExtension(base + "." + ext) == base
  {
    var s := base + "." + ext;
    assert ExtensionAt(s, |base|);
    var i :| ExtensionAt(s, i) && StripExtension(s) == s[..i];
    ExtensionUnique(s, i, |base|);
    assert s[..|base|] == base;
  }

  /** Only a trailing dot-suffix is removed: `a.b.mp3` loses `.mp3` and keeps `a.b`. */
  lemma StripKeepsInnerDots()
    ensures StripExtension("a.b.mp3") == "a.b"
  {
    StripAfterAppend("a.b", "mp3");
    assert "a.b" + "." + "mp3" == "a.b.mp3";
  }

  /** A name keeps all its text exactly when every dot in it is either the last character
      or followed later by a `/` or another dot. */
  lemma StripNeedsCleanSuffix(s: string)
    ensures StripExtension(s) == s <==>
            forall i :: 0 <= i < |s| && s[i] == '.' ==>
              i == |s| - 1 || exists j :: i < j < |s| && (s[j] == '/' || s[j] == '.')
  {
    if StripExtension(s) == s {
      forall i | 0 <= i < |s| && s[i] == '.' && i != |s| - 1
        ensures exists j :: i < j < |s| && (s[j] == '/' || s[j] == '.')
      {
        if !exists j :: i < j < |s| && (s[j] == '/' || s[j] == '.') {
          assert ExtensionAt(s, i);
        }
      }
    }
  }

  /** Two names kept whole: a dot followed later by a `/`, and a trailing dot. */
  lemma StripNeedsCleanSuffixExamples()
    ensures StripExtension("dir.d/track") == "dir.d/track"
    ensures StripExtension("track.") == "track."
  {
    var s := "dir.d/track";
    forall i | 0 <= i < |s| && s[i] == '.'
      ensures !ExtensionAt(s, i)
    {
      assert i == 3;
      assert s[5] == '/';
    }
    var t := "track.";
    if exists i :: ExtensionAt(t, i) {
      var i :| ExtensionAt(t, i);
      assert false;
    }
  }

  /** The last segment of `/x/Song.flac` is `Song.flac`. */
  lemma SongSegment()
    ensures LastSegment("/x/Song.flac") == "Song.flac"
  {
    var path := "/x/Song.flac";
    var seg := LastSegment(path);
    LastSegmentAfterFinalSlash(path);
    assert |seg| == 9 by {
      if |seg| > 9 {
        assert false;
      } else if |seg| < 9 {
        assert false;
      }
    }
    assert seg == path[3..];
  }
}
