/**
 * What the player element derives from its options and from the page it sits
 * on: the service address, the album path and its record key, the track
 * directories split on `|`, the "edit a document" test, and the rule that turns
 * a regular-expression match into a track order key or a track name.
 *
 * The page location and the regular-expression engine are parameters: the
 * pathname is given already decoded, and an `Engine` returns the whole match
 * and the first capture group (an undefined group is the empty string).
 */
module Config {
  import opened Wrappers
  import Helper

  /** The element's attributes in camel case; an absent attribute is "". */
  datatype Options = Options(
    alistUrl: string,
    albumPath: string,
    albumPassword: string,
    albumName: string,
    artistName: string,
    trackPath: string,
    trackOrder: string,
    trackName: string,
    coverPath: string)

  /** `window.location`: its origin and its decoded pathname. */
  datatype Location = Location(origin: string, pathname: string)

  /** `patt.exec(name)`: the whole match and the first capture group. */
  datatype Match = Match(whole: string, group1: string)

  /** `new RegExp(pattern, 'i').exec(name)`. */
  type Engine = (string, string) -> Option<Match>

  const DefaultTrackPath := "/track"
  const TrackPathSeparator := '|'

  // ------------------------------------------------------------ addresses

  /** `getAlistUrl`: the configured address, or the page's origin. */
  function GetAlistUrl(options: Options, location: Location): (r: string)
    ensures r == "" ==> options.alistUrl == "" && location.origin == ""
    ensures options.alistUrl != "" ==> r == options.alistUrl
    ensures options.alistUrl == "" ==> r == location.origin
  {
    if options.alistUrl != "" then options.alistUrl else location.origin
  }

  /** The album path before trimming: the configured one, or the page's pathname. */
  function RawAlbumPath(options: Options, location: Location): string
  {
    if options.albumPath != "" then options.albumPath else location.pathname
  }

  /**
   * `getAlbumPath`: one trailing "/" is dropped, but only from a path longer
   * than two characters, so "/" and "//" are kept as they are. The result is
   * empty exactly when there is no path at all.
   */
  function GetAlbumPath(options: Options, location: Location): (r: string)
    ensures var p := RawAlbumPath(options, location);
      && (|p| > 2 && Helper.EndsWith(p, "/") ==> p == r + "/")
      && (!(|p| > 2 && Helper.EndsWith(p, "/")) ==> r == p)
    ensures r == "" <==> RawAlbumPath(options, location) == ""
  {
    var path := RawAlbumPath(options, location);
    if |path| > 2 then Helper.RemoveEnd(path, "/") else path
  }

  /** The key of the album's playback record: `getAlistUrl() + getAlbumPath()`. */
  function RecordKey(options: Options, location: Location): (r: string)
    ensures GetAlistUrl(options, location) <= r
    ensures r[|GetAlistUrl(options, location)|..] == GetAlbumPath(options, location)
  {
    var base := GetAlistUrl(options, location);
    var r := base + GetAlbumPath(options, location);
    assert r[..|base|] == base;
    r
  }

  /** An album path with or without its trailing "/" names the same record. */
  lemma RecordKeyTrailingSlash(options: Options, location: Location)
    requires |options.albumPath| >= 2 && !Helper.EndsWith(options.albumPath, "/")
    ensures RecordKey(options.(albumPath := options.albumPath + "/"), location) == RecordKey(options, location)
  {
    var slashed := options.(albumPath := options.albumPath + "/");
    assert Helper.EndsWith(options.albumPath + "/", "/");
    assert GetAlbumPath(slashed, location) == options.albumPath;
    assert options.albumPath[|options.albumPath| - 1..] != "/";
  }

  /**
   * The service address is not trimmed: one trailing "/" on it gives a
   * different, one character longer, record key for the same album.
   */
  lemma RecordKeyServiceSlash(options: Options, location: Location)
    requires options.alistUrl != ""
    ensures var slashed := options.(alistUrl := options.alistUrl + "/");
      && |RecordKey(slashed, location)| == |RecordKey(options, location)| + 1
      && RecordKey(slashed, location) != RecordKey(options, location)
  {
    var slashed := options.(alistUrl := options.alistUrl + "/");
    assert GetAlbumPath(slashed, location) == GetAlbumPath(options, location);
  }

  /** `decodeURI(location.pathname).slice(-3) === '.md'`: the page is a document being edited. */
  function IsEditingDocument(location: Location): (r: bool)
    ensures r <==> Helper.EndsWith(location.pathname, ".md")
  {
    Helper.SliceTailIsSuffix(location.pathname, ".md");
    Helper.Slice(location.pathname, -3, |location.pathname|) == ".md"
  }

  // ------------------------------------------------------------ track paths

  /** `s.split(sep)` for a one-character separator. */
  function Split(s: string, sep: char): (parts: seq<string>)
    ensures |parts| == multiset(s)[sep] + 1
    ensures forall i | 0 <= i < |parts| :: sep !in parts[i]
    decreases |s|
  {
    if s == [] then [""]
    else
      var rest := Split(s[1..], sep);
      assert s == [s[0]] + s[1..];
      if s[0] == sep then [""] + rest
      else [[s[0]] + rest[0]] + rest[1..]
  }

  /** `parts.join(sep)`. */
  function Join(parts: seq<string>, sep: char): string
    requires |parts| >= 1
  {
    if |parts| == 1 then parts[0] else parts[0] + [sep] + Join(parts[1..], sep)
  }

  /** The pieces of a non-empty string, from those of its tail. */
  lemma SplitFirst(s: string, sep: char)
    requires s != []
    ensures var rest := Split(s[1..], sep);
      Split(s, sep) == if s[0] == sep then [""] + rest else [[s[0]] + rest[0]] + rest[1..]
  {}

  /** A leading character joins the first piece. */
  lemma JoinConsChar(c: char, parts: seq<string>, sep: char)
    requires |parts| >= 1
    ensures Join([[c] + parts[0]] + parts[1..], sep) == [c] + Join(parts, sep)
  {
    var joined := [[c] + parts[0]] + parts[1..];
    assert joined[1..] == parts[1..];
    if |parts| > 1 {
      assert Join(joined, sep) == [c] + parts[0] + [sep] + Join(parts[1..], sep);
    }
  }

  /** A leading empty piece joins as a leading separator. */
  lemma JoinConsEmpty(parts: seq<string>, sep: char)
    requires |parts| >= 1
    ensures Join([""] + parts, sep) == [sep] + Join(parts, sep)
  {
    assert ([""] + parts)[1..] == parts;
  }

  /** Joining the pieces of a split gives back the string. */
  lemma {:induction false} JoinSplit(s: string, sep: char)
    ensures Join(Split(s, sep), sep) == s
    decreases |s|
  {
    if s != [] {
      JoinSplit(s[1..], sep);
      SplitFirst(s, sep);
      var rest := Split(s[1..], sep);
      var parts := Split(s, sep);
      if s[0] == sep {
        JoinConsEmpty(rest, sep);
        assert parts == [""] + rest;
      } else {
        JoinConsChar(s[0], rest, sep);
        assert parts == [[s[0]] + rest[0]] + rest[1..];
      }
      assert Join(parts, sep) == [s[0]] + s[1..];
      assert [s[0]] + s[1..] == s;
    }
  }

  /** A piece without the separator, followed by the separator, splits off as one piece. */
  lemma {:induction false} SplitPiece(a: string, sep: char, t: string)
    requires sep !in a
    ensures Split(a + [sep] + t, sep) == [a] + Split(t, sep)
    decreases |a|
  {
    if a == [] {
      assert a + [sep] + t == [sep] + t;
      assert ([sep] + t)[1..] == t;
    } else {
      var s := a + [sep] + t;
      assert s[1..] == a[1..] + [sep] + t;
      SplitPiece(a[1..], sep, t);
      assert [a[0]] + a[1..] == a;
    }
  }

  /** A string without the separator is a single piece. */
  lemma {:induction false} SplitWhole(a: string, sep: char)
    requires sep !in a
    ensures Split(a, sep) == [a]
    decreases |a|
  {
    if a != [] {
      SplitWhole(a[1..], sep);
      assert [a[0]] + a[1..] == a;
    }
  }

  /** Splitting a join of separator-free pieces gives back the pieces. */
  lemma {:induction false} SplitJoin(parts: seq<string>, sep: char)
    requires |parts| >= 1
    requires forall i | 0 <= i < |parts| :: sep !in parts[i]
    ensures Split(Join(parts, sep), sep) == parts
    decreases |parts|
  {
    if |parts| == 1 {
      SplitWhole(parts[0], sep);
    } else {
      SplitJoin(parts[1..], sep);
      SplitPiece(parts[0], sep, Join(parts[1..], sep));
      assert [parts[0]] + parts[1..] == parts;
    }
  }

  /** The track path option before splitting: the configured one, or "/track". */
  function RawTrackPath(options: Options): string
  {
    if options.trackPath != "" then options.trackPath else DefaultTrackPath
  }

  /**
   * `getTrackPaths`: the track path option, "/track" by default, split on `|`;
   * one directory more than there are separators, none of them containing one,
   * and joined back they give the option.
   */
  function GetTrackPaths(options: Options): (r: seq<string>)
    ensures |r| == multiset(RawTrackPath(options))[TrackPathSeparator] + 1
    ensures forall i | 0 <= i < |r| :: TrackPathSeparator !in r[i]
    ensures Join(r, TrackPathSeparator) == RawTrackPath(options)
    ensures options.trackPath == "" ==> r == [DefaultTrackPath]
  {
    JoinSplit(RawTrackPath(options), TrackPathSeparator);
    SplitWhole(DefaultTrackPath, TrackPathSeparator);
    Split(RawTrackPath(options), TrackPathSeparator)
  }

  /** Directories written joined by `|` are read back one by one. */
  lemma TrackPathsOfJoin(options: Options, dirs: seq<string>)
    requires |dirs| >= 1 && forall i | 0 <= i < |dirs| :: TrackPathSeparator !in dirs[i]
    requires options.trackPath == Join(dirs, TrackPathSeparator) && options.trackPath != ""
    ensures GetTrackPaths(options) == dirs
  {
    SplitJoin(dirs, TrackPathSeparator);
  }

  // ----------------------------------------------------- capture-group rule

  /** `a` occurs in `b` as a contiguous piece. */
  predicate Within(a: string, b: string)
  {
    exists i, j :: 0 <= i <= j <= |b| && b[i..j] == a
  }

  lemma WithinTransitive(a: string, b: string, c: string)
    requires Within(a, b) && Within(b, c)
    ensures Within(a, c)
  {
    var i, j :| 0 <= i <= j <= |b| && b[i..j] == a;
    var k, l :| 0 <= k <= l <= |c| && c[k..l] == b;
    assert |b| == l - k;
    assert forall x | 0 <= x < j - i :: a[x] == b[i + x] == c[k + i + x];
    assert c[k + i..k + j] == a;
  }

  /** What a regular-expression engine may return: a piece of the name whose group is a piece of it. */
  predicate MatchWithin(m: Option<Match>, name: string)
  {
    m.Some? ==> Within(m.value.whole, name) && Within(m.value.group1, m.value.whole)
  }

  /**
   * `parseTrackOrder` and `parseTrackName`: without a pattern, or without a
   * match, the name itself; otherwise the first capture group, or the whole
   * match when the group is empty. The result is empty only for an empty name
   * or an entirely empty match.
   */
  function ParseCapture(pattern: string, engine: Engine, name: string): (r: string)
    ensures pattern == "" || engine(pattern, name).None? ==> r == name
    ensures pattern != "" && engine(pattern, name).Some? ==>
      r == (if engine(pattern, name).value.group1 != "" then engine(pattern, name).value.group1
            else engine(pattern, name).value.whole)
    ensures r == "" ==>
      name == "" || (pattern != "" && engine(pattern, name) == Some(Match("", "")))
  {
    if pattern == "" then name
    else
      match engine(pattern, name)
      case None => name
      case Some(m) => if m.group1 != "" then m.group1 else m.whole
  }

  /** With an engine that returns pieces of the name, the parsed text is a piece of the name. */
  lemma ParseCaptureWithin(pattern: string, engine: Engine, name: string)
    ensures MatchWithin(engine(pattern, name), name) ==> Within(ParseCapture(pattern, engine, name), name)
  {
    assert name[0..|name|] == name;
    if MatchWithin(engine(pattern, name), name) && pattern != "" && engine(pattern, name).Some? {
      var m := engine(pattern, name).value;
      if m.group1 != "" {
        WithinTransitive(m.group1, m.whole, name);
      }
    }
  }

  /** `parseTrackOrder(name)`: the key the playlist is sorted by. */
  function TrackOrder(options: Options, engine: Engine, name: string): (r: string)
    ensures options.trackOrder == "" ==> r == name
    ensures MatchWithin(engine(options.trackOrder, name), name) ==> Within(r, name)
  {
    ParseCaptureWithin(options.trackOrder, engine, name);
    ParseCapture(options.trackOrder, engine, name)
  }

  /**
   * `getAudioName`: the album name, a space, and the parsed track name, or the
   * file name when the parsed one is empty. With no album name the result
   * starts with the space.
   */
  function AudioName(options: Options, engine: Engine, name: string): (r: string)
    ensures var title := ParseCapture(options.trackName, engine, name);
      r == options.albumName + " " + (if title != "" then title else name)
    ensures r[|options.albumName|] == ' '
    ensures name != "" ==> |r| > |options.albumName| + 1
  {
    var title := ParseCapture(options.trackName, engine, name);
    options.albumName + " " + (if title != "" then title else name)
  }
}
