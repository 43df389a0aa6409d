/**
 The parser for the reply to the now-playing command: `artist|title|duration` on the first line
 that is neither blank nor END, with defaults for whatever is missing.
 */
module NowPlaying {
  import opened Sequences
  import opened Wrappers
  import opened Text

  datatype Number = Finite(value: real) | NotFinite

  /** What std::stod does with a text: it throws, or it reads a number from the first `used` characters. */
  datatype StodResult = Throws | Parsed(number: Number, used: nat)

  type Stod = string -> StodResult

  datatype Track = Track(artist: string, title: string, playlist: string, duration: real)

  const UNKNOWN := "Unknown"

  function ParseDuration(text: string, stod: Stod): (d: real)
    ensures d >= 0.0
    ensures d > 0.0 ==> text != "" && stod(text) == Parsed(Finite(d), |text|)
    ensures forall v :: text != "" && stod(text) == Parsed(Finite(v), |text|) && v >= 0.0 ==> d == v
  {
    if text == "" then 0.0
    else match stod(text)
      case Throws => 0.0
      case Parsed(number, used) =>
        if used != |text| || number.NotFinite? || number.value < 0.0 then 0.0 else number.value
  }

  function OrUnknown(name: string): string {
    if name == "" then UNKNOWN else name
  }

  /** The fields of one line. */
  function ReadLine(line: string, stod: Stod): Track {
    var bar := IndexOf(line, '|');
    if bar == |line| then Track(UNKNOWN, OrUnknown(line), "default", 0.0)
    else
      var rest := line[bar + 1..];
      var bar2 := LastIndexOf(rest, '|');
      if bar2 == -1 then Track(OrUnknown(line[..bar]), OrUnknown(rest), "default", 0.0)
      else Track(OrUnknown(line[..bar]), OrUnknown(rest[..bar2]), "default", ParseDuration(rest[bar2 + 1..], stod))
  }

  /** The line that the parser uses: getline after getline, up to END. */
  function ContentLine(data: string): Option<string>
    decreases |data|
  {
    if data == "" then None
    else
      var i := IndexOf(data, '\n');
      var line := StripCr(data[..i]);
      if line == "END" then None
      else if line == "" then if i == |data| then None else ContentLine(data[i + 1..])
      else Some(line)
  }

  function Parse(data: string, stod: Stod): Track {
    match ContentLine(data)
    case None => Track(UNKNOWN, UNKNOWN, "default", 0.0)
    case Some(line) => ReadLine(line, stod)
  }

  /** The fields of a line, filled in one by one. */
  method ReadFields(line: string, stod: Stod) returns (track: Track)
    requires line != ""
    ensures track == ReadLine(line, stod)
  {
    var title, artist: Option<string>, duration: Option<real> := None, None, None;
    var bar := IndexOf(line, '|');
    if bar == |line| {
      title := Some(line);
    } else {
      var rest := line[bar + 1..];
      var text := rest;
      var bar2 := LastIndexOf(rest, '|');
      if bar2 != -1 {
        text := rest[..bar2];
        duration := Some(ParseDuration(rest[bar2 + 1..], stod));
      }
      if line[..bar] != "" { artist := Some(line[..bar]); }
      if text != "" { title := Some(text); }
    }
    track := Track(if artist.Some? then artist.value else UNKNOWN,
                   if title.Some? then title.value else UNKNOWN,
                   "default",
                   if duration.Some? then duration.value else 0.0);
  }

  lemma NextLine(data: string, pos: nat, i: nat)
    requires pos < |data| && i == IndexOf(data[pos..], '\n')
    ensures data[pos..][..i] == data[pos..pos + i]
    ensures i < |data| - pos ==> data[pos..][i + 1..] == data[pos + i + 1..]
  {
  }

  /** The parser as it runs: a loop over the lines. */
  method ParseNowPlaying(data: string, stod: Stod) returns (track: Track)
    ensures track == Parse(data, stod)
  {
    var pos := 0;
    while pos < |data|
      invariant 0 <= pos <= |data|
      invariant ContentLine(data) == ContentLine(data[pos..])
      decreases |data| - pos
    {
      var i := IndexOf(data[pos..], '\n');
      var line := StripCr(data[pos..pos + i]);
      NextLine(data, pos, i);
      pos := if pos + i == |data| then |data| else pos + i + 1;
      if line == "END" { break; }
      if line == "" { continue; }
      track := ReadFields(line, stod);
      return;
    }
    track := Track(UNKNOWN, UNKNOWN, "default", 0.0);
  }

  // ---------------------------------------------------------------- what the parser promises

  /** Every reply, however odd, gives names that are not empty and a duration that is not negative. */
  lemma AlwaysWellTyped(data: string, stod: Stod)
    ensures var t := Parse(data, stod);
            t.artist != "" && t.title != "" && t.playlist == "default" && t.duration >= 0.0
  {
    match ContentLine(data)
    case None =>
    case Some(line) =>
  }

  function Eol(crlf: bool): string {
    (if crlf then "\r" else "") + ['\n']
  }

  function Blanks(eols: seq<bool>): string {
    if eols == [] then "" else Eol(eols[0]) + Blanks(eols[1..])
  }

  /** What may come after the line: nothing at all, or a line ending and more data. */
  datatype End = EndOfData | More(crlf: bool, data: string)

  function EndText(end: End): string {
    match end
    case EndOfData => ""
    case More(crlf, data) => (if crlf then "\r" else "") + ['\n'] + data
  }

  lemma {:induction false} LineIsFound(eols: seq<bool>, line: string, end: End)
    requires '\n' !in line && line != "" && line != "END" && line[|line| - 1] != '\r'
    ensures ContentLine(Blanks(eols) + (line + EndText(end))) == Some(line)
  {
    var text := line + EndText(end);
    if eols == [] {
      assert Blanks(eols) + text == text;
      LineIsRead(line, end);
    } else {
      var tail := Blanks(eols[1..]) + text;
      LineIsFound(eols[1..], line, end);
      BlankIsSkipped(eols[0], tail);
      hide ContentLine, EndText, Eol;
      Regrouped(Eol(eols[0]), Blanks(eols[1..]), text);
    }
  }

  lemma BlankIsSkipped(crlf: bool, tail: string)
    ensures tail != "" ==> ContentLine(Eol(crlf) + tail) == ContentLine(tail)
  {
    var cr := if crlf then "\r" else "";
    assert Eol(crlf) + tail == cr + ['\n'] + tail;
    IndexOfCut(cr, '\n', tail);
    assert StripCr(cr) == "";
  }

  lemma LineIsRead(line: string, end: End)
    requires '\n' !in line && line != "" && line != "END" && line[|line| - 1] != '\r'
    ensures ContentLine(line + EndText(end)) == Some(line)
  {
    match end
    case EndOfData =>
      LastLineIsRead(line);
    case More(crlf, data) =>
      var cr := if crlf then "\r" else "";
      EndedLineIsRead(line, cr, data);
      Regrouped(line, cr + ['\n'], data);
      Regrouped(line, cr, ['\n']);
  }

  lemma LastLineIsRead(line: string)
    requires '\n' !in line && line != "" && line != "END" && line[|line| - 1] != '\r'
    ensures ContentLine(line) == Some(line) && line + "" == line
  {
    assert line[..|line|] == line;
  }

  lemma EndedLineIsRead(line: string, cr: string, more: string)
    requires '\n' !in line && line != "" && line != "END" && line[|line| - 1] != '\r'
    requires cr == "" || cr == "\r"
    ensures ContentLine(line + cr + ['\n'] + more) == Some(line)
  {
    IndexOfCut(line + cr, '\n', more);
    if cr == "" {
      assert line + cr == line;
    } else {
      assert (line + cr)[..|line|] == line;
    }
  }

  lemma LastBar(a: string, b: string)
    ensures LastIndexOf(a + "|" + b, '|') >= |a|
    ensures '|' !in b ==> LastIndexOf(a + "|" + b, '|') == |a|
    ensures '|' in b ==> LastIndexOf(a + "|" + b, '|') > |a|
    ensures (a + "|" + b)[..|a|] == a && (a + "|" + b)[|a| + 1..] == b
  {
    LastIndexOfConcat(a + "|", b, '|');
    assert (a + "|")[|a|] == '|';
    SplitBack(a, b);
  }

  lemma SplitBack(a: string, b: string)
    ensures (a + "|" + b)[..|a|] == a && (a + "|" + b)[|a| + 1..] == b
  {
  }

  lemma NamesOf(artist: string, rest: string, stod: Stod)
    ensures '|' !in artist ==> ReadLine(artist + "|" + rest, stod).artist == OrUnknown(artist)
    ensures '|' in artist ==> ReadLine(artist + "|" + rest, stod).artist != artist
  {
    var line := artist + "|" + rest;
    if '|' !in artist {
      IndexOfCut(artist, '|', rest);
    } else {
      var bar := IndexOf(line, '|');
      IndexOfPrefix(artist, '|', "|" + rest);
      assert line == artist + ("|" + rest);
      assert bar < |artist|;
      assert |UNKNOWN| == 7 && '|' !in UNKNOWN;
    }
  }

  /** What is behind the first bar. */
  lemma RestOf(artist: string, rest: string, stod: Stod)
    requires '|' !in artist
    ensures var t := ReadLine(artist + "|" + rest, stod);
            var bar := LastIndexOf(rest, '|');
            if bar == -1 then t.title == OrUnknown(rest) && t.duration == 0.0
            else t.title == OrUnknown(rest[..bar]) && t.duration == ParseDuration(rest[bar + 1..], stod)
  {
    IndexOfCut(artist, '|', rest);
    hide IndexOf, LastIndexOf, ParseDuration;
  }

  /** Three fields: artist and title come back exactly when the artist is not empty and has no bar, the
      title is not empty (it may have bars) and the duration text has no bar; then the duration is the
      third field's. */
  lemma ThreeFields(artist: string, title: string, duration: string, stod: Stod)
    ensures var t := ReadLine(artist + "|" + (title + "|" + duration), stod);
            && (t.artist == artist && t.title == title
                <==> artist != "" && '|' !in artist && title != "" && '|' !in duration)
            && ('|' !in artist && '|' !in duration ==> t.duration == ParseDuration(duration, stod))
  {
    var rest := title + "|" + duration;
    NamesOf(artist, rest, stod);
    if '|' !in artist {
      RestOf(artist, rest, stod);
      LastBar(title, duration);
      hide ReadLine, IndexOf, LastIndexOf, ParseDuration;
    }
  }

  /** What is missing, in every line: an empty artist or title is unknown. */
  lemma MissingFields(artist: string, title: string, duration: string, stod: Stod)
    requires '|' !in artist && '|' !in duration
    ensures ReadLine(artist + "|" + (title + "|" + duration), stod)
            == Track(if artist == "" then "Unknown" else artist, if title == "" then "Unknown" else title, "default",
                     ParseDuration(duration, stod))
    ensures '|' !in title ==>
              ReadLine(artist + "|" + title, stod)
              == Track(if artist == "" then "Unknown" else artist, if title == "" then "Unknown" else title,
                       "default", 0.0)
  {
    var rest := title + "|" + duration;
    NamesOf(artist, rest, stod);
    RestOf(artist, rest, stod);
    LastBar(title, duration);
    NamesOf(artist, title, stod);
    RestOf(artist, title, stod);
    ReadLineKeepsPlaylist(artist + "|" + rest, stod);
    ReadLineKeepsPlaylist(artist + "|" + title, stod);
    hide ReadLine, IndexOf, LastIndexOf, ParseDuration;
  }

  lemma ReadLineKeepsPlaylist(line: string, stod: Stod)
    ensures ReadLine(line, stod).playlist == "default"
  {
  }

  /** Two fields: here the title must not have a bar, because what follows its last bar is then taken
      for the duration. */
  lemma TwoFields(artist: string, title: string, stod: Stod)
    ensures var t := ReadLine(artist + "|" + title, stod);
            && (t.artist == artist && t.title == title
                <==> artist != "" && '|' !in artist && title != "" && '|' !in title)
            && ('|' !in artist && '|' !in title ==> t.duration == 0.0)
  {
    NamesOf(artist, title, stod);
    if '|' !in artist {
      RestOf(artist, title, stod);
      hide ReadLine, IndexOf, LastIndexOf, ParseDuration;
      if '|' in title {
        assert '|' !in UNKNOWN;
      }
    }
  }

  /** Round trip: what is written as `artist|title|duration`, after any number of blank lines, with either
      line ending or at the end of the data, and with anything after it, is read back. */
  lemma NowPlayingRoundTrip(eols: seq<bool>, artist: string, title: string, duration: string, end: End, stod: Stod)
    requires artist != "" && '|' !in artist && title != "" && '|' !in duration
    requires '\n' !in artist && '\n' !in title && '\n' !in duration
    requires duration == "" || duration[|duration| - 1] != '\r'
    ensures Parse(Blanks(eols) + (artist + "|" + (title + "|" + duration) + EndText(end)), stod)
            == Track(artist, title, "default", ParseDuration(duration, stod))
  {
    var line := artist + "|" + (title + "|" + duration);
    ThreeFields(artist, title, duration, stod);
    assert line[|artist|] == '|';
    LineIsFound(eols, line, end);
  }

  /** END stops the search, and so does the end of the data: nothing behind blank lines is found. */
  lemma {:induction false} NothingIsFound(eols: seq<bool>, ended: bool, end: End, stod: Stod)
    ensures Parse(Blanks(eols) + if ended then "END" + EndText(end) else "", stod)
            == Track("Unknown", "Unknown", "default", 0.0)
  {
    var text := if ended then "END" + EndText(end) else "";
    if eols == [] {
      assert Blanks(eols) + text == text;
      if ended {
        EndIsRead(end);
      }
    } else {
      NothingIsFound(eols[1..], ended, end, stod);
      var tail := Blanks(eols[1..]) + text;
      Regrouped(Eol(eols[0]), Blanks(eols[1..]), text);
      if tail == "" {
        BlankAlone(eols[0]);
        assert Eol(eols[0]) + "" == Eol(eols[0]);
      } else {
        BlankIsSkipped(eols[0], tail);
      }
    }
  }

  lemma BlankAlone(crlf: bool)
    ensures ContentLine(Eol(crlf)) == None
  {
    var cr := if crlf then "\r" else "";
    assert Eol(crlf) == cr + ['\n'] + "";
    IndexOfCut(cr, '\n', "");
    assert StripCr(cr) == "";
  }

  lemma EndIsRead(end: End)
    ensures ContentLine("END" + EndText(end)) == None
  {
    match end
    case EndOfData =>
      assert "END" + "" == "END" && "END"[..3] == "END";
    case More(crlf, data) =>
      var cr := if crlf then "\r" else "";
      Regrouped("END", cr + ['\n'], data);
      Regrouped("END", cr, ['\n']);
      IndexOfCut("END" + cr, '\n', data);
      assert StripCr("END" + cr) == "END";
  }

  /** A line without bars is a title. */
  lemma BareLineIsTitle(eols: seq<bool>, line: string, end: End, stod: Stod)
    requires '\n' !in line && '|' !in line && line != "" && line != "END" && line[|line| - 1] != '\r'
    ensures Parse(Blanks(eols) + (line + EndText(end)), stod) == Track(UNKNOWN, line, "default", 0.0)
  {
    LineIsFound(eols, line, end);
  }
}
