/**
 The now-playing query from end to end: the command goes through the transport, and its reply through the
 parser.
 */
module MetadataQuery {
  import opened Wrappers
  import opened Text
  import opened Transport = LiquidsoapTransport
  import opened NowPlaying

  const COMMAND := "jax.nowplaying"

  /** What the query gives; None while the transport is still waiting. */
  function Metadata(outcome: Outcome, stod: Stod): Option<Result<Track, Errc>> {
    match outcome
    case Blocked => None
    case Failed(error) => Some(Err(error))
    case Reply(text) => Some(Ok(NowPlaying.Parse(text, stod)))
  }

  /** A reply with one line and the END line that closes it. */
  function Framed(line: string, crlf: bool, crlfEnd: bool): string {
    line + Eol(crlf) + "END" + Eol(crlfEnd)
  }

  predicate EndsInEnd(line: string) {
    |line| >= 3 && line[|line| - 3..] == "END"
  }

  predicate PlainLine(line: string) {
    '\n' !in line && (line == "" || line[|line| - 1] != '\r')
  }

  /** Where a terminator stands in a text, its line feed is the first one behind the line, or the last. */
  lemma LineFeeds(line: string, crlf: bool, crlfEnd: bool, k: nat)
    requires PlainLine(line) && k < |Framed(line, crlf, crlfEnd)|
    ensures var first := |line| + |Eol(crlf)| - 1;
            Framed(line, crlf, crlfEnd)[k] == '\n' <==> k == first || k == |Framed(line, crlf, crlfEnd)| - 1
  {
  }

  /** The characters in front of the first line feed. */
  lemma BehindTheLine(line: string, crlf: bool, crlfEnd: bool)
    requires PlainLine(line)
    ensures var reply, first := Framed(line, crlf, crlfEnd), |line| + |Eol(crlf)| - 1;
            && reply[..|line|] == line
            && (first > 0 ==> (reply[first - 1] == '\r' <==> crlf))
  {
  }

  /** The early prefixes: one of them is terminated if and only if the line itself ends in END. */
  lemma EarlyTerminator(line: string, crlf: bool, crlfEnd: bool, n: nat)
    requires PlainLine(line) && n < |Framed(line, crlf, crlfEnd)| && Terminated(Framed(line, crlf, crlfEnd)[..n])
    ensures EndsInEnd(line)
  {
    var reply, first := Framed(line, crlf, crlfEnd), |line| + |Eol(crlf)| - 1;
    BehindTheLine(line, crlf, crlfEnd);
    var i, feed := FindTerminator(reply[..n]);
    LineFeeds(line, crlf, crlfEnd, feed);
    hide Framed;
    assert feed == first && i + 3 == |line|;
    assert forall k :: 0 <= k < |line| ==> reply[k] == reply[..|line|][k] == line[k];
  }

  /** Where the terminator of a text starts, and where its line feed is. */
  lemma FindTerminator(s: string) returns (i: nat, feed: nat)
    requires Terminated(s)
    ensures i + 3 <= feed < |s| && s[i] == 'E' && s[i + 1] == 'N' && s[i + 2] == 'D' && s[feed] == '\n'
    ensures feed == i + 3 || (feed == i + 4 && s[i + 3] == '\r')
  {
    if Contains(s, "END\n") {
      var part := "END\n";
      i := Occurrence(s, part);
      feed := i + 3;
      assert s[i] == part[0] && s[i + 1] == part[1] && s[i + 2] == part[2] && s[feed] == part[3];
    } else {
      var part := "END\r\n";
      i := Occurrence(s, part);
      feed := i + 4;
      assert s[i] == part[0] && s[i + 1] == part[1] && s[i + 2] == part[2];
      assert s[i + 3] == part[3] && s[feed] == part[4];
    }
  }

  lemma Occurrence(s: string, part: string) returns (i: nat)
    requires Contains(s, part)
    ensures i + |part| <= |s| && forall k :: i <= k < i + |part| ==> s[k] == part[k - i]
  {
    i :| 0 <= i <= |s| && part <= s[i..];
    assert forall k :: i <= k < i + |part| ==> s[k] == s[i..][k - i] == part[k - i];
  }

  lemma OwnTerminator(line: string, crlf: bool, crlfEnd: bool)
    ensures Terminated(Framed(line, crlf, crlfEnd))
    ensures EndsInEnd(line) ==> Terminated(Framed(line, crlf, crlfEnd)[..|line| + |Eol(crlf)|])
  {
    var reply := Framed(line, crlf, crlfEnd);
    var i := |line| + |Eol(crlf)|;
    assert reply[i..] == "END" + Eol(crlfEnd);
    if EndsInEnd(line) {
      var start := reply[..i];
      assert start[|line| - 3..] == "END" + Eol(crlf);
    }
  }

  /** The query works for every fragmentation of the reply, if and only if the line has no NUL byte and does
      not end in END, and the reply is not too long: a line that ends in END can be taken for the end of the
      reply. */
  lemma FramedLine(line: string, crlf: bool, crlfEnd: bool)
    requires PlainLine(line)
    ensures var reply := Framed(line, crlf, crlfEnd);
            (forall recvs :: Carries(recvs, reply) ==> Receive("", recvs).outcome == Reply(reply))
            <==> NulFree(line) && !EndsInEnd(line) && |reply| <= MAX_RESPONSE_SIZE + 1
  {
    var reply := Framed(line, crlf, crlfEnd);
    OwnTerminator(line, crlf, crlfEnd);
    FragmentationIndependence(reply);
    assert NulFree(reply) <==> NulFree(line);
    if !EndsInEnd(line) {
      forall n | 0 <= n < |reply| ensures !Terminated(reply[..n]) {
        if Terminated(reply[..n]) {
          EarlyTerminator(line, crlf, crlfEnd, n);
        }
      }
    }
  }

  /** From the fields that the server writes to the track that the caller gets, through any fragmentation. */
  lemma QueryRoundTrip(artist: string, title: string, duration: string, crlf: bool, crlfEnd: bool,
                       recvs: seq<Recv>, stod: Stod)
    requires artist != "" && '|' !in artist && title != "" && '|' !in duration
    requires var line := artist + "|" + (title + "|" + duration);
             PlainLine(line) && NulFree(line) && !EndsInEnd(line)
             && |Framed(line, crlf, crlfEnd)| <= MAX_RESPONSE_SIZE + 1
             && Carries(recvs, Framed(line, crlf, crlfEnd))
    ensures Metadata(Receive("", recvs).outcome, stod)
            == Some(Ok(Track(artist, title, "default", ParseDuration(duration, stod))))
  {
    var line := artist + "|" + (title + "|" + duration);
    FramedLine(line, crlf, crlfEnd);
    var end := More(crlf, "END" + Eol(crlfEnd));
    FramedIsOneLine(line, crlf, crlfEnd);
    PartsArePlain(artist, title, duration);
    hide EndText, Eol, Blanks, NowPlaying.Parse, Receive, Carries;
    NowPlayingRoundTrip([], artist, title, duration, end, stod);
  }

  lemma FramedIsOneLine(line: string, crlf: bool, crlfEnd: bool)
    ensures Blanks([]) + (line + EndText(More(crlf, "END" + Eol(crlfEnd)))) == Framed(line, crlf, crlfEnd)
  {
  }

  lemma PartsArePlain(artist: string, title: string, duration: string)
    requires PlainLine(artist + "|" + (title + "|" + duration))
    ensures '\n' !in artist && '\n' !in title && '\n' !in duration
    ensures duration == "" || duration[|duration| - 1] != '\r'
  {
    var line := artist + "|" + (title + "|" + duration);
    assert forall i :: 0 <= i < |artist| ==> line[i] == artist[i];
    assert forall i :: 0 <= i < |title| ==> line[|artist| + 1 + i] == title[i];
    assert forall i :: 0 <= i < |duration| ==> line[|artist| + |title| + 2 + i] == duration[i];
  }

  /** The same for the whole query: with a connection, and once the command was sent, the track comes back. */
  lemma QueryReturns(l: Link, dial: Dial, recvs: seq<Recv>, cap: int, artist: string, title: string, duration: string,
                     crlf: bool, crlfEnd: bool, stod: Stod)
    requires l.fd != -1 || Reachable(dial)
    requires artist != "" && '|' !in artist && title != "" && '|' !in duration
    requires var line := artist + "|" + (title + "|" + duration);
             PlainLine(line) && NulFree(line) && !EndsInEnd(line)
             && |Framed(line, crlf, crlfEnd)| <= MAX_RESPONSE_SIZE + 1
             && Carries(recvs, Framed(line, crlf, crlfEnd))
    ensures var done := ExecuteStep(l, Call(COMMAND, dial, true, recvs), cap);
            Metadata(done.outcome, stod) == Some(Ok(Track(artist, title, "default", ParseDuration(duration, stod))))
  {
    ConnectSucceeds(l, dial, cap);
    QueryRoundTrip(artist, title, duration, crlf, crlfEnd, recvs, stod);
    hide Receive, Framed, PlainLine, EndsInEnd, Carries, ConnectStep;
  }

  /** The query gives an error exactly if its call fails, and the same one; it gives nothing exactly if the call still
      waits. */
  lemma QueryErrors(outcome: Outcome, stod: Stod, error: Errc)
    ensures Metadata(outcome, stod) == Some(Err(error)) <==> outcome == Failed(error)
    ensures Metadata(outcome, stod) == None <==> outcome == Blocked
  {
  }

  method GetMetadata(driver: LiquidsoapDriver, dial: Dial, sent: bool, recvs: seq<Recv>, stod: Stod)
    returns (metadata: Option<Result<Track, Errc>>)
    requires driver.Valid()
    modifies driver
    ensures driver.Valid()
    ensures var done := ExecuteStep(old(driver.View()), Call(COMMAND, dial, sent, recvs), driver.cap);
            driver.View() == done.link && driver.trace == old(driver.trace) + done.events
            && metadata == Metadata(done.outcome, stod)
  {
    var outcome := driver.Execute(Call(COMMAND, dial, sent, recvs));
    match outcome
    case Blocked => return None;
    case Failed(error) => return Some(Err(error));
    case Reply(text) =>
      var track := ParseNowPlaying(text, stod);
      return Some(Ok(track));
  }
}
