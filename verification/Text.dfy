/** Character searches and line splitting, as the C and C++ string routines do them. */
module Text {
  import opened Sequences

  /** memchr, strchr: the first position of `c`, or the length of the text if there is none. */
  function IndexOf(s: string, c: char): (i: nat)
    ensures i <= |s| && (forall k :: 0 <= k < i ==> s[k] != c)
    ensures i < |s| ==> s[i] == c
  {
    if s == "" then 0
    else if s[0] == c then 0
    else IndexOf(s[1..], c) + 1
  }

  /** The search finds nothing inside a text without `c`, and stops right behind it. */
  lemma IndexOfSkips(a: string, c: char, rest: string)
    requires c !in a
    ensures IndexOf(a + rest, c) == |a| + IndexOf(rest, c)
  {
    if a == "" {
      assert a + rest == rest;
    } else {
      assert (a + rest)[1..] == a[1..] + rest;
      IndexOfSkips(a[1..], c, rest);
    }
  }

  lemma IndexOfPrefix(a: string, c: char, rest: string)
    requires c in a
    ensures IndexOf(a + rest, c) == IndexOf(a, c)
  {
    if a[0] != c {
      assert (a + rest)[1..] == a[1..] + rest;
      IndexOfPrefix(a[1..], c, rest);
    }
  }

  lemma IndexOfCut(a: string, c: char, rest: string)
    requires c !in a
    ensures IndexOf(a + [c] + rest, c) == |a|
    ensures (a + [c] + rest)[..|a|] == a && (a + [c] + rest)[|a| + 1..] == rest
  {
    assert a + [c] + rest == a + ([c] + rest);
    IndexOfSkips(a, c, [c] + rest);
  }

  /** rfind: the last position of `c`, or -1. */
  function LastIndexOf(s: string, c: char): (i: int)
    ensures -1 <= i < |s|
    ensures i >= 0 ==> s[i] == c
    ensures forall k :: i < k < |s| ==> s[k] != c
  {
    if s == "" then -1
    else if s[|s| - 1] == c then |s| - 1
    else LastIndexOf(s[..|s| - 1], c)
  }

  lemma {:induction false} LastIndexOfConcat(a: string, b: string, c: char)
    ensures LastIndexOf(a + b, c) == if c in b then |a| + LastIndexOf(b, c) else LastIndexOf(a, c)
    decreases |b|
  {
    if b == "" {
      assert a + b == a;
    } else {
      var last := b[|b| - 1];
      assert (a + b)[|a + b| - 1] == last;
      if last != c {
        assert (a + b)[..|a + b| - 1] == a + b[..|b| - 1];
        assert b == b[..|b| - 1] + [last];
        LastIndexOfConcat(a, b[..|b| - 1], c);
      }
    }
  }

  predicate Contains(s: string, part: string) {
    exists i {:trigger s[i..]} | 0 <= i <= |s| :: part <= s[i..]
  }

  function StripCr(line: string): string {
    if line != "" && line[|line| - 1] == '\r' then line[..|line| - 1] else line
  }

  /** The complete lines of a stream, each without its line feed and one carriage return. */
  function CompleteLines(stream: string): seq<string>
    decreases |stream|
  {
    var i := IndexOf(stream, '\n');
    if i == |stream| then [] else [StripCr(stream[..i])] + CompleteLines(stream[i + 1..])
  }

  predicate EndsLine(stream: string) {
    stream == "" || stream[|stream| - 1] == '\n'
  }

  /** A text that cannot end the line it is written on. */
  predicate OneLine(s: string) {
    '\n' !in s && '\r' !in s
  }

  /** Where the first line of a stream ends, whatever follows. */
  lemma FirstLine(a: string, i: nat, b: string)
    requires i < |a| && i == IndexOf(a, '\n')
    ensures CompleteLines(a + b) == [StripCr(a[..i])] + CompleteLines(a[i + 1..] + b)
  {
    IndexOfPrefix(a, '\n', b);
    CutBefore(a, i, b);
    hide IndexOf, StripCr;
  }

  lemma FirstLineAlone(a: string, i: nat)
    requires i < |a| && i == IndexOf(a, '\n')
    ensures CompleteLines(a) == [StripCr(a[..i])] + CompleteLines(a[i + 1..])
  {
  }

  lemma NoLines()
    ensures CompleteLines("") == []
  {
  }

  lemma EndsLineRest(a: string, i: nat)
    requires a != "" && EndsLine(a) && i == IndexOf(a, '\n')
    ensures i < |a| && EndsLine(a[i + 1..])
  {
    hide IndexOf;
    assert a[|a| - 1] == '\n';
  }

  /** Complete lines can be read in portions. */
  lemma {:induction false} LinesOfConcat(a: string, b: string)
    requires EndsLine(a)
    ensures CompleteLines(a + b) == CompleteLines(a) + CompleteLines(b)
    decreases |a|
  {
    hide CompleteLines, StripCr, IndexOf, EndsLine;
    if a == "" {
      NoLines();
      assert a + b == b;
    } else {
      var i := IndexOf(a, '\n');
      EndsLineRest(a, i);
      FirstLine(a, i, b);
      FirstLineAlone(a, i);
      LinesOfConcat(a[i + 1..], b);
      Regrouped([StripCr(a[..i])], CompleteLines(a[i + 1..]), CompleteLines(b));
    }
  }

  /** A line that is sent is read back. */
  lemma LineAlone(line: string)
    requires OneLine(line)
    ensures EndsLine(line + "\r\n") && CompleteLines(line + "\r\n") == [line]
  {
    var sent := line + "\r\n";
    assert sent == (line + "\r") + ['\n'] + "";
    IndexOfCut(line + "\r", '\n', "");
    assert sent[..|line| + 1] == line + "\r" && StripCr(line + "\r") == line;
    assert CompleteLines(sent) == [line] + CompleteLines("");
  }

  lemma EndsLineConcat(a: string, b: string)
    requires EndsLine(a) && EndsLine(b)
    ensures EndsLine(a + b)
  {
  }

  /** A line appended to complete lines is read back as one more line. */
  lemma LineAppended(stream: string, line: string)
    requires EndsLine(stream) && OneLine(line)
    ensures EndsLine(stream + (line + "\r\n"))
    ensures CompleteLines(stream + (line + "\r\n")) == CompleteLines(stream) + [line]
  {
    LinesOfConcat(stream, line + "\r\n");
    LineAlone(line);
  }
}
