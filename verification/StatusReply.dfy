/** Deciding from the reply to the status command whether the stream is playing. */
module StatusReply {
  import opened Text

  const FRAME := "\nEND"

  predicate IsPadding(c: char) {
    c == ' ' || c == '\t' || c == '\r' || c == '\n'
  }

  /** The position of the first occurrence of `part`, or the length of the text. */
  function Find(s: string, part: string): (i: nat)
    requires part != ""
    ensures i <= |s|
    ensures i < |s| ==> part <= s[i..]
    ensures forall k :: 0 <= k < i ==> !(part <= s[k..])
  {
    if s == "" || part <= s then 0
    else
      var i := Find(s[1..], part);
      assert forall k :: 1 <= k <= |s| ==> s[k..] == s[1..][k - 1..];
      i + 1
  }

  function TrimLeft(s: string): string {
    if s != "" && IsPadding(s[0]) then TrimLeft(s[1..]) else s
  }

  function TrimRight(s: string): string {
    if s != "" && IsPadding(s[|s| - 1]) then TrimRight(s[..|s| - 1]) else s
  }

  /** The text between its first and its last character that is not white space. */
  function Trim(s: string): string {
    TrimRight(TrimLeft(s))
  }

  predicate IsPlaying(response: string) {
    var body := response[..Find(response, FRAME)];
    var kept :=
      if |body| >= 3 && body[|body| - 3..] == "END" && |TrimLeft(body)| == 3 then "" else body;
    var word := Trim(kept);
    word != "" && (word == "on" || Contains(word, "playing"))
  }

  // ---------------------------------------------------------------- laws

  /** What the reply says, once nothing is around it. */
  predicate Says(text: string) {
    Trim(text) == "on" || Contains(Trim(text), "playing")
  }

  predicate Blank(s: string) {
    forall i :: 0 <= i < |s| ==> s[i] == ' ' || s[i] == '\t' || s[i] == '\r' || s[i] == '\n'
  }

  lemma {:induction false} TrimLeftSkips(w: string, s: string)
    requires Blank(w)
    ensures TrimLeft(w + s) == TrimLeft(s)
  {
    if w == "" {
      assert w + s == s;
    } else {
      assert (w + s)[1..] == w[1..] + s;
      TrimLeftSkips(w[1..], s);
    }
  }

  lemma {:induction false} TrimRightSkips(s: string, w: string)
    requires Blank(w)
    ensures TrimRight(s + w) == TrimRight(s)
    decreases |w|
  {
    if w == "" {
      assert s + w == s;
    } else {
      assert (s + w)[..|s + w| - 1] == s + w[..|w| - 1];
      TrimRightSkips(s, w[..|w| - 1]);
    }
  }

  lemma {:induction false} TrimLeftKeeps(s: string, w: string)
    ensures TrimLeft(s) != "" ==> TrimLeft(s + w) == TrimLeft(s) + w
    ensures TrimLeft(s) == "" <==> Blank(s)
    decreases |s|
  {
    if s != "" {
      if IsPadding(s[0]) {
        assert (s + w)[1..] == s[1..] + w;
        TrimLeftKeeps(s[1..], w);
        assert s == [s[0]] + s[1..];
      } else {
        assert s[0] in s;
      }
    }
  }

  lemma TrimIgnoresPadding(w1: string, s: string, w2: string)
    requires Blank(w1) && Blank(w2)
    ensures Trim(w1 + s + w2) == Trim(s)
  {
    assert w1 + s + w2 == w1 + (s + w2);
    TrimLeftSkips(w1, s + w2);
    TrimLeftKeeps(s, w2);
    if TrimLeft(s) == "" {
      TrimLeftSkips(s, w2);
      TrimLeftKeeps(w2, "");
      assert TrimLeft(s + w2) == "";
    } else {
      TrimRightSkips(TrimLeft(s), w2);
    }
  }

  lemma TrimFindsTheWord(w1: string, word: string, w2: string)
    requires Blank(w1) && Blank(w2)
    requires word != "" && !Blank(word[..1]) && !Blank(word[|word| - 1..])
    ensures Trim(w1 + word + w2) == word
  {
    TrimIgnoresPadding(w1, word, w2);
  }

  /** A reply that is nothing but END says nothing, so clearing it changes no answer. */
  lemma BareEndSaysNothing(body: string)
    requires |body| >= 3 && body[|body| - 3..] == "END" && |TrimLeft(body)| == 3
    ensures !Says(body)
  {
    TrimLeftIsSuffix(body);
    assert TrimLeft(body) == "END";
    assert Trim(body) == "END";
    assert |"playing"| == 7;
    assert forall i :: 0 <= i <= 3 ==> !("playing" <= "END"[i..]);
  }

  lemma {:induction false} TrimLeftIsSuffix(s: string)
    ensures |TrimLeft(s)| <= |s| && TrimLeft(s) == s[|s| - |TrimLeft(s)|..]
  {
    if s != "" && IsPadding(s[0]) {
      TrimLeftIsSuffix(s[1..]);
      assert s[1..][|s| - 1 - |TrimLeft(s)|..] == s[|s| - |TrimLeft(s)|..];
    }
  }

  lemma EmptySaysNothing(text: string)
    requires Trim(text) == ""
    ensures !Says(text)
  {
    assert forall i {:trigger ""[i..]} | 0 <= i <= |""| :: ""[i..] == "";
  }

  /** The answer depends only on what stands before the first END line. */
  lemma OnlyTheBodyCounts(response: string)
    ensures IsPlaying(response) <==> Says(response[..Find(response, FRAME)])
  {
    var body := response[..Find(response, FRAME)];
    if |body| >= 3 && body[|body| - 3..] == "END" && |TrimLeft(body)| == 3 {
      BareEndSaysNothing(body);
    }
    if Trim(body) == "" {
      EmptySaysNothing(body);
    }
  }

  lemma FindFrame(body: string, rest: string)
    requires Find(body, FRAME) == |body|
    ensures Find(body + FRAME + rest, FRAME) == |body|
  {
    var s := body + FRAME + rest;
    assert s == body + (FRAME + rest) && s[|body|..] == FRAME + rest;
    hide Find;
    forall k | 0 <= k < |body|
      ensures !(FRAME <= s[k..])
    {
      assert !(FRAME <= body[k..]);
      if k + 4 <= |body| {
        assert s[k..][..4] == body[k..][..4];
      } else {
        assert s[k..][|body| - k] == '\n' != FRAME[|body| - k];
      }
    }
  }

  /** Padding around the word, and whatever follows the END line, does not change the answer; an
      unframed reply is judged in the same way. */
  lemma FramingDoesNotMatter(w1: string, word: string, w2: string, rest: string)
    requires Blank(w1) && Blank(w2) && Find(w1 + word + w2, FRAME) == |w1 + word + w2|
    ensures IsPlaying(w1 + word + w2 + FRAME + rest) <==> Says(word)
    ensures IsPlaying(w1 + word + w2) <==> Says(word)
  {
    var body := w1 + word + w2;
    TrimIgnoresPadding(w1, word, w2);
    FindFrame(body, rest);
    OnlyTheBodyCounts(body + FRAME + rest);
    OnlyTheBodyCounts(body);
    assert (body + FRAME + rest)[..|body|] == body;
    assert body[..|body|] == body;
  }
}
