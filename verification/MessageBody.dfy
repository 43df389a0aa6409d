/**
 Reassembling a message body from the body frames of section 4.2.6.2 of AMQP 0-9-1. A body that arrives
 in one frame is not copied: the message then points into the buffer of the frame.
 */
module MessageBody {
  import opened Numbers
  import opened Wrappers
  import opened Bytes

  // ---------------------------------------------------------------- the steps

  /** `owned` is the allocated memory, `borrowed` the frame that the body points to instead. */
  datatype Body = Body(size: nat, owned: Option<seq<byte>>, borrowed: Option<seq<byte>>, filled: nat)

  predicate Valid(b: Body) {
    && b.filled <= b.size
    && (b.owned.Some? ==> |b.owned.value| == b.size)
    && (b.owned.None? ==> b.filled == 0)
    && (b.borrowed.Some? ==> |b.borrowed.value| >= b.size)
  }

  /** Appending a frame. `memory` is whatever malloc returns, should memory be allocated. The result says
      whether the message counts as complete. */
  function Append(b: Body, frame: seq<byte>, memory: seq<byte>): (r: (Body, bool))
    requires Valid(b) && |memory| == b.size
    ensures Valid(r.0) && r.0.size == b.size
  {
    var next :=
      if b.owned.Some? then
        var n := Min(|frame|, b.size - b.filled);
        b.(owned := Some(b.owned.value[..b.filled] + frame[..n] + b.owned.value[b.filled + n..]),
           filled := b.filled + n)
      else if |frame| >= b.size then b.(borrowed := Some(frame))
      else b.(owned := Some(frame + memory[|frame|..]), borrowed := None, filled := |frame|);
    (next, next.filled >= next.size)
  }

  /** The first `size` octets at the body pointer. */
  function Content(b: Body): seq<byte>
    requires Valid(b)
  {
    if b.owned.Some? then b.owned.value
    else if b.borrowed.Some? then b.borrowed.value[..b.size]
    else []
  }

  function Fresh(size: nat): (b: Body)
    ensures Valid(b)
  {
    Body(size, None, None, 0)
  }

  function Concat(frames: seq<seq<byte>>): seq<byte> {
    if frames == [] then [] else frames[0] + Concat(frames[1..])
  }

  /** All frames in order, with the result of the last append. */
  function AppendAll(b: Body, frames: seq<seq<byte>>, memory: seq<byte>): (r: (Body, bool))
    requires Valid(b) && |memory| == b.size
    ensures Valid(r.0) && r.0.size == b.size
    decreases |frames|
  {
    if frames == [] then (b, b.filled >= b.size)
    else AppendAll(Append(b, frames[0], memory).0, frames[1..], memory)
  }

  // ---------------------------------------------------------------- reassembly

  /** On the copying path: what was filled is a prefix of what arrived, cut off at the size. */
  lemma {:induction false} CopyingPath(b: Body, frames: seq<seq<byte>>, memory: seq<byte>, got: seq<byte>)
    requires Valid(b) && |memory| == b.size && b.owned.Some?
    requires b.filled == Min(|got|, b.size) && b.owned.value[..b.filled] == got[..b.filled]
    ensures var (after, complete) := AppendAll(b, frames, memory);
            var all := got + Concat(frames);
            && after.owned.Some? && after.filled == Min(|all|, b.size)
            && after.owned.value[..after.filled] == all[..after.filled]
            && (complete <==> |all| >= b.size)
    decreases |frames|
  {
    if frames == [] {
      assert got + [] == got;
    } else {
      var next := Append(b, frames[0], memory).0;
      var n := Min(|frames[0]|, b.size - b.filled);
      assert next.owned.value[..next.filled] == got[..b.filled] + frames[0][..n];
      assert (got + frames[0])[..next.filled] == got[..b.filled] + frames[0][..n];
      CopyingPath(next, frames[1..], memory, got + frames[0]);
      assert got + frames[0] + Concat(frames[1..]) == got + Concat(frames);
    }
  }

  /** A body that starts with a partial frame: at every moment the message holds what has arrived, and it
      says so exactly when it is complete. Surplus octets are dropped. */
  lemma CopiedBody(size: nat, frames: seq<seq<byte>>, memory: seq<byte>)
    requires |memory| == size && frames != [] && |frames[0]| < size
    ensures var (after, complete) := AppendAll(Fresh(size), frames, memory);
            && after.filled == Min(|Concat(frames)|, size)
            && Content(after)[..after.filled] == Concat(frames)[..after.filled]
            && (complete <==> |Concat(frames)| >= size)
  {
    var first := Append(Fresh(size), frames[0], memory).0;
    assert first.owned.value[..first.filled] == frames[0][..first.filled];
    CopyingPath(first, frames[1..], memory, frames[0]);
  }

  /** A body in one frame is complete at once, but unless it is empty the result does not say so. */
  lemma BorrowedBody(size: nat, frame: seq<byte>, memory: seq<byte>)
    requires |memory| == size && |frame| >= size
    ensures var (after, complete) := Append(Fresh(size), frame, memory);
            Content(after) == frame[..size] && (complete <==> size == 0)
  {
  }

  lemma {:induction false} OnlyEmptyFrames(b: Body, frames: seq<seq<byte>>, memory: seq<byte>)
    requires Valid(b) && |memory| == b.size && b.owned.Some? && Concat(frames) == []
    ensures AppendAll(b, frames, memory).0.owned == b.owned
    decreases |frames|
  {
    if frames != [] {
      assert |frames[0]| + |Concat(frames[1..])| == 0;
      assert b.owned.value[..b.filled] + [] + b.owned.value[b.filled..] == b.owned.value;
      OnlyEmptyFrames(Append(b, frames[0], memory).0, frames[1..], memory);
    }
  }

  function Filled(size: nat, octet: byte): seq<byte> {
    seq(size, _ => octet)
  }

  /** Body reassembly, exactly: a body that is cut into frames is put together again, whatever malloc
      returns, if and only if no empty frame follows a frame that held the whole body. */
  lemma Reassembly(body: seq<byte>, frames: seq<seq<byte>>)
    requires frames != [] && Concat(frames) == body
    ensures (forall memory :: |memory| == |body| ==>
               Content(AppendAll(Fresh(|body|), frames, memory).0) == body)
            <==> |frames| == 1 || |frames[0]| < |body| || body == []
  {
    var n := |body|;
    if |frames[0]| < n {
      forall memory: seq<byte> | |memory| == n
        ensures Content(AppendAll(Fresh(n), frames, memory).0) == body
      {
        CopiedBody(n, frames, memory);
      }
    } else if |frames| == 1 {
      assert frames[1..] == [] && frames[0] == body;
      forall memory: seq<byte> | |memory| == n
        ensures Content(AppendAll(Fresh(n), frames, memory).0) == body
      {
        BorrowedBody(n, body, memory);
        assert AppendAll(Fresh(n), frames, memory).0 == Append(Fresh(n), body, memory).0;
      }
    } else if n > 0 {
      EmptyFrameForgets(body, frames, Filled(n, if body[0] == 0 then 1 else 0));
    }
  }

  lemma EmptyFrameForgets(body: seq<byte>, frames: seq<seq<byte>>, memory: seq<byte>)
    requires |frames| > 1 && Concat(frames) == body && |frames[0]| >= |body| > 0 && |memory| == |body|
    ensures Content(AppendAll(Fresh(|body|), frames, memory).0) == memory
  {
    var rest := frames[1..];
    assert |frames[0]| + |Concat(rest)| == |body|;
    assert |rest[0]| + |Concat(rest[1..])| == 0;
    var one := Append(Fresh(|body|), frames[0], memory).0;
    var two := Append(one, rest[0], memory).0;
    assert [] + memory[0..] == memory;
    OnlyEmptyFrames(two, rest[1..], memory);
  }

  // ---------------------------------------------------------------- the object

  /** The body part of a message. `sizeMax` is the largest value of the platform's size type. */
  class Message {
    const sizeMax: nat
    var bodySize: nat
    var body: array?<byte>
    var mutableBody: array?<byte>
    var filled: nat

    ghost function View(): Body
      reads this, body, mutableBody
    {
      Body(bodySize,
           if mutableBody == null then None else Some(mutableBody[..]),
           if mutableBody != null || body == null then None else Some(body[..]),
           filled)
    }

    ghost predicate Consistent()
      reads this, body, mutableBody
    {
      Valid(View()) && (mutableBody != null ==> body == mutableBody)
    }

    constructor (sizeMax: nat)
      ensures Consistent() && View() == Fresh(0) && this.sizeMax == sizeMax && mutableBody == null
    {
      this.sizeMax := sizeMax;
      bodySize, filled, body, mutableBody := 0, 0, null, null;
    }

    /** Called once, with the content header; false where the size does not fit the platform. */
    method SetBodySize(size: nat) returns (fits: bool)
      requires View() == Fresh(bodySize)
      modifies this`bodySize
      ensures fits == (size <= sizeMax)
      ensures View() == Fresh(if fits then size else old(bodySize))
    {
      if sizeMax < size { return false; }
      bodySize := size;
      return true;
    }

    /** Appends the octets of a frame; the frame is an array of its own. */
    method AppendFrame(frame: array<byte>) returns (complete: bool)
      requires Consistent() && frame != mutableBody
      modifies this, mutableBody
      ensures Consistent() && bodySize == old(bodySize) && frame[..] == old(frame[..])
      ensures old(mutableBody) != null ==> mutableBody == old(mutableBody)
      ensures mutableBody != null ==> mutableBody == old(mutableBody) || fresh(mutableBody)
      ensures exists memory ::
                |memory| == bodySize && (View(), complete) == Append(old(View()), old(frame[..]), memory)
    {
      ghost var memory := seq(bodySize, _ => 0);
      if mutableBody != null {
        var n := Min(frame.Length, bodySize - filled);
        forall i | 0 <= i < n {
          mutableBody[filled + i] := frame[i];
        }
        assert mutableBody[..] == old(mutableBody[..])[..filled] + frame[..n] + old(mutableBody[..])[filled + n..];
        assert frame[..n] == old(frame[..])[..n];
        filled := filled + n;
        assert (View(), filled >= bodySize) == Append(old(View()), old(frame[..]), memory);
      } else if frame.Length >= bodySize {
        body := frame;
        assert (View(), filled >= bodySize) == Append(old(View()), old(frame[..]), memory);
      } else {
        mutableBody := new byte[bodySize];
        memory := mutableBody[..];
        body := mutableBody;
        filled := Min(frame.Length, bodySize);
        forall i | 0 <= i < filled {
          mutableBody[i] := frame[i];
        }
        assert mutableBody[..] == old(frame[..]) + memory[frame.Length..];
        assert (View(), filled >= bodySize) == Append(old(View()), old(frame[..]), memory);
      }
      return filled >= bodySize;
    }
  }
}
