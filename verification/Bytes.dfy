/** Octets, big-endian integers, and the two buffers of the wire format (section 4.2.5.1 of AMQP 0-9-1). */
module Bytes {
  import opened Wrappers

  type byte = b: int | 0 <= b < 256

  const UINT32 := 0x1_0000_0000
  const UINT64 := 0x1_0000_0000_0000_0000

  function Pow256(width: nat): nat {
    if width == 0 then 1 else 256 * Pow256(width - 1)
  }

  /** The low `width` octets of a number, the most significant one first. */
  function BigEndian(n: nat, width: nat): (octets: seq<byte>)
    ensures |octets| == width
  {
    if width == 0 then [] else BigEndian(n / 256, width - 1) + [n % 256]
  }

  function FromBigEndian(octets: seq<byte>): (n: nat)
    ensures n < Pow256(|octets|)
  {
    if octets == [] then 0
    else FromBigEndian(octets[..|octets| - 1]) * 256 + octets[|octets| - 1]
  }

  lemma {:induction false} NumberRoundTrip(n: nat, width: nat)
    requires n < Pow256(width)
    ensures FromBigEndian(BigEndian(n, width)) == n
  {
    if width > 0 {
      NumberRoundTrip(n / 256, width - 1);
      var octets := BigEndian(n, width);
      assert octets[..width - 1] == BigEndian(n / 256, width - 1);
    }
  }

  lemma {:induction false} OctetsRoundTrip(octets: seq<byte>)
    ensures BigEndian(FromBigEndian(octets), |octets|) == octets
    decreases |octets|
  {
    if octets != [] {
      var high, low := octets[..|octets| - 1], octets[|octets| - 1];
      OctetsRoundTrip(high);
      var n := FromBigEndian(octets);
      assert n == FromBigEndian(high) * 256 + low;
      assert n / 256 == FromBigEndian(high) && n % 256 == low;
    }
  }

  lemma DivideTwice(n: nat, b: nat)
    requires b >= 1
    ensures n / 256 / b == n / (256 * b)
  {
    var q := n / 256 / b;
    var low, rest := n % 256, (n / 256) % b;
    QuotientAndRest(n / 256, b);
    assert n == 256 * (b * q) + (256 * rest + low);
    Reassociated(b, q);
    DivisionIs(n, 256 * b, q, 256 * rest + low);
  }

  lemma QuotientAndRest(n: nat, d: nat)
    requires d >= 1
    ensures n == d * (n / d) + n % d
  {
  }

  lemma Reassociated(b: nat, q: nat)
    ensures 256 * b * q == 256 * (b * q)
  {
  }

  lemma AtLeastOnce(d: nat, e: int)
    requires e != 0
    ensures d * e >= d || d * e <= 0 - d
  {
    assert e >= 1 ==> d * (e - 1) >= 0;
    assert e <= -1 ==> d * (0 - 1 - e) >= 0;
  }

  lemma DivisionIs(n: nat, d: nat, q: nat, r: nat)
    requires r < d && n == d * q + r
    ensures n / d == q
  {
    var e := n / d - q;
    assert d * (n / d) - d * q == d * e;
    assert n == d * (n / d) + n % d;
    var distance := d * e;
    assert 0 - d < distance < d;
    if e != 0 {
      AtLeastOnce(d, e);
    }
  }

  /** Network byte order: the octets are the digits of the number to the base 256, the highest first. */
  lemma {:induction false} NetworkOrder(n: nat, width: nat, i: nat)
    requires i < width
    ensures Pow256(width - 1 - i) >= 1
    ensures BigEndian(n, width)[i] == n / Pow256(width - 1 - i) % 256
  {
    if i < width - 1 {
      NetworkOrder(n / 256, width - 1, i);
      DivideTwice(n, Pow256(width - 2 - i));
    }
  }

  lemma Widths()
    ensures Pow256(1) == 256 && Pow256(4) == UINT32 && Pow256(8) == UINT64
  {
    assert Pow256(2) == 65536;
    assert Pow256(3) == 256 * Pow256(2);
    assert Pow256(5) == 256 * Pow256(4);
    assert Pow256(6) == 256 * Pow256(5);
    assert Pow256(7) == 256 * Pow256(6);
  }

  // ---------------------------------------------------------------- reading

  /** A value that was read and the octets that are left; None where the buffer throws. */
  type Read<T> = Option<(T, seq<byte>)>

  function ReadData(octets: seq<byte>, size: nat): (r: Read<seq<byte>>)
    ensures r.Some? ==> |octets| == |r.value.0| + |r.value.1|
  {
    if |octets| < size then None else Some((octets[..size], octets[size..]))
  }

  function ReadNumber(octets: seq<byte>, width: nat): (r: Read<nat>)
    ensures r.Some? ==> |octets| == width + |r.value.1|
  {
    if |octets| < width then None else Some((FromBigEndian(octets[..width]), octets[width..]))
  }

  lemma ReadDataBack(data: seq<byte>, rest: seq<byte>)
    ensures ReadData(data + rest, |data|) == Some((data, rest))
  {
    assert (data + rest)[..|data|] == data && (data + rest)[|data|..] == rest;
  }

  lemma ReadNumberBack(n: nat, width: nat, rest: seq<byte>)
    requires n < Pow256(width)
    ensures ReadNumber(BigEndian(n, width) + rest, width) == Some((n, rest))
  {
    ReadDataBack(BigEndian(n, width), rest);
    NumberRoundTrip(n, width);
  }

  /** The output buffer: whatever is added is appended. */
  class OutBuffer {
    var data: seq<byte>

    constructor ()
      ensures data == []
    {
      data := [];
    }

    method AddData(octets: seq<byte>)
      modifies this
      ensures data == old(data) + octets
    {
      data := data + octets;
    }

    method AddNumber(n: nat, width: nat)
      modifies this
      ensures data == old(data) + BigEndian(n, width)
    {
      data := data + BigEndian(n, width);
    }
  }

  /** The input buffer: octets in front of `skip` have been processed. */
  class InBuffer {
    const data: seq<byte>
    var skip: nat

    ghost predicate Valid()
      reads this
    {
      skip <= |data|
    }

    function Left(): seq<byte>
      requires skip <= |data|
      reads this
    {
      data[skip..]
    }

    constructor (data: seq<byte>)
      ensures Valid() && Left() == data && this.data == data
    {
      this.data := data;
      skip := 0;
    }

    method NextData(size: nat) returns (octets: Option<seq<byte>>)
      requires Valid()
      modifies this`skip
      ensures Valid()
      ensures match ReadData(old(Left()), size)
              case None => octets == None && Left() == old(Left())
              case Some((read, rest)) => octets == Some(read) && Left() == rest
    {
      if |data| - skip < size { return None; }
      octets := Some(data[skip..skip + size]);
      assert data[skip..][..size] == data[skip..skip + size];
      skip := skip + size;
    }

    method NextNumber(width: nat) returns (n: Option<nat>)
      requires Valid()
      modifies this`skip
      ensures Valid()
      ensures match ReadNumber(old(Left()), width)
              case None => n == None && Left() == old(Left())
              case Some((read, rest)) => n == Some(read) && Left() == rest
    {
      var octets := NextData(width);
      return if octets.None? then None else Some(FromBigEndian(octets.value));
    }
  }
}
