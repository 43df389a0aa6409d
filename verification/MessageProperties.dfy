/**
 The properties of a message (the content header of section 4.2.6.1 of AMQP 0-9-1) and the envelope
 that stores them together with a body. A property is present exactly if its flag is set.
 */
module MessageProperties {
  import opened Sequences
  import opened Wrappers
  import opened Bytes
  import Flags

  // ---------------------------------------------------------------- data

  datatype Property =
    | Expiration | ReplyTo | CorrelationID | Priority | DeliveryMode | Headers | ContentEncoding | ContentType
    | ClusterID | AppID | UserID | TypeName | Timestamp | MessageID

  datatype Form = ShortText | TableBlob | OneOctet | Instant

  /** A field table is an uninterpreted run of octets here. */
  datatype Value = Text(text: seq<byte>) | Table(blob: seq<byte>) | Octet(octet: byte) | Stamp(stamp: nat)

  datatype MetaData = MetaData(bools1: bv8, bools2: bv8, values: map<Property, Value>)

  function FormOf(p: Property): Form {
    match p
    case Headers => TableBlob
    case DeliveryMode => OneOctet
    case Priority => OneOctet
    case Timestamp => Instant
    case _ => ShortText
  }

  function Default(p: Property): Value {
    match FormOf(p)
    case ShortText => Text([])
    case TableBlob => Table([])
    case OneOctet => Octet(0)
    case Instant => Stamp(0)
  }

  /** What the C++ type of a field can hold. */
  predicate Fitting(p: Property, v: Value) {
    match FormOf(p)
    case ShortText => v.Text?
    case TableBlob => v.Table? && |v.blob| < UINT32
    case OneOctet => v.Octet?
    case Instant => v.Stamp? && v.stamp < UINT64
  }

  ghost predicate Typed(m: MetaData) {
    forall p: Property :: p in m.values && Fitting(p, m.values[p])
  }

  /** The octet that holds the flag of a property, and its bit. */
  predicate InSecond(p: Property) {
    p in {ClusterID, AppID, UserID, TypeName, Timestamp, MessageID}
  }

  function Bit(p: Property): (bit: nat)
    ensures bit <= 7
  {
    match p
    case Expiration => 0
    case ReplyTo => 1
    case CorrelationID => 2
    case Priority => 3
    case DeliveryMode => 4
    case Headers => 5
    case ContentEncoding => 6
    case ContentType => 7
    case ClusterID => 2
    case AppID => 3
    case UserID => 4
    case TypeName => 5
    case Timestamp => 6
    case MessageID => 7
  }

  predicate HasFlag(bools1: bv8, bools2: bv8, p: Property) {
    Flags.Get(if InSecond(p) then bools2 else bools1, Bit(p))
  }

  predicate Has(m: MetaData, p: Property) {
    HasFlag(m.bools1, m.bools2, p)
  }

  // ---------------------------------------------------------------- setting and removing

  function SetFlag(m: MetaData, p: Property, value: bool): MetaData {
    if InSecond(p) then m.(bools2 := Flags.Set(m.bools2, Bit(p), value))
    else m.(bools1 := Flags.Set(m.bools1, Bit(p), value))
  }

  datatype Change =
    | SetTo(p: Property, v: Value)
    | Remove(p: Property)
    | SetPersistent(on: bool)
    | CopyFrom(m: MetaData)

  function SetProperty(m: MetaData, p: Property, v: Value, present: bool): MetaData {
    SetFlag(m.(values := m.values[p := v]), p, present)
  }

  function Apply(m: MetaData, c: Change): MetaData {
    match c
    case SetTo(p, v) => SetProperty(m, p, v, true)
    case Remove(p) => SetProperty(m, p, Default(p), false)
    case SetPersistent(on) =>
      if on then SetProperty(m, DeliveryMode, Octet(2), true) else SetProperty(m, DeliveryMode, Octet(0), false)
    case CopyFrom(data) => data
  }

  function ApplyAll(m: MetaData, changes: seq<Change>): MetaData
    decreases |changes|
  {
    if changes == [] then m else ApplyAll(Apply(m, changes[0]), changes[1..])
  }

  function Blank(bools1: bv8, bools2: bv8): (m: MetaData)
    ensures Typed(m)
  {
    MetaData(bools1, bools2, map p: Property | true :: Default(p))
  }

  /** A property that is not present has the value it was born with. */
  ghost predicate Clean(m: MetaData) {
    Typed(m) && forall p: Property :: !Has(m, p) ==> m.values[p] == Default(p)
  }

  ghost predicate Allowed(c: Change) {
    match c
    case SetTo(p, v) => Fitting(p, v)
    case CopyFrom(data) => Clean(data)
    case _ => true
  }

  lemma BitsAreApart(p: Property, q: Property)
    ensures InSecond(p) == InSecond(q) && Bit(p) == Bit(q) ==> p == q
  {
    match p
    case Expiration => case ReplyTo => case CorrelationID => case Priority => case DeliveryMode =>
    case Headers => case ContentEncoding => case ContentType => case ClusterID => case AppID =>
    case UserID => case TypeName => case Timestamp => case MessageID =>
  }

  lemma FlagsAreApart(m: MetaData, p: Property, value: bool, q: Property)
    ensures Has(SetFlag(m, p, value), q) == if p == q then value else Has(m, q)
  {
    BitsAreApart(p, q);
    hide Flags.Get, Flags.Set, InSecond, Bit;
    Flags.GetAfterSet(m.bools1, Bit(p), value, Bit(q));
    Flags.GetAfterSet(m.bools2, Bit(p), value, Bit(q));
  }

  lemma SetPropertyFlags(m: MetaData, p: Property, v: Value, present: bool)
    ensures var after := SetProperty(m, p, v, present);
            && after.values == m.values[p := v]
            && forall q: Property :: Has(after, q) == if p == q then present else Has(m, q)
  {
    hide Flags.Get, Flags.Set;
    forall q: Property
      ensures Has(SetProperty(m, p, v, present), q) == if p == q then present else Has(m, q)
    {
      FlagsAreApart(m.(values := m.values[p := v]), p, present, q);
    }
  }

  /** Every change keeps the invariant, and changes the presence of its own property only. */
  lemma ApplyKeepsClean(m: MetaData, c: Change)
    requires Clean(m) && Allowed(c)
    ensures Clean(Apply(m, c))
    ensures c.CopyFrom? ==> Apply(m, c) == c.m
    ensures c.SetTo? ==> Apply(m, c).values == m.values[c.p := c.v]
    ensures c.Remove? ==> Apply(m, c).values == m.values[c.p := Default(c.p)]
    ensures c.SetTo? || c.Remove? ==>
              forall q: Property :: Has(Apply(m, c), q) == if q == c.p then c.SetTo? else Has(m, q)
  {
    hide Flags.Get, Flags.Set;
    if !c.CopyFrom? {
      var p := if c.SetPersistent? then DeliveryMode else c.p;
      var on := c.SetTo? || (c.SetPersistent? && c.on);
      SetPropertyFlags(m, p, if c.SetTo? then c.v else if on then Octet(2) else Default(p), on);
    }
  }

  /** persistent(): the delivery mode is there, and is two. */
  predicate Persistent(m: MetaData)
    requires Typed(m)
  {
    Has(m, DeliveryMode) && m.values[DeliveryMode] == Octet(2)
  }

  /** Switching persistence sets that property, with the value two, or removes it, and touches no other. */
  lemma PersistenceIsSet(m: MetaData, on: bool)
    requires Clean(m)
    ensures var after := Apply(m, SetPersistent(on));
            && Typed(after) && Persistent(after) == on && Has(after, DeliveryMode) == on
            && after.values[DeliveryMode] == Octet(if on then 2 else 0)
            && forall q: Property :: q != DeliveryMode ==>
                 Has(after, q) == Has(m, q) && after.values[q] == m.values[q]
  {
    hide Flags.Get, Flags.Set;
    SetPropertyFlags(m, DeliveryMode, Octet(if on then 2 else 0), on);
  }

  /** The flag invariant, over every sequence of setters, removers and copies. */
  lemma {:induction false} ChangesKeepClean(m: MetaData, changes: seq<Change>)
    requires Clean(m) && forall i :: 0 <= i < |changes| ==> Allowed(changes[i])
    ensures Clean(ApplyAll(m, changes))
    decreases |changes|
  {
    if changes != [] {
      ApplyKeepsClean(m, changes[0]);
      ChangesKeepClean(Apply(m, changes[0]), changes[1..]);
    }
  }

  lemma BlankIsClean()
    ensures Clean(Blank(0, 0)) && forall p: Property :: !Has(Blank(0, 0), p)
  {
  }

  // ---------------------------------------------------------------- the codec

  /** The order in which the fields are written and read. */
  function WireOrder(): seq<Property> {
    [ContentType, ContentEncoding, Headers, DeliveryMode, Priority, CorrelationID, ReplyTo, Expiration,
     MessageID, Timestamp, TypeName, UserID, AppID, ClusterID]
  }

  /** The order in which `size` adds them up. */
  function SizeOrder(): seq<Property> {
    [Expiration, ReplyTo, CorrelationID, Priority, DeliveryMode, Headers, ContentEncoding, ContentType,
     ClusterID, AppID, UserID, TypeName, Timestamp, MessageID]
  }

  /** The length octet of a short text is truncated, its content is not. */
  function FillValue(v: Value): seq<byte> {
    match v
    case Text(text) => BigEndian(|text| % 256, 1) + text
    case Table(blob) => BigEndian(|blob| % UINT32, 4) + blob
    case Octet(octet) => BigEndian(octet, 1)
    case Stamp(stamp) => BigEndian(stamp, 8)
  }

  function SizeOfValue(v: Value): nat {
    match v
    case Text(text) => 1 + |text|
    case Table(blob) => 4 + |blob|
    case Octet(_) => 1
    case Stamp(_) => 8
  }

  function ReadLengthAndData(octets: seq<byte>, width: nat): Read<seq<byte>> {
    match ReadNumber(octets, width)
    case None => None
    case Some((size, rest)) => ReadData(rest, size)
  }

  function ReadValue(octets: seq<byte>, form: Form): (r: Read<Value>)
    ensures r.Some? ==> |r.value.1| < |octets|
  {
    match form
    case ShortText =>
      (match ReadLengthAndData(octets, 1) case None => None case Some((text, rest)) => Some((Text(text), rest)))
    case TableBlob =>
      (match ReadLengthAndData(octets, 4) case None => None case Some((blob, rest)) => Some((Table(blob), rest)))
    case OneOctet =>
      (match ReadNumber(octets, 1)
       case None => None
       case Some((n, rest)) => Widths(); Some((Octet(n), rest)))
    case Instant =>
      (match ReadNumber(octets, 8) case None => None case Some((n, rest)) => Some((Stamp(n), rest)))
  }

  function FillFields(m: MetaData, ps: seq<Property>): seq<byte>
    requires forall p :: p in ps ==> p in m.values
  {
    if ps == [] then []
    else (if Has(m, ps[0]) then FillValue(m.values[ps[0]]) else []) + FillFields(m, ps[1..])
  }

  function Fill(m: MetaData): seq<byte>
    requires Typed(m)
  {
    Flags.OctetRoundTrip(m.bools1);
    Flags.OctetRoundTrip(m.bools2);
    [m.bools1 as int, m.bools2 as int] + FillFields(m, WireOrder())
  }

  /** Only the properties that were sent are read; the others keep the value they have. */
  function ReadFields(m: MetaData, ps: seq<Property>, octets: seq<byte>): (r: Read<MetaData>)
    ensures r.Some? ==> |r.value.1| <= |octets|
    decreases |ps|
  {
    if ps == [] then Some((m, octets))
    else if !Has(m, ps[0]) then ReadFields(m, ps[1..], octets)
    else match ReadValue(octets, FormOf(ps[0]))
      case None => None
      case Some((v, rest)) => ReadFields(m.(values := m.values[ps[0] := v]), ps[1..], rest)
  }

  function ReadMeta(octets: seq<byte>): (r: Read<MetaData>)
    ensures r.Some? ==> |r.value.1| <= |octets| - 2
  {
    if |octets| < 2 then None
    else ReadFields(Blank(octets[0] as bv8, octets[1] as bv8), WireOrder(), octets[2..])
  }

  function SumSizes(m: MetaData, ps: seq<Property>): nat
    requires forall p :: p in ps ==> p in m.values
  {
    if ps == [] then 0
    else (if Has(m, ps[0]) then SizeOfValue(m.values[ps[0]]) else 0) + SumSizes(m, ps[1..])
  }

  /** The declared size, a 32-bit number. */
  function Size(m: MetaData): nat
    requires Typed(m)
  {
    (2 + SumSizes(m, SizeOrder())) % UINT32
  }

  // ---------------------------------------------------------------- values

  predicate ShortEnough(v: Value) {
    v.Text? ==> |v.text| <= 255
  }

  /** A length in front of its data. */
  lemma SizedBack(data: seq<byte>, width: nat, rest: seq<byte>)
    requires |data| < Pow256(width)
    ensures ReadLengthAndData(BigEndian(|data|, width) + data + rest, width) == Some((data, rest))
  {
    ReadNumberBack(|data|, width, data + rest);
    ReadDataBack(data, rest);
    hide BigEndian, ReadNumber, ReadData;
    Regrouped(BigEndian(|data|, width), data, rest);
  }

  lemma ValueRoundTrip(p: Property, v: Value, rest: seq<byte>)
    requires Fitting(p, v) && ShortEnough(v)
    ensures ReadValue(FillValue(v) + rest, FormOf(p)) == Some((v, rest))
    ensures |FillValue(v)| == SizeOfValue(v)
  {
    Widths();
    hide BigEndian, ReadNumber, ReadLengthAndData;
    match v
    case Text(text) =>
      SizedBack(text, 1, rest);
    case Table(blob) =>
      SizedBack(blob, 4, rest);
    case Octet(octet) => ReadNumberBack(octet, 1, rest);
    case Stamp(stamp) => ReadNumberBack(stamp, 8, rest);
  }

  /** A text that is too long is misread: its length octet lies. */
  lemma LongTextIsMisread(text: seq<byte>, rest: seq<byte>)
    requires |text| > 255
    ensures match ReadValue(FillValue(Text(text)) + rest, ShortText)
            case None => true
            case Some((v, _)) => v.Text? && |v.text| == |text| % 256 < |text|
  {
    Widths();
    assert FillValue(Text(text)) + rest == BigEndian(|text| % 256, 1) + (text + rest);
    ReadNumberBack(|text| % 256, 1, text + rest);
  }

  // ---------------------------------------------------------------- the property list

  ghost predicate SameFlags(a: MetaData, b: MetaData) {
    a.bools1 == b.bools1 && a.bools2 == b.bools2
  }

  ghost predicate Short(m: MetaData, ps: seq<Property>)
    requires Typed(m)
  {
    forall i :: 0 <= i < |ps| && Has(m, ps[i]) ==> ShortEnough(m.values[ps[i]])
  }

  lemma {:induction false} FieldsRoundTrip(m: MetaData, start: MetaData, ps: seq<Property>, rest: seq<byte>)
    requires Typed(m) && Typed(start) && SameFlags(m, start) && Short(m, ps)
    ensures var r := ReadFields(start, ps, FillFields(m, ps) + rest);
            && r.Some? && r.value.1 == rest
            && Typed(r.value.0) && SameFlags(m, r.value.0)
            && forall p: Property ::
                 r.value.0.values[p] == if p in ps && Has(m, p) then m.values[p] else start.values[p]
    decreases |ps|
  {
    if ps == [] {
      assert [] + rest == rest;
    } else {
      var p, tail := ps[0], ps[1..];
      assert ps == [p] + tail;
      if Has(m, p) {
        var v := m.values[p];
        var next := start.(values := start.values[p := v]);
        assert FillFields(m, ps) + rest == FillValue(v) + (FillFields(m, tail) + rest);
        ValueRoundTrip(p, v, FillFields(m, tail) + rest);
        FieldsRoundTrip(m, next, tail, rest);
      } else {
        assert FillFields(m, ps) == FillFields(m, tail);
        FieldsRoundTrip(m, start, tail, rest);
      }
    }
  }

  /** Reading leaves every property outside the list alone, and every absent one. */
  lemma {:induction false} ReadFieldsKeeps(m: MetaData, ps: seq<Property>, octets: seq<byte>)
    requires Typed(m)
    ensures var r := ReadFields(m, ps, octets);
            r.Some? ==>
              && SameFlags(m, r.value.0) && Typed(r.value.0)
              && forall p: Property :: p !in ps || !Has(m, p) ==> r.value.0.values[p] == m.values[p]
    decreases |ps|
  {
    if ps != [] {
      assert ps == [ps[0]] + ps[1..];
      if Has(m, ps[0]) {
        var r := ReadValue(octets, FormOf(ps[0]));
        if r.Some? {
          ReadValueFits(octets, ps[0]);
          ReadFieldsKeeps(m.(values := m.values[ps[0] := r.value.0]), ps[1..], r.value.1);
        }
      } else {
        ReadFieldsKeeps(m, ps[1..], octets);
      }
    }
  }

  lemma ReadValueFits(octets: seq<byte>, p: Property)
    ensures var r := ReadValue(octets, FormOf(p)); r.Some? ==> Fitting(p, r.value.0)
  {
    Widths();
  }

  lemma {:induction false} LongFieldIsMisread(m: MetaData, start: MetaData, ps: seq<Property>, rest: seq<byte>)
    requires Typed(m) && Typed(start) && SameFlags(m, start) && !Short(m, ps)
    requires forall i, j :: 0 <= i < j < |ps| ==> ps[i] != ps[j]
    ensures var r := ReadFields(start, ps, FillFields(m, ps) + rest);
            r.Some? ==> r.value.0.values != m.values
    decreases |ps|
  {
    hide Flags.Get, WireOrder, SizeOrder;
    var p, tail := ps[0], ps[1..];
    assert ps == [p] + tail;
    if !Has(m, p) {
      assert FillFields(m, ps) == FillFields(m, tail);
      LongFieldIsMisread(m, start, tail, rest);
    } else {
      var v := m.values[p];
      Regrouped(FillValue(v), FillFields(m, tail), rest);
      hide ReadValue, FillValue;
      if ShortEnough(v) {
        ValueRoundTrip(p, v, FillFields(m, tail) + rest);
        LongFieldIsMisread(m, start.(values := start.values[p := v]), tail, rest);
      } else {
        FirstIsMisread(start, p, v, tail, FillFields(m, tail) + rest);
      }
    }
  }

  lemma FirstIsMisread(start: MetaData, p: Property, v: Value, tail: seq<Property>, more: seq<byte>)
    requires Typed(start) && Has(start, p) && Fitting(p, v) && !ShortEnough(v) && p !in tail
    ensures var r := ReadFields(start, [p] + tail, FillValue(v) + more);
            r.Some? ==> p in r.value.0.values && r.value.0.values[p] != v
  {
    hide Flags.Get, WireOrder, SizeOrder;
    LongTextIsMisread(v.text, more);
    var octets := FillValue(v) + more;
    var r := ReadValue(octets, FormOf(p));
    assert ([p] + tail)[1..] == tail;
    if r.Some? {
      ReadValueFits(octets, p);
      ReadFieldsKeeps(start.(values := start.values[p := r.value.0]), tail, r.value.1);
    }
  }

  lemma WireOrderIsComplete()
    ensures forall p: Property :: p in WireOrder()
    ensures forall i, j :: 0 <= i < j < |WireOrder()| ==> WireOrder()[i] != WireOrder()[j]
  {
    forall p: Property ensures p in WireOrder() {
      match p
      case ContentType => assert p == WireOrder()[0];
      case ContentEncoding => assert p == WireOrder()[1];
      case Headers => assert p == WireOrder()[2];
      case DeliveryMode => assert p == WireOrder()[3];
      case Priority => assert p == WireOrder()[4];
      case CorrelationID => assert p == WireOrder()[5];
      case ReplyTo => assert p == WireOrder()[6];
      case Expiration => assert p == WireOrder()[7];
      case MessageID => assert p == WireOrder()[8];
      case Timestamp => assert p == WireOrder()[9];
      case TypeName => assert p == WireOrder()[10];
      case UserID => assert p == WireOrder()[11];
      case AppID => assert p == WireOrder()[12];
      case ClusterID => assert p == WireOrder()[13];
    }
  }

  lemma SizeOrderIsComplete()
    ensures forall p: Property :: p in SizeOrder()
    ensures forall i, j :: 0 <= i < j < |SizeOrder()| ==> SizeOrder()[i] != SizeOrder()[j]
  {
    forall p: Property ensures p in SizeOrder() {
      match p
      case Expiration => assert p == SizeOrder()[0];
      case ReplyTo => assert p == SizeOrder()[1];
      case CorrelationID => assert p == SizeOrder()[2];
      case Priority => assert p == SizeOrder()[3];
      case DeliveryMode => assert p == SizeOrder()[4];
      case Headers => assert p == SizeOrder()[5];
      case ContentEncoding => assert p == SizeOrder()[6];
      case ContentType => assert p == SizeOrder()[7];
      case ClusterID => assert p == SizeOrder()[8];
      case AppID => assert p == SizeOrder()[9];
      case UserID => assert p == SizeOrder()[10];
      case TypeName => assert p == SizeOrder()[11];
      case Timestamp => assert p == SizeOrder()[12];
      case MessageID => assert p == SizeOrder()[13];
    }
  }

  /** What each field takes on the wire: an octet for the delivery mode and the priority, eight for the
      timestamp, a table behind four octets of length, and short strings behind one; an empty field is empty. */
  lemma FieldWidths(p: Property, v: Value)
    requires Fitting(p, v)
    ensures |FillValue(v)| ==
            match p
            case DeliveryMode => 1
            case Priority => 1
            case Timestamp => 8
            case Headers => 4 + |v.blob|
            case _ => 1 + |v.text|
    ensures v == Default(p) ==> forall i :: 0 <= i < |FillValue(v)| ==> FillValue(v)[i] == 0
  {
    if v == Default(p) {
      Zeros(1);
      Zeros(4);
      Zeros(8);
    }
  }

  lemma {:induction false} Zeros(width: nat)
    ensures forall i :: 0 <= i < width ==> BigEndian(0, width)[i] == 0
  {
    if width > 0 {
      Zeros(width - 1);
    }
  }

  /** The bit of a property in the sixteen-bit flag word of the protocol. */
  function WordBit(p: Property): nat {
    if InSecond(p) then Bit(p) else 8 + Bit(p)
  }

  /** The fields follow one another from the high bits of the flag word to the low ones: the i-th field has
      the bit 15 - i, and the two lowest bits belong to none. */
  lemma FieldsDescend()
    ensures |WireOrder()| == 14
    ensures forall i :: 0 <= i < |WireOrder()| ==> WordBit(WireOrder()[i]) == 15 - i
    ensures forall p: Property :: WordBit(p) >= 2
  {
  }

  /** The codec gives back the metadata and the rest of the buffer exactly when no short text is longer than
      255 octets and no absent property has a value. */
  lemma MetaDataRoundTrip(m: MetaData, rest: seq<byte>)
    requires Typed(m)
    ensures ReadMeta(Fill(m) + rest) == Some((m, rest)) <==> Clean(m) && Short(m, WireOrder())
    ensures var r := ReadMeta(Fill(m) + rest);
            r.Some? && r.value.0 == m ==> Clean(m) && Short(m, WireOrder())
  {
    hide Flags.Get, WireOrder, SizeOrder;
    var blank := Blank(m.bools1, m.bools2);
    FillStartsWithFlags(m, rest);
    WireOrderIsComplete();
    if Short(m, WireOrder()) {
      FieldsRoundTrip(m, blank, WireOrder(), rest);
      var r := ReadFields(blank, WireOrder(), FillFields(m, WireOrder()) + rest).value.0;
      assert r == m <==> forall p: Property :: r.values[p] == m.values[p];
      assert forall p: Property :: r.values[p] == if Has(m, p) then m.values[p] else Default(p);
    } else {
      LongFieldIsMisread(m, blank, WireOrder(), rest);
    }
  }

  lemma FillStartsWithFlags(m: MetaData, rest: seq<byte>)
    requires Typed(m)
    ensures ReadMeta(Fill(m) + rest)
            == ReadFields(Blank(m.bools1, m.bools2), WireOrder(), FillFields(m, WireOrder()) + rest)
  {
    hide Flags.Get, WireOrder, SizeOrder;
    Flags.OctetRoundTrip(m.bools1);
    Flags.OctetRoundTrip(m.bools2);
    var octets := Fill(m) + rest;
    assert octets[0] == m.bools1 as int && octets[1] == m.bools2 as int;
    assert octets[2..] == FillFields(m, WireOrder()) + rest;
  }

  /** Metadata that was built by changing a fresh object is read back exactly when its short texts are short. */
  lemma BuiltMetaDataRoundTrip(changes: seq<Change>, rest: seq<byte>)
    requires forall i :: 0 <= i < |changes| ==> Allowed(changes[i])
    ensures var m := ApplyAll(Blank(0, 0), changes);
            Clean(m) && (ReadMeta(Fill(m) + rest) == Some((m, rest)) <==> Short(m, WireOrder()))
  {
    hide Flags.Get, WireOrder, SizeOrder;
    BlankIsClean();
    ChangesKeepClean(Blank(0, 0), changes);
    MetaDataRoundTrip(ApplyAll(Blank(0, 0), changes), rest);
  }

  // ---------------------------------------------------------------- sizes

  lemma ValueSize(v: Value)
    ensures |FillValue(v)| == SizeOfValue(v)
  {
  }

  lemma {:induction false} FieldsSize(m: MetaData, ps: seq<Property>)
    requires forall p :: p in ps ==> p in m.values
    ensures |FillFields(m, ps)| == SumSizes(m, ps)
  {
    hide Flags.Get, WireOrder, SizeOrder;
    if ps != [] {
      ValueSize(m.values[ps[0]]);
      FieldsSize(m, ps[1..]);
    }
  }

  lemma {:induction false} SumAround(m: MetaData, a: seq<Property>, p: Property, b: seq<Property>)
    requires forall q: Property :: q in m.values
    ensures SumSizes(m, a + [p] + b) == SumSizes(m, [p] + (a + b))
  {
    hide Flags.Get, WireOrder, SizeOrder;
    if a == [] {
      assert a + [p] + b == [p] + (a + b);
    } else {
      SumAround(m, a[1..], p, b);
      assert (a + [p] + b)[1..] == a[1..] + [p] + b;
      assert (a + b)[1..] == a[1..] + b;
      assert ([p] + (a + b))[1..] == a + b;
      assert ([p] + (a[1..] + b))[1..] == a[1..] + b;
    }
  }

  /** The order of the summands does not matter. */
  lemma {:induction false} SumOfPermutation(m: MetaData, a: seq<Property>, b: seq<Property>)
    requires forall q: Property :: q in m.values
    requires multiset(a) == multiset(b)
    ensures SumSizes(m, a) == SumSizes(m, b)
  {
    hide Flags.Get, WireOrder, SizeOrder;
    if a == [] {
      assert |multiset(b)| == |b|;
    } else {
      var p := a[0];
      assert p in multiset(b);
      var i :| 0 <= i < |b| && b[i] == p;
      var before, after := b[..i], b[i + 1..];
      TakenOut(a, b, i);
      SumAround(m, before, p, after);
      SumOfPermutation(m, a[1..], before + after);
      SumFirst(m, a);
      SumFirst(m, [p] + (before + after));
      assert ([p] + (before + after))[1..] == before + after;
    }
  }

  lemma SumFirst(m: MetaData, ps: seq<Property>)
    requires ps != [] && forall q: Property :: q in m.values
    ensures SumSizes(m, ps) == (if Has(m, ps[0]) then SizeOfValue(m.values[ps[0]]) else 0) + SumSizes(m, ps[1..])
  {
  }

  lemma TakenOut(a: seq<Property>, b: seq<Property>, i: nat)
    requires a != [] && i < |b| && b[i] == a[0] && multiset(a) == multiset(b)
    ensures b == b[..i] + [a[0]] + b[i + 1..]
    ensures multiset(a[1..]) == multiset(b[..i] + b[i + 1..])
  {
    var before, after := b[..i], b[i + 1..];
    assert b == before + [a[0]] + after;
    assert multiset(b) == multiset(before) + multiset{a[0]} + multiset(after);
    assert a == [a[0]] + a[1..];
    assert multiset(a) == multiset{a[0]} + multiset(a[1..]);
    assert multiset(before + after) == multiset(before) + multiset(after);
    assert multiset(a[1..]) == multiset(a) - multiset{a[0]};
    assert multiset(before + after) == multiset(b) - multiset{a[0]};
  }

  lemma {:induction false} DistinctCounts(ps: seq<Property>, q: Property)
    requires forall i, j :: 0 <= i < j < |ps| ==> ps[i] != ps[j]
    ensures multiset(ps)[q] == if q in ps then 1 else 0
  {
    if ps != [] {
      assert ps == [ps[0]] + ps[1..];
      DistinctCounts(ps[1..], q);
    }
  }

  lemma OrdersArePermutations()
    ensures multiset(SizeOrder()) == multiset(WireOrder())
  {
    hide WireOrder, SizeOrder;
    WireOrderIsComplete();
    SizeOrderIsComplete();
    forall q: Property
      ensures multiset(SizeOrder())[q] == multiset(WireOrder())[q]
    {
      DistinctCounts(SizeOrder(), q);
      DistinctCounts(WireOrder(), q);
    }
  }

  /** `size` is the number of octets that `fill` writes, as a 32-bit number. */
  lemma SizeIsWritten(m: MetaData)
    requires Typed(m)
    ensures Size(m) == |Fill(m)| % UINT32
  {
    hide Flags.Get, WireOrder, SizeOrder;
    FieldsSize(m, WireOrder());
    OrdersArePermutations();
    SumOfPermutation(m, SizeOrder(), WireOrder());
  }

  // ---------------------------------------------------------------- envelopes

  datatype Envelope = Envelope(meta: MetaData, body: seq<byte>)

  ghost predicate Storable(e: Envelope) {
    Typed(e.meta) && |e.body| < UINT64
  }

  function FillEnvelope(e: Envelope): (octets: seq<byte>)
    requires Storable(e)
    ensures |octets| >= 10
  {
    Fill(e.meta) + (BigEndian(|e.body|, 8) + e.body)
  }

  function ReadEnvelope(octets: seq<byte>): (r: Read<Envelope>)
    ensures r.Some? ==> |r.value.1| < |octets|
  {
    match ReadMeta(octets)
    case None => None
    case Some((meta, rest)) =>
      match ReadLengthAndData(rest, 8)
      case None => None
      case Some((body, left)) => Some((Envelope(meta, body), left))
  }

  function EnvelopeSize(e: Envelope): nat
    requires Storable(e)
  {
    Size(e.meta) + |e.body| + 8
  }

  /** Reading an envelope gives back the envelope and exactly what follows it, if and only if its metadata
      can be stored. */
  lemma EnvelopeRoundTrip(e: Envelope, rest: seq<byte>)
    requires Storable(e)
    ensures ReadEnvelope(FillEnvelope(e) + rest) == Some((e, rest)) <==> Clean(e.meta) && Short(e.meta, WireOrder())
  {
    hide Flags.Get, WireOrder, SizeOrder;
    var size := BigEndian(|e.body|, 8);
    var tail := size + e.body + rest;
    MetaDataRoundTrip(e.meta, tail);
    Widths();
    SizedBack(e.body, 8, rest);
    hide Clean, Short, Fill, ReadMeta, BigEndian, ReadLengthAndData;
    Regrouped(Fill(e.meta), size + e.body, rest);
  }

  lemma EnvelopeSizeIsWritten(e: Envelope)
    requires Storable(e)
    ensures EnvelopeSize(e) == |FillEnvelope(e)| <==> |Fill(e.meta)| < UINT32
  {
    hide Flags.Get, WireOrder, SizeOrder;
    SizeIsWritten(e.meta);
  }

  function FillStream(es: seq<Envelope>): seq<byte>
    requires forall i :: 0 <= i < |es| ==> Storable(es[i])
  {
    if es == [] then [] else FillEnvelope(es[0]) + FillStream(es[1..])
  }

  function ReadStream(octets: seq<byte>): Option<seq<Envelope>>
    decreases |octets|
  {
    if octets == [] then Some([])
    else match ReadEnvelope(octets)
      case None => None
      case Some((e, rest)) =>
        match ReadStream(rest)
        case None => None
        case Some(es) => Some([e] + es)
  }

  /** Any concatenation of storable envelopes decodes to the original list. */
  lemma {:induction false} StreamRoundTrip(es: seq<Envelope>)
    requires forall i :: 0 <= i < |es| ==> Storable(es[i]) && Clean(es[i].meta) && Short(es[i].meta, WireOrder())
    ensures ReadStream(FillStream(es)) == Some(es)
  {
    hide Flags.Get, WireOrder, SizeOrder, Clean, Short, Storable, FillEnvelope, ReadEnvelope;
    if es != [] {
      EnvelopeRoundTrip(es[0], FillStream(es[1..]));
      StreamRoundTrip(es[1..]);
      assert es == [es[0]] + es[1..];
    }
  }

  lemma FillStarts(m: MetaData, written: seq<byte>)
    requires Typed(m)
    ensures 0 <= m.bools1 as int < 256 && 0 <= m.bools2 as int < 256
    ensures written + [m.bools1 as int] + [m.bools2 as int] + FillFields(m, WireOrder()[0..]) == written + Fill(m)
  {
    hide Flags.Get, WireOrder, SizeOrder;
    Flags.OctetRoundTrip(m.bools1);
    Flags.OctetRoundTrip(m.bools2);
    assert WireOrder()[0..] == WireOrder();
  }

  lemma FillEnds(m: MetaData, ps: seq<Property>)
    requires forall q: Property :: q in m.values
    ensures FillFields(m, ps[|ps|..]) == []
  {
  }

  lemma FillFrom(m: MetaData, ps: seq<Property>, k: nat, written: seq<byte>)
    requires k < |ps| && forall q: Property :: q in m.values
    ensures written + FillFields(m, ps[k..])
            == (if Has(m, ps[k]) then written + FillValue(m.values[ps[k]]) else written) + FillFields(m, ps[k + 1..])
  {
    hide Flags.Get;
    assert ps[k..][1..] == ps[k + 1..];
  }

  // ---------------------------------------------------------------- the object

  /** The metadata object of a message. The fourteen fields are one map here, and the fourteen conditional
      statements with which the source fills and reads them are one loop over the same list. */
  class Header {
    var bools1: bv8
    var bools2: bv8
    var values: map<Property, Value>

    ghost predicate Valid()
      reads this
    {
      Typed(View())
    }

    function View(): MetaData
      reads this
    {
      MetaData(bools1, bools2, values)
    }

    constructor ()
      ensures Valid() && View() == Blank(0, 0)
    {
      bools1, bools2 := 0, 0;
      values := Blank(0, 0).values;
    }

    method SetField(p: Property, v: Value)
      requires Valid() && Fitting(p, v)
      modifies this
      ensures Valid() && View() == Apply(old(View()), SetTo(p, v))
    {
      values := values[p := v];
      MarkField(p, true);
    }

    method MarkField(p: Property, present: bool)
      modifies this`bools1, this`bools2
      ensures View() == SetFlag(old(View()), p, present)
    {
      if InSecond(p) {
        bools2 := Flags.Set(bools2, Bit(p), present);
      } else {
        bools1 := Flags.Set(bools1, Bit(p), present);
      }
    }

    method RemoveField(p: Property)
      requires Valid()
      modifies this
      ensures Valid() && View() == Apply(old(View()), Remove(p))
    {
      values := values[p := Default(p)];
      MarkField(p, false);
    }

    method MakePersistent(on: bool)
      requires Valid()
      modifies this
      ensures Valid() && View() == Apply(old(View()), SetPersistent(on))
    {
      if on {
        SetField(DeliveryMode, Octet(2));
      } else {
        values := values[DeliveryMode := Octet(0)];
        MarkField(DeliveryMode, false);
      }
    }

    method Assign(that: Header)
      requires that.Valid()
      modifies this
      ensures Valid() && View() == Apply(old(View()), CopyFrom(old(that.View())))
    {
      bools1, bools2, values := that.bools1, that.bools2, that.values;
    }

    method FillBuffer(out: OutBuffer)
      requires Valid()
      modifies out
      ensures out.data == old(out.data) + Fill(View())
    {
      hide Flags.Get, WireOrder, SizeOrder;
      Flags.OctetRoundTrip(bools1);
      Flags.OctetRoundTrip(bools2);
      out.AddData([bools1 as int]);
      out.AddData([bools2 as int]);
      ghost var total := old(out.data) + Fill(View());
      var order := WireOrder();
      FillStarts(View(), old(out.data));
      FillEnds(View(), order);
      hide Fill, FillFields, FillValue, Has;
      for k := 0 to |order|
        invariant unchanged(this) && order == WireOrder()
        invariant out.data + FillFields(View(), order[k..]) == total
      {
        FillFrom(View(), order, k, out.data);
        if Has(View(), order[k]) {
          out.AddData(FillValue(values[order[k]]));
        }
      }
    }

    /** The reading constructor, on a new object. The result is false where the buffer throws. */
    method ReadBuffer(buffer: InBuffer) returns (complete: bool)
      requires buffer.Valid() && View() == Blank(0, 0)
      modifies this, buffer`skip
      ensures buffer.Valid()
      ensures match ReadMeta(old(buffer.Left()))
              case None => !complete
              case Some((m, rest)) => complete && View() == m && buffer.Left() == rest
    {
      hide Flags.Get, WireOrder, SizeOrder;
      var first := buffer.NextData(1);
      if first.None? { return false; }
      var second := buffer.NextData(1);
      if second.None? { return false; }
      bools1, bools2 := first.value[0] as bv8, second.value[0] as bv8;
      assert buffer.Left() == old(buffer.Left())[2..];
      for k := 0 to |WireOrder()|
        invariant buffer.Valid()
        invariant ReadMeta(old(buffer.Left())) == ReadFields(View(), WireOrder()[k..], buffer.Left())
      {
        var p := WireOrder()[k];
        assert WireOrder()[k..][1..] == WireOrder()[k + 1..];
        if Has(View(), p) {
          var v := ReadField(buffer, FormOf(p));
          if v.None? { return false; }
          values := values[p := v.value];
        }
      }
      return true;
    }

    method ReadField(buffer: InBuffer, form: Form) returns (v: Option<Value>)
      requires buffer.Valid()
      modifies buffer`skip
      ensures buffer.Valid()
      ensures match ReadValue(old(buffer.Left()), form)
              case None => v == None
              case Some((read, rest)) => v == Some(read) && buffer.Left() == rest
    {
      Widths();
      match form {
        case OneOctet =>
          var n := buffer.NextNumber(1);
          return if n.None? then None else Some(Octet(n.value));
        case Instant =>
          var n := buffer.NextNumber(8);
          return if n.None? then None else Some(Stamp(n.value));
        case ShortText =>
          var data := ReadSized(buffer, 1);
          return if data.None? then None else Some(Text(data.value));
        case TableBlob =>
          var data := ReadSized(buffer, 4);
          return if data.None? then None else Some(Table(data.value));
      }
    }

    method ReadSized(buffer: InBuffer, width: nat) returns (data: Option<seq<byte>>)
      requires buffer.Valid()
      modifies buffer`skip
      ensures buffer.Valid()
      ensures match ReadLengthAndData(old(buffer.Left()), width)
              case None => data == None
              case Some((read, rest)) => data == Some(read) && buffer.Left() == rest
    {
      var size := buffer.NextNumber(width);
      if size.None? { return None; }
      data := buffer.NextData(size.value);
    }
  }
}
