/** The echo message: a request and a response with the same sixteen fields, among them
    a vector of structs that hold vectors of strings. */
module EchoLayout {
  import opened Bytes
  import opened Encoding
  import opened PacketReader
  import opened PacketWriter

  type Text = seq<byte>

  datatype EchoStruct1 = EchoStruct1(a: int32, b: seq<Text>)

  datatype EchoStruct2 = EchoStruct2(b: EchoStruct1)

  // The fields of a message. Floats are bit patterns.
  datatype EchoBody = EchoBody(
    a: int64, b: int32, c: int64, d: uint32, e: seq<EchoStruct2>, f: uint32, g: uint8, h: Text,
    i: int8, j: uint64, k: int64, l: int32, m: EchoStruct1, n: uint64, o: int16, p: uint64)

  const MAX_VECTOR: nat := 0x7FFF_FFFF

  // The lengths of vectors fit an int32.
  predicate Sized1(x: EchoStruct1) {
    |x.b| <= MAX_VECTOR
  }

  predicate Sized(x: EchoBody) {
    |x.e| <= MAX_VECTOR && Sized1(x.m) && forall y <- x.e :: Sized1(y.b)
  }

  function StringsImage(ss: seq<Text>): seq<byte> {
    if ss == [] then [] else StringImage(ss[0]) + StringsImage(ss[1..])
  }

  function Struct1Image(x: EchoStruct1): seq<byte> {
    Varint(ZigZag(x.a)) + (Varint(Wrap(|x.b|, 4)) + StringsImage(x.b))
  }

  function StructsImage(xs: seq<EchoStruct2>): seq<byte> {
    if xs == [] then [] else Struct1Image(xs[0].b) + StructsImage(xs[1..])
  }

  function VectorImage(xs: seq<EchoStruct2>): seq<byte> {
    Varint(Wrap(|xs|, 4)) + StructsImage(xs)
  }

  // The bytes of a message body, four fields at a time.
  function Image1(x: EchoBody): seq<byte> {
    FixedInt(x.a, 8) + Varint(Wrap(x.b, 4)) + Varint(ZigZag(x.c)) + Varint(x.d)
  }

  function Image2(x: EchoBody): seq<byte> {
    VectorImage(x.e) + FixedInt(x.f, 4) + FixedInt(x.g, 1) + StringImage(x.h)
  }

  function Image3(x: EchoBody): seq<byte> {
    FixedInt(x.i, 1) + FixedInt(x.j, 8) + Varint(Wrap(x.k, 8)) + Varint(ZigZag(x.l))
  }

  function Image4(x: EchoBody): seq<byte> {
    Struct1Image(x.m) + Varint(x.n) + FixedInt(x.o, 2) + FixedInt(x.p, 8)
  }

  function BodyImage(x: EchoBody): seq<byte> {
    Image1(x) + Image2(x) + Image3(x) + Image4(x)
  }

  function ReadStrings(s: seq<byte>, count: nat): Parsed<seq<Text>>
    decreases count
  {
    if count == 0 then Parsed([], s)
    else
      var (first, s) :- ReadStringImage(s);
      var (more, s) :- ReadStrings(s, count - 1);
      Parsed([first] + more, s)
  }

  function ReadStruct1(s: seq<byte>): Parsed<EchoStruct1> {
    RadixValues();
    var (a, s) :- ReadSVarint(s, 4);
    var (length, s) :- ReadIVarint(s, 4);
    if length < 0 then Malformed
    else
      var (b, s) :- ReadStrings(s, length);
      Parsed(EchoStruct1(a, b), s)
  }

  function ReadStructs(s: seq<byte>, count: nat): Parsed<seq<EchoStruct2>>
    decreases count
  {
    if count == 0 then Parsed([], s)
    else match ReadStruct1(s)
      case Malformed => Malformed
      case Parsed(first, s') =>
        match ReadStructs(s', count - 1)
        case Malformed => Malformed
        case Parsed(more, s'') => Parsed([EchoStruct2(first)] + more, s'')
  }

  function ReadVector(s: seq<byte>): Parsed<seq<EchoStruct2>> {
    var (length, s) :- ReadIVarint(s, 4);
    if length < 0 then Malformed else ReadStructs(s, length)
  }

  function ReadPart1(s: seq<byte>): Parsed<(int64, int32, int64, uint32)> {
    RadixValues();
    var (a, s) :- ReadSigned(s, 8);
    var (b, s) :- ReadIVarint(s, 4);
    var (c, s) :- ReadSVarint(s, 8);
    var (d, s) :- ReadUVarint(s, 4);
    Parsed((a, b, c, d), s)
  }

  function ReadPart2(s: seq<byte>): Parsed<(seq<EchoStruct2>, uint32, uint8, Text)> {
    RadixValues();
    var (e, s) :- ReadVector(s);
    var (f, s) :- ReadFixed(s, 4);
    var (g, s) :- ReadFixed(s, 1);
    var (h, s) :- ReadStringImage(s);
    Parsed((e, f, g, h), s)
  }

  function ReadPart3(s: seq<byte>): Parsed<(int8, uint64, int64, int32)> {
    RadixValues();
    var (i, s) :- ReadSigned(s, 1);
    var (j, s) :- ReadFixed(s, 8);
    var (k, s) :- ReadIVarint(s, 8);
    var (l, s) :- ReadSVarint(s, 4);
    Parsed((i, j, k, l), s)
  }

  function ReadPart4(s: seq<byte>): Parsed<(EchoStruct1, uint64, int16, uint64)> {
    RadixValues();
    var (m, s) :- ReadStruct1(s);
    var (n, s) :- ReadUVarint(s, 8);
    var (o, s) :- ReadSigned(s, 2);
    var (p, s) :- ReadFixed(s, 8);
    Parsed((m, n, o, p), s)
  }

  function ReadBody(s: seq<byte>): Parsed<EchoBody> {
    var ((a, b, c, d), s) :- ReadPart1(s);
    var ((e, f, g, h), s) :- ReadPart2(s);
    var ((i, j, k, l), s) :- ReadPart3(s);
    var ((m, n, o, p), s) :- ReadPart4(s);
    Parsed(EchoBody(a, b, c, d, e, f, g, h, i, j, k, l, m, n, o, p), s)
  }

  // What survives the wire: every string loses its bytes past |s| mod 65536.
  function ClipStrings(ss: seq<Text>): (r: seq<Text>)
    ensures |r| == |ss|
  {
    if ss == [] then [] else [Clip(ss[0])] + ClipStrings(ss[1..])
  }

  function Clip1(x: EchoStruct1): EchoStruct1 {
    x.(b := ClipStrings(x.b))
  }

  function ClipStructs(xs: seq<EchoStruct2>): (r: seq<EchoStruct2>)
    ensures |r| == |xs|
  {
    if xs == [] then [] else [EchoStruct2(Clip1(xs[0].b))] + ClipStructs(xs[1..])
  }

  function ClipBody(x: EchoBody): EchoBody {
    x.(e := ClipStructs(x.e), h := Clip(x.h), m := Clip1(x.m))
  }

  predicate ShortStrings(ss: seq<Text>) {
    forall s <- ss :: |s| < 0x1_0000
  }

  predicate Short(x: EchoBody) {
    |x.h| < 0x1_0000 && ShortStrings(x.m.b) && forall y <- x.e :: ShortStrings(y.b.b)
  }

  lemma {:induction false} ReadOfStrings(ss: seq<Text>, t: seq<byte>)
    ensures ReadStrings(StringsImage(ss) + t, |ss|) == Parsed(ClipStrings(ss), t)
  {
    if ss == [] {
      assert [] + t == t;
    } else {
      StringRoundTrip(ss[0], StringsImage(ss[1..]) + t);
      Associative(StringImage(ss[0]), StringsImage(ss[1..]), t);
      ReadOfStrings(ss[1..], t);
    }
  }

  lemma ReadOfStruct1(x: EchoStruct1, t: seq<byte>)
    requires Sized1(x)
    ensures ReadStruct1(Struct1Image(x) + t) == Parsed(Clip1(x), t)
  {
    RadixValues();
    var length, strings := Varint(Wrap(|x.b|, 4)), StringsImage(x.b);
    SVarintRoundTrip(x.a, 4, length + (strings + t));
    IVarintRoundTrip(|x.b|, 4, strings + t);
    ReadOfStrings(x.b, t);
    Associative(Varint(ZigZag(x.a)), length + strings, t);
    Associative(length, strings, t);
  }

  lemma {:induction false} ReadOfStructs(xs: seq<EchoStruct2>, t: seq<byte>)
    requires forall y <- xs :: Sized1(y.b)
    ensures ReadStructs(StructsImage(xs) + t, |xs|) == Parsed(ClipStructs(xs), t)
  {
    if xs == [] {
      assert [] + t == t;
    } else {
      ReadOfStruct1(xs[0].b, StructsImage(xs[1..]) + t);
      Associative(Struct1Image(xs[0].b), StructsImage(xs[1..]), t);
      ReadOfStructs(xs[1..], t);
    }
  }

  lemma ReadOfVector(xs: seq<EchoStruct2>, t: seq<byte>)
    requires |xs| <= MAX_VECTOR && forall y <- xs :: Sized1(y.b)
    ensures ReadVector(VectorImage(xs) + t) == Parsed(ClipStructs(xs), t)
  {
    RadixValues();
    IVarintRoundTrip(|xs|, 4, StructsImage(xs) + t);
    ReadOfStructs(xs, t);
    Associative(Varint(Wrap(|xs|, 4)), StructsImage(xs), t);
  }

  lemma Associative4(a: seq<byte>, b: seq<byte>, c: seq<byte>, d: seq<byte>, t: seq<byte>)
    ensures a + b + c + d + t == a + (b + (c + (d + t)))
  {
  }

  lemma ReadOfPart1(x: EchoBody, t: seq<byte>)
    ensures ReadPart1(Image1(x) + t) == Parsed((x.a, x.b, x.c, x.d), t)
  {
    RadixValues();
    var a, b, c, d := FixedInt(x.a, 8), Varint(Wrap(x.b, 4)), Varint(ZigZag(x.c)), Varint(x.d);
    Associative4(a, b, c, d, t);
    SignedRoundTrip(x.a, 8, b + (c + (d + t)));
    IVarintRoundTrip(x.b, 4, c + (d + t));
    SVarintRoundTrip(x.c, 8, d + t);
    UVarintRoundTrip(x.d, 4, t);
  }

  lemma ReadOfPart2(x: EchoBody, t: seq<byte>)
    requires Sized(x)
    ensures ReadPart2(Image2(x) + t) == Parsed((ClipStructs(x.e), x.f, x.g, Clip(x.h)), t)
  {
    RadixValues();
    var e, f, g, h := VectorImage(x.e), FixedInt(x.f, 4), FixedInt(x.g, 1), StringImage(x.h);
    Associative4(e, f, g, h, t);
    ReadOfVector(x.e, f + (g + (h + t)));
    FixedRoundTrip(x.f, 4, g + (h + t));
    FixedRoundTrip(x.g, 1, h + t);
    StringRoundTrip(x.h, t);
  }

  lemma ReadOfPart3(x: EchoBody, t: seq<byte>)
    ensures ReadPart3(Image3(x) + t) == Parsed((x.i, x.j, x.k, x.l), t)
  {
    RadixValues();
    var i, j, k, l := FixedInt(x.i, 1), FixedInt(x.j, 8), Varint(Wrap(x.k, 8)), Varint(ZigZag(x.l));
    Associative4(i, j, k, l, t);
    SignedRoundTrip(x.i, 1, j + (k + (l + t)));
    FixedRoundTrip(x.j, 8, k + (l + t));
    IVarintRoundTrip(x.k, 8, l + t);
    SVarintRoundTrip(x.l, 4, t);
  }

  lemma ReadOfPart4(x: EchoBody, t: seq<byte>)
    requires Sized(x)
    ensures ReadPart4(Image4(x) + t) == Parsed((Clip1(x.m), x.n, x.o, x.p), t)
  {
    RadixValues();
    var m, n, o, p := Struct1Image(x.m), Varint(x.n), FixedInt(x.o, 2), FixedInt(x.p, 8);
    Associative4(m, n, o, p, t);
    ReadOfStruct1(x.m, n + (o + (p + t)));
    UVarintRoundTrip(x.n, 8, o + (p + t));
    SignedRoundTrip(x.o, 2, p + t);
    FixedRoundTrip(x.p, 8, t);
  }

  // Reading a packed body back, whatever bytes follow it: every field survives, strings
  // up to the 16 bits of their length, and the reader stops where the writer did.
  lemma ReadOfBody(x: EchoBody, t: seq<byte>)
    requires Sized(x)
    ensures ReadBody(BodyImage(x) + t) == Parsed(ClipBody(x), t)
  {
    hide Image1, Image2, Image3, Image4, ReadPart1, ReadPart2, ReadPart3, ReadPart4;
    Associative4(Image1(x), Image2(x), Image3(x), Image4(x), t);
    ReadOfPart1(x, Image2(x) + (Image3(x) + (Image4(x) + t)));
    ReadOfPart2(x, Image3(x) + (Image4(x) + t));
    ReadOfPart3(x, Image4(x) + t);
    ReadOfPart4(x, t);
  }

  lemma {:induction false} StringsFollowed(s: seq<byte>, count: nat, t: seq<byte>)
    ensures ReadStrings(s, count).Parsed? ==> ReadStrings(s + t, count) == ReadStrings(s, count).Followed(t)
    decreases count
  {
    hide ReadStringImage;
    if count > 0 && ReadStrings(s, count).Parsed? {
      StringFollowed(s, t);
      StringsFollowed(ReadStringImage(s).rest, count - 1, t);
    }
  }

  lemma Struct1Followed(s: seq<byte>, t: seq<byte>)
    ensures ReadStruct1(s).Parsed? ==> ReadStruct1(s + t) == ReadStruct1(s).Followed(t)
  {
    hide ReadSVarint, ReadIVarint, ReadStrings;
    if ReadStruct1(s).Parsed? {
      VarintsFollowed(s, 4, t);
      var s1 := ReadSVarint(s, 4).rest;
      VarintsFollowed(s1, 4, t);
      StringsFollowed(ReadIVarint(s1, 4).rest, ReadIVarint(s1, 4).value, t);
    }
  }

  lemma {:induction false} StructsFollowed(s: seq<byte>, count: nat, t: seq<byte>)
    ensures ReadStructs(s, count).Parsed? ==> ReadStructs(s + t, count) == ReadStructs(s, count).Followed(t)
    decreases count
  {
    hide ReadStruct1;
    if count > 0 && ReadStructs(s, count).Parsed? {
      Struct1Followed(s, t);
      StructsFollowed(ReadStruct1(s).rest, count - 1, t);
    }
  }

  lemma VectorFollowed(s: seq<byte>, t: seq<byte>)
    ensures ReadVector(s).Parsed? ==> ReadVector(s + t) == ReadVector(s).Followed(t)
  {
    hide ReadIVarint, ReadStructs;
    if ReadVector(s).Parsed? {
      VarintsFollowed(s, 4, t);
      StructsFollowed(ReadIVarint(s, 4).rest, ReadIVarint(s, 4).value, t);
    }
  }

  lemma Part1Followed(s: seq<byte>, t: seq<byte>)
    ensures ReadPart1(s).Parsed? ==> ReadPart1(s + t) == ReadPart1(s).Followed(t)
  {
    hide ReadSigned, ReadUVarint, ReadIVarint, ReadSVarint;
    if ReadPart1(s).Parsed? {
      FixedFollowed(s, 8, t);
      var s1 := ReadSigned(s, 8).rest;
      VarintsFollowed(s1, 4, t);
      var s2 := ReadIVarint(s1, 4).rest;
      VarintsFollowed(s2, 8, t);
      VarintsFollowed(ReadSVarint(s2, 8).rest, 4, t);
    }
  }

  lemma Part2Followed(s: seq<byte>, t: seq<byte>)
    ensures ReadPart2(s).Parsed? ==> ReadPart2(s + t) == ReadPart2(s).Followed(t)
  {
    hide ReadVector, ReadFixed, ReadStringImage;
    if ReadPart2(s).Parsed? {
      VectorFollowed(s, t);
      var s1 := ReadVector(s).rest;
      FixedFollowed(s1, 4, t);
      var s2 := ReadFixed(s1, 4).rest;
      FixedFollowed(s2, 1, t);
      StringFollowed(ReadFixed(s2, 1).rest, t);
    }
  }

  lemma Part3Followed(s: seq<byte>, t: seq<byte>)
    ensures ReadPart3(s).Parsed? ==> ReadPart3(s + t) == ReadPart3(s).Followed(t)
  {
    hide ReadSigned, ReadFixed, ReadIVarint, ReadSVarint;
    if ReadPart3(s).Parsed? {
      FixedFollowed(s, 1, t);
      var s1 := ReadSigned(s, 1).rest;
      FixedFollowed(s1, 8, t);
      var s2 := ReadFixed(s1, 8).rest;
      VarintsFollowed(s2, 8, t);
      VarintsFollowed(ReadIVarint(s2, 8).rest, 4, t);
    }
  }

  lemma Part4Followed(s: seq<byte>, t: seq<byte>)
    ensures ReadPart4(s).Parsed? ==> ReadPart4(s + t) == ReadPart4(s).Followed(t)
  {
    hide ReadStruct1, ReadUVarint, ReadSigned, ReadFixed;
    if ReadPart4(s).Parsed? {
      Struct1Followed(s, t);
      var s1 := ReadStruct1(s).rest;
      VarintsFollowed(s1, 8, t);
      var s2 := ReadUVarint(s1, 8).rest;
      FixedFollowed(s2, 2, t);
      FixedFollowed(ReadSigned(s2, 2).rest, 8, t);
    }
  }

  // A body that is read is read the same whatever bytes follow it, packed by this program
  // or not.
  lemma BodyFollowed(s: seq<byte>, t: seq<byte>)
    ensures ReadBody(s).Parsed? ==> ReadBody(s + t) == ReadBody(s).Followed(t)
  {
    hide ReadPart1, ReadPart2, ReadPart3, ReadPart4;
    if ReadBody(s).Parsed? {
      Part1Followed(s, t);
      var s1 := ReadPart1(s).rest;
      Part2Followed(s1, t);
      var s2 := ReadPart2(s1).rest;
      Part3Followed(s2, t);
      Part4Followed(ReadPart3(s2).rest, t);
    }
  }

  lemma {:induction false} ClipStringsKeeps(ss: seq<Text>)
    ensures ClipStrings(ss) == ss <==> ShortStrings(ss)
  {
    if ss != [] {
      ClipStringsKeeps(ss[1..]);
      StringRoundTrip(ss[0], []);
      assert ss == [ss[0]] + ss[1..];
    }
  }

  lemma {:induction false} ClipStructsKeeps(xs: seq<EchoStruct2>)
    ensures ClipStructs(xs) == xs <==> forall y <- xs :: ShortStrings(y.b.b)
  {
    if xs != [] {
      ClipStructsKeeps(xs[1..]);
      ClipStringsKeeps(xs[0].b.b);
      assert xs == [xs[0]] + xs[1..];
      assert ClipStructs(xs)[0].b.b == ClipStrings(xs[0].b.b);
      assert ClipStructs(xs)[1..] == ClipStructs(xs[1..]);
    }
  }

  lemma ClipBodyKeeps(x: EchoBody)
    ensures ClipBody(x) == x <==> Short(x)
  {
    ClipStructsKeeps(x.e);
    ClipStringsKeeps(x.m.b);
    StringRoundTrip(x.h, []);
    assert ClipBody(x) == x <==> ClipStructs(x.e) == x.e && Clip(x.h) == x.h && ClipStrings(x.m.b) == x.m.b;
  }

  // A message comes back unchanged exactly when each of its strings is under 65536 bytes.
  lemma BodyRoundTrip(x: EchoBody, t: seq<byte>)
    requires Sized(x)
    ensures ReadBody(BodyImage(x) + t) == Parsed(x, t) <==> Short(x)
  {
    hide BodyImage, ReadBody;
    ReadOfBody(x, t);
    ClipBodyKeeps(x);
  }
}

/** Packing and unpacking of the echo message over a shared buffer. */
module EchoMessage {
  import opened Bytes
  import opened Encoding
  import opened EchoLayout
  import opened Framing
  import opened Options
  import opened PacketReader
  import opened PacketWriter
  import opened Serialization

  method WriteStrings(state: SerializationState, ss: seq<Text>)
    requires state.Valid() && state.Room(|StringsImage(ss)|) && |ss| <= MAX_VECTOR
    modifies state`offset, state`log, state.buffer
    ensures state.Appended(StringsImage(ss))
  {
    ghost var done, before := [], state.log;
    for i := 0 to |ss|
      invariant done + StringsImage(ss[i..]) == StringsImage(ss)
      invariant state.Appended(done)
    {
      hide SerializationState.Valid;
      ghost var next := StringImage(ss[i]);
      assert StringsImage(ss[i..]) == next + StringsImage(ss[i + 1..]);
      Associative(done, next, StringsImage(ss[i + 1..]));
      Associative(before, done, next);
      WriteString(state, ss[i]);
      done := done + next;
    }
  }

  method WriteStruct1(state: SerializationState, x: EchoStruct1)
    requires state.Valid() && state.Room(|Struct1Image(x)|) && Sized1(x)
    modifies state`offset, state`log, state.buffer
    ensures state.Appended(Struct1Image(x))
  {
    hide SerializationState.Valid, StringsImage, Varint;
    RadixValues();
    WrapSmall(|x.b|, 4);
    WriteSVarint32(state, x.a);
    WriteVarint32(state, |x.b|);
    WriteStrings(state, x.b);
  }

  method WriteVector(state: SerializationState, xs: seq<EchoStruct2>)
    requires state.Valid() && state.Room(|VectorImage(xs)|)
    requires |xs| <= MAX_VECTOR && forall y <- xs :: Sized1(y.b)
    modifies state`offset, state`log, state.buffer
    ensures state.Appended(VectorImage(xs))
  {
    ghost var done, before := Varint(Wrap(|xs|, 4)), state.log;
    WriteVarint32(state, |xs|);
    for i := 0 to |xs|
      invariant done + StructsImage(xs[i..]) == VectorImage(xs)
      invariant state.Appended(done)
    {
      hide SerializationState.Valid, Struct1Image;
      ghost var next := Struct1Image(xs[i].b);
      assert StructsImage(xs[i..]) == next + StructsImage(xs[i + 1..]);
      Associative(done, next, StructsImage(xs[i + 1..]));
      Associative(before, done, next);
      WriteStruct1(state, xs[i].b);
      done := done + next;
    }
  }

  class EchoResponse {
    // The message id of the header.
    var msgId: uint16
    const state: SerializationState
    var a: int64
    var b: int32
    var c: int64
    var d: uint32
    var e: seq<EchoStruct2>
    var f: uint32
    var g: uint8
    var h: Text
    var i: int8
    var j: uint64
    var k: int64
    var l: int32
    var m: EchoStruct1
    var n: uint64
    var o: int16
    var p: uint64

    constructor (x: EchoBody)
      ensures msgId == 65535 && Body() == x && fresh(state)
    {
      state := new SerializationState();
      msgId := 65535;
      a, b, c, d, e, f, g, h := x.a, x.b, x.c, x.d, x.e, x.f, x.g, x.h;
      i, j, k, l, m, n, o, p := x.i, x.j, x.k, x.l, x.m, x.n, x.o, x.p;
    }

    function Body(): EchoBody
      reads this
    {
      EchoBody(a, b, c, d, e, f, g, h, i, j, k, l, m, n, o, p)
    }

    // Four fields at a time, to keep each proof small.
    method PackPart1()
      requires state.Valid() && state.Room(|Image1(Body())|)
      modifies state`offset, state`log, state.buffer
      ensures state.Appended(Image1(Body()))
    {
      hide SerializationState.Valid, FixedInt, Varint, ZigZag, Wrap;
      WriteInt64(state, a);
      WriteVarint32(state, b);
      WriteSVarint64(state, c);
      WriteUVarint32(state, d);
    }

    method PackPart2()
      requires state.Valid() && state.Room(|Image2(Body())|) && Sized(Body())
      modifies state`offset, state`log, state.buffer
      ensures state.Appended(Image2(Body()))
    {
      hide SerializationState.Valid, FixedInt, VectorImage, StringImage;
      WriteVector(state, e);
      WriteFloat32(state, f);
      WriteUInt8(state, g);
      WriteString(state, h);
    }

    method PackPart3()
      requires state.Valid() && state.Room(|Image3(Body())|)
      modifies state`offset, state`log, state.buffer
      ensures state.Appended(Image3(Body()))
    {
      hide SerializationState.Valid, FixedInt, Varint, ZigZag, Wrap;
      WriteInt8(state, i);
      WriteFloat64(state, j);
      WriteVarint64(state, k);
      WriteSVarint32(state, l);
    }

    method PackPart4()
      requires state.Valid() && state.Room(|Image4(Body())|) && Sized(Body())
      modifies state`offset, state`log, state.buffer
      ensures state.Appended(Image4(Body()))
    {
      hide SerializationState.Valid, FixedInt, Varint, Struct1Image;
      WriteStruct1(state, m);
      WriteUVarint64(state, n);
      WriteInt16(state, o);
      WriteUInt64(state, p);
    }

    method PackBody()
      requires state.Valid() && state.Room(|BodyImage(Body())|) && Sized(Body())
      modifies state`offset, state`log, state.buffer
      ensures state.Appended(BodyImage(Body()))
    {
      hide SerializationState.Valid, Image1, Image2, Image3, Image4;
      PackPart1();
      PackPart2();
      PackPart3();
      PackPart4();
    }

    method PackHeader()
      requires state.Valid() && state.Room(2)
      modifies state`offset, state`log, state.buffer
      ensures state.Appended(FixedInt(msgId, 2))
    {
      WriteUInt16(state, msgId);
    }

    // The header and the body, after room for the length.
    method PackMessage(final: array<byte>, offset: nat)
      requires Sized(Body())
      requires offset + LENGTH_SIZE + |MessageImage(msgId, Body())| <= final.Length
      modifies state, final
      ensures state.buffer == final && state.origin == offset
      ensures state.offset == LENGTH_SIZE + |MessageImage(msgId, Body())|
      ensures final[..] == Splice(old(final[..]), offset + LENGTH_SIZE, MessageImage(msgId, Body()))
    {
      hide FixedInt, BodyImage, SerializationState.Valid, Splice;
      state.buffer := final;
      state.origin := offset;
      state.offset := LENGTH_SIZE;
      state.Begin();
      PackHeader();
      PackBody();
      assert [] + FixedInt(msgId, 2) == FixedInt(msgId, 2);
      state.Written();
    }

    // The length prefix goes back to the front of the packet, cut to 16 bits.
    method PatchLength(length: int16, ghost message: seq<byte>)
      requires length == ReturnedLength(message)
      requires state.Room(0) && state.origin + LENGTH_SIZE <= state.buffer.Length
      modifies state, state.buffer
      ensures state.buffer == old(state.buffer)
      ensures state.buffer[..] == Splice(old(state.buffer[..]), old(state.origin), FixedInt(|message|, LENGTH_SIZE))
    {
      PrefixLength(message);
      hide FixedInt, ReturnedLength, Wrap, Signed, SerializationState.Valid, Splice;
      state.offset := 0;
      state.Begin();
      WriteInt16(state, Signed(Wrap(length - LENGTH_SIZE, 2), 2));
      assert [] + FixedInt(|message|, LENGTH_SIZE) == FixedInt(|message|, LENGTH_SIZE);
      state.Written();
    }

    // The packet: a length prefix, patched in last, before the message. What is returned
    // is the size of the packet as an int16.
    method Pack(final: array<byte>, offset: nat) returns (length: int16)
      requires Sized(Body())
      requires offset + LENGTH_SIZE + |MessageImage(msgId, Body())| <= final.Length
      modifies state, final
      ensures state.buffer == final
      ensures length == ReturnedLength(MessageImage(msgId, Body()))
      ensures final[..] == Splice(old(final[..]), offset, Framed(MessageImage(msgId, Body())))
    {
      ghost var image, message := final[..], MessageImage(msgId, Body());
      RadixValues();
      hide FixedInt, MessageImage, SerializationState.Valid, Splice, Radix;
      PackMessage(final, offset);
      length := Signed(Wrap(state.offset, 2), 2);
      PatchLength(length, message);
      SpliceBefore(image, offset, FixedInt(|message|, LENGTH_SIZE), message);
    }
  }

  // The header and body of a message.
  function MessageImage(msgId: uint16, x: EchoBody): seq<byte> {
    FixedInt(msgId, 2) + BodyImage(x)
  }

  // What Pack returns for a message: the packet size cut to 16 bits.
  function ReturnedLength(message: seq<byte>): int16 {
    RadixValues();
    Signed(Wrap(LENGTH_SIZE + |message|, 2), 2)
  }

  // Cutting the length to 16 bits twice on the way is cutting it once.
  lemma PrefixLength(message: seq<byte>)
    ensures -0x8000 <= Signed(Wrap(ReturnedLength(message) - LENGTH_SIZE, 2), 2) < 0x8000
    ensures FixedInt(Signed(Wrap(ReturnedLength(message) - LENGTH_SIZE, 2), 2), 2) == FixedInt(|message|, 2)
  {
    hide LittleEndian, Wrap, Signed;
    RadixValues();
    var n := LENGTH_SIZE + |message|;
    assert ReturnedLength(message) == Signed(Wrap(n, 2), 2);
    WrapOfSigned(n, -2, 2);
    SignedInRange(Wrap(|message|, 2), 2);
    WrapOfSigned(|message|, 0, 2);
  }

  // Part way through a vector: `done` read, `left` elements still to come from s.
  ghost predicate StringsLeft(whole: Parsed<seq<Text>>, done: seq<Text>, s: seq<byte>, left: nat) {
    var more := ReadStrings(s, left);
    more.Parsed? && whole == Parsed(done + more.value, more.rest)
  }

  lemma StringsStep(whole: Parsed<seq<Text>>, done: seq<Text>, s: seq<byte>, left: nat)
    requires StringsLeft(whole, done, s, left)
    ensures left == 0 ==> whole == Parsed(done, s)
    ensures left > 0 ==>
              var next := ReadStringImage(s);
              next.Parsed? && StringsLeft(whole, done + [next.value], next.rest, left - 1)
  {
    if left == 0 {
      assert done + [] == done;
    } else {
      var next := ReadStringImage(s);
      Associative(done, [next.value], ReadStrings(next.rest, left - 1).value);
    }
  }

  method ReadStringsFrom(state: SerializationState, count: nat) returns (ss: seq<Text>)
    requires state.Room(0) && ReadStrings(state.Ahead(), count).Parsed?
    modifies state`offset
    ensures state.Room(0) && ReadStrings(old(state.Ahead()), count) == Parsed(ss, state.Ahead())
  {
    hide ReadStrings, ReadStringImage, SerializationState.Ahead;
    ghost var whole := ReadStrings(state.Ahead(), count);
    ss := [];
    assert [] + whole.value == whole.value;
    assert StringsLeft(whole, ss, state.Ahead(), count);
    hide StringsLeft;
    for i := 0 to count
      invariant state.Room(0) && StringsLeft(whole, ss, state.Ahead(), count - i)
    {
      StringsStep(whole, ss, state.Ahead(), count - i);
      var s := ReadString(state);
      ss := ss + [s];
    }
    StringsStep(whole, ss, state.Ahead(), 0);
  }

  method ReadStruct1From(state: SerializationState) returns (x: EchoStruct1)
    requires state.Room(0) && ReadStruct1(state.Ahead()).Parsed?
    modifies state`offset
    ensures state.Room(0) && ReadStruct1(old(state.Ahead())) == Parsed(x, state.Ahead())
  {
    hide ReadSVarint, ReadIVarint, ReadStrings, SerializationState.Ahead;
    var a := ReadSVarint32(state);
    var length := ReadVarint32(state);
    var b := ReadStringsFrom(state, length);
    x := EchoStruct1(a, b);
  }

  ghost predicate StructsLeft(whole: Parsed<seq<EchoStruct2>>, done: seq<EchoStruct2>, s: seq<byte>, left: nat) {
    var more := ReadStructs(s, left);
    more.Parsed? && whole == Parsed(done + more.value, more.rest)
  }

  lemma StructsStep(whole: Parsed<seq<EchoStruct2>>, done: seq<EchoStruct2>, s: seq<byte>, left: nat)
    requires StructsLeft(whole, done, s, left)
    ensures left == 0 ==> whole == Parsed(done, s)
    ensures left > 0 ==>
              var next := ReadStruct1(s);
              next.Parsed? && StructsLeft(whole, done + [EchoStruct2(next.value)], next.rest, left - 1)
  {
    hide ReadStruct1;
    if left == 0 {
      assert done + [] == done;
    } else {
      var next := ReadStruct1(s);
      Associative(done, [EchoStruct2(next.value)], ReadStructs(next.rest, left - 1).value);
    }
  }

  method ReadVectorFrom(state: SerializationState) returns (xs: seq<EchoStruct2>)
    requires state.Room(0) && ReadVector(state.Ahead()).Parsed?
    modifies state`offset
    ensures state.Room(0) && ReadVector(old(state.Ahead())) == Parsed(xs, state.Ahead())
  {
    hide ReadStructs, ReadIVarint, ReadStruct1, SerializationState.Ahead;
    ghost var whole := ReadVector(state.Ahead());
    var length := ReadVarint32(state);
    xs := [];
    assert [] + whole.value == whole.value;
    assert StructsLeft(whole, xs, state.Ahead(), length);
    hide StructsLeft;
    for i := 0 to length
      invariant state.Room(0) && StructsLeft(whole, xs, state.Ahead(), length - i)
    {
      StructsStep(whole, xs, state.Ahead(), length - i);
      var x := ReadStruct1From(state);
      xs := xs + [EchoStruct2(x)];
    }
    StructsStep(whole, xs, state.Ahead(), 0);
  }

  class EchoRequest {
    // The message id of the header.
    var msgId: uint16
    const state: SerializationState
    var a: int64
    var b: int32
    var c: int64
    var d: uint32
    var e: seq<EchoStruct2>
    var f: uint32
    var g: uint8
    var h: Text
    var i: int8
    var j: uint64
    var k: int64
    var l: int32
    var m: EchoStruct1
    var n: uint64
    var o: int16
    var p: uint64

    constructor ()
      ensures fresh(state)
    {
      state := new SerializationState();
      msgId := 0;
      a, b, c, d, e, f, g, h := 0, 0, 0, 0, [], 0, 0, [];
      i, j, k, l, m, n, o, p := 0, 0, 0, 0, EchoStruct1(0, []), 0, 0, 0;
    }

    function Body(): EchoBody
      reads this
    {
      EchoBody(a, b, c, d, e, f, g, h, i, j, k, l, m, n, o, p)
    }

    // Four fields at a time, to keep each proof small.
    method UnpackPart1()
      requires state.Room(0) && ReadPart1(state.Ahead()).Parsed?
      modifies state`offset, this`a, this`b, this`c, this`d
      ensures state.Room(0) && ReadPart1(old(state.Ahead())) == Parsed((a, b, c, d), state.Ahead())
    {
      hide ReadSigned, ReadIVarint, ReadSVarint, ReadUVarint, SerializationState.Ahead;
      a := ReadInt64(state);
      b := ReadVarint32(state);
      c := ReadSVarint64(state);
      d := ReadUVarint32(state);
    }

    method UnpackPart2()
      requires state.Room(0) && ReadPart2(state.Ahead()).Parsed?
      modifies state`offset, this`e, this`f, this`g, this`h
      ensures state.Room(0) && ReadPart2(old(state.Ahead())) == Parsed((e, f, g, h), state.Ahead())
    {
      hide ReadVector, ReadFixed, ReadStringImage, SerializationState.Ahead;
      e := ReadVectorFrom(state);
      f := ReadFloat32(state);
      g := ReadUInt8(state);
      h := ReadString(state);
    }

    method UnpackPart3()
      requires state.Room(0) && ReadPart3(state.Ahead()).Parsed?
      modifies state`offset, this`i, this`j, this`k, this`l
      ensures state.Room(0) && ReadPart3(old(state.Ahead())) == Parsed((i, j, k, l), state.Ahead())
    {
      hide ReadSigned, ReadFixed, ReadIVarint, ReadSVarint, SerializationState.Ahead;
      i := ReadInt8(state);
      j := ReadFloat64(state);
      k := ReadVarint64(state);
      l := ReadSVarint32(state);
    }

    method UnpackPart4()
      requires state.Room(0) && ReadPart4(state.Ahead()).Parsed?
      modifies state`offset, this`m, this`n, this`o, this`p
      ensures state.Room(0) && ReadPart4(old(state.Ahead())) == Parsed((m, n, o, p), state.Ahead())
    {
      hide ReadStruct1, ReadUVarint, ReadSigned, ReadFixed, SerializationState.Ahead;
      m := ReadStruct1From(state);
      n := ReadUVarint64(state);
      o := ReadInt16(state);
      p := ReadUInt64(state);
    }

    method UnpackBody()
      requires state.Room(0) && ReadBody(state.Ahead()).Parsed?
      modifies state`offset, this
      ensures msgId == old(msgId)
      ensures state.Room(0) && ReadBody(old(state.Ahead())) == Parsed(Body(), state.Ahead())
    {
      hide ReadPart1, ReadPart2, ReadPart3, ReadPart4, SerializationState.Ahead;
      UnpackPart1();
      UnpackPart2();
      UnpackPart3();
      UnpackPart4();
    }

    method Unpack(final: array<byte>, offset: nat)
      requires offset <= final.Length && ReadBody(final[offset..]).Parsed?
      modifies state, this
      ensures msgId == old(msgId)
      ensures state.buffer == final && state.origin == offset && state.Room(0)
      ensures ReadBody(old(final[offset..])) == Parsed(Body(), state.Ahead())
    {
      hide ReadBody;
      state.buffer := final;
      state.origin := offset;
      state.offset := 0;
      assert state.Ahead() == final[offset..];
      UnpackBody();
    }
  }

  datatype Message = Message(msgId: uint16, body: EchoBody)

  function ReadMessage(s: seq<byte>): Parsed<Message> {
    RadixValues();
    var (msgId, s) :- ReadFixed(s, 2);
    var (body, s) :- ReadBody(s);
    Parsed(Message(msgId, body), s)
  }

  // The producer of requests: a message id, then the body of that message.
  method Produce(final: array<byte>, offset: nat) returns (request: EchoRequest)
    requires offset <= final.Length && ReadMessage(final[offset..]).Parsed?
    ensures fresh(request)
    ensures ReadMessage(final[offset..]).value == Message(request.msgId, request.Body())
  {
    RadixValues();
    assert final[offset..offset + 2] == final[offset..][..2] && final[offset..][2..] == final[offset + 2..];
    hide ReadBody;
    var msgId := Value(final[offset..offset + 2]);
    request := new EchoRequest();
    request.msgId := msgId;
    request.Unpack(final, offset + 2);
  }

  // The producer as the framer sees it: bytes in, a request out.
  function MakeMessage(s: seq<byte>): Option<Message> {
    var p := ReadMessage(s);
    if p.Parsed? then Some(p.value) else None
  }

  // A frame that holds a whole message makes one request, whatever follows it.
  lemma MessageFollowed(s: seq<byte>, t: seq<byte>)
    ensures ReadMessage(s).Parsed? ==> ReadMessage(s + t) == ReadMessage(s).Followed(t)
    ensures MakeMessage(s).Some? ==> MakeMessage(s + t) == MakeMessage(s)
  {
    hide ReadBody, ReadFixed;
    FixedFollowed(s, 2, t);
    if ReadMessage(s).Parsed? {
      BodyFollowed(ReadFixed(s, 2).rest, t);
    }
  }

  // One that does not is read past its end: an empty frame makes what the next bytes hold.
  lemma EmptyFrameReadsOn(msgId: uint16, x: EchoBody)
    requires Sized(x)
    ensures MakeMessage([]).None?
    ensures MakeMessage([] + MessageImage(msgId, x)) == Some(Message(msgId, ClipBody(x)))
  {
    hide ReadMessage, MessageImage, ClipBody, Sized;
    var image := MessageImage(msgId, x);
    ReadOfMessage(msgId, x, []);
    assert [] + image == image + [];
    NothingToRead();
  }

  lemma NothingToRead()
    ensures ReadMessage([]).Malformed?
  {
  }

  lemma ReadOfMessage(msgId: uint16, x: EchoBody, t: seq<byte>)
    requires Sized(x)
    ensures ReadMessage(MessageImage(msgId, x) + t) == Parsed(Message(msgId, ClipBody(x)), t)
  {
    RadixValues();
    hide BodyImage, ReadBody;
    Associative(FixedInt(msgId, 2), BodyImage(x), t);
    FixedRoundTrip(msgId, 2, BodyImage(x) + t);
    ReadOfBody(x, t);
  }
}
