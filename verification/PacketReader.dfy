/** The readers of a packet: each takes one value at the offset and moves past it. The
    functions say what is read; a reader is called only where a value stands. */
module PacketReader {
  import opened Bytes
  import opened Encoding
  import opened PacketWriter
  import opened Serialization

  function ReadFixed(s: seq<byte>, width: nat): (p: Parsed<nat>)
    ensures p.Parsed? ==> p.value < Radix(width)
  {
    if |s| < width then Malformed else Parsed(Value(s[..width]), s[width..])
  }

  function ReadSigned(s: seq<byte>, width: nat): (p: Parsed<int>)
    ensures p.Parsed? ==> 0 <= 2 * p.value + Radix(width) < 2 * Radix(width)
  {
    var (u, s) :- ReadFixed(s, width);
    Parsed(Signed(u, width), s)
  }

  // A varint as an unsigned integer of `width` bytes, as a signed one, and as a ZigZag one.
  function ReadUVarint(s: seq<byte>, width: nat): (p: Parsed<nat>)
    ensures p.Parsed? ==> p.value < Radix(width)
  {
    var (u, s) :- ReadVarint(s);
    Parsed(Wrap(u, width), s)
  }

  function ReadIVarint(s: seq<byte>, width: nat): (p: Parsed<int>)
    ensures p.Parsed? ==> 0 <= 2 * p.value + Radix(width) < 2 * Radix(width)
  {
    var (u, s) :- ReadVarint(s);
    Parsed(Signed(Wrap(u, width), width), s)
  }

  function ReadSVarint(s: seq<byte>, width: nat): (p: Parsed<int>)
    ensures p.Parsed? ==> 0 <= 2 * p.value + Radix(width) < 2 * Radix(width)
  {
    var (u, s) :- ReadVarint(s);
    Parsed(UnZigZag(Wrap(u, width)), s)
  }

  function ReadStringImage(s: seq<byte>): Parsed<seq<byte>> {
    var (length, s) :- ReadIVarint(s, 4);
    if 0 <= length <= |s| then Parsed(s[..length], s[length..]) else Malformed
  }

  lemma FixedRoundTrip(v: nat, width: nat, t: seq<byte>)
    requires v < Radix(width)
    ensures ReadFixed(FixedInt(v, width) + t, width) == Parsed(v, t)
  {
    WrapSmall(v, width);
    ValueOfLittleEndian(v, width);
    assert (FixedInt(v, width) + t)[..width] == FixedInt(v, width);
    assert (FixedInt(v, width) + t)[width..] == t;
  }

  lemma SignedRoundTrip(v: int, width: nat, t: seq<byte>)
    requires 0 <= 2 * v + Radix(width) < 2 * Radix(width)
    ensures ReadSigned(FixedInt(v, width) + t, width) == Parsed(v, t)
  {
    SignedOfWrap(v, width);
    FixedRoundTrip(Wrap(v, width), width, t);
    WrapSmall(Wrap(v, width), width);
  }

  lemma UVarintRoundTrip(v: nat, width: nat, t: seq<byte>)
    requires v < Radix(width)
    ensures ReadUVarint(Varint(v) + t, width) == Parsed(v, t)
  {
    WrapSmall(v, width);
    ReadOfVarint(v, t);
  }

  lemma IVarintRoundTrip(v: int, width: nat, t: seq<byte>)
    requires 0 <= 2 * v + Radix(width) < 2 * Radix(width)
    ensures ReadIVarint(Varint(Wrap(v, width)) + t, width) == Parsed(v, t)
  {
    SignedOfWrap(v, width);
    WrapSmall(Wrap(v, width), width);
    ReadOfVarint(Wrap(v, width), t);
  }

  lemma SVarintRoundTrip(v: int, width: nat, t: seq<byte>)
    requires 0 <= 2 * v + Radix(width) < 2 * Radix(width)
    ensures ReadSVarint(Varint(ZigZag(v)) + t, width) == Parsed(v, t)
  {
    UnZigZagOfZigZag(v);
    WrapSmall(ZigZag(v), width);
    ReadOfVarint(ZigZag(v), t);
  }

  // Reading back a string of any length gives its first |s| mod 65536 bytes, and what
  // follows it stays in step.
  lemma StringRoundTrip(s: seq<byte>, t: seq<byte>)
    ensures ReadStringImage(StringImage(s) + t) == Parsed(Clip(s), t)
    ensures Clip(s) == s <==> |s| < 0x1_0000
  {
    RadixValues();
    var c := Clip(s);
    WrapSmall(|c|, 4);
    IVarintRoundTrip(|c|, 4, c + t);
    assert StringImage(s) + t == Varint(|c|) + (c + t);
    assert (c + t)[..|c|] == c && (c + t)[|c|..] == t;
    if |s| < 0x1_0000 {
      WrapSmall(|s|, 2);
    }
  }

  // Each reader that finds a value finds the same one whatever follows.
  lemma FixedFollowed(s: seq<byte>, width: nat, t: seq<byte>)
    ensures ReadFixed(s, width).Parsed? ==> ReadFixed(s + t, width) == ReadFixed(s, width).Followed(t)
    ensures ReadSigned(s, width).Parsed? ==> ReadSigned(s + t, width) == ReadSigned(s, width).Followed(t)
  {
    if width <= |s| {
      assert (s + t)[..width] == s[..width] && (s + t)[width..] == s[width..] + t;
    }
  }

  lemma VarintsFollowed(s: seq<byte>, width: nat, t: seq<byte>)
    ensures ReadUVarint(s, width).Parsed? ==> ReadUVarint(s + t, width) == ReadUVarint(s, width).Followed(t)
    ensures ReadIVarint(s, width).Parsed? ==> ReadIVarint(s + t, width) == ReadIVarint(s, width).Followed(t)
    ensures ReadSVarint(s, width).Parsed? ==> ReadSVarint(s + t, width) == ReadSVarint(s, width).Followed(t)
  {
    VarintFollowed(s, t);
    hide ReadVarint, Wrap, Signed, UnZigZag;
  }

  lemma SplitAhead(s: seq<byte>, n: nat, t: seq<byte>)
    requires n <= |s|
    ensures (s + t)[..n] == s[..n] && (s + t)[n..] == s[n..] + t
  {
  }

  lemma StringFollowed(s: seq<byte>, t: seq<byte>)
    ensures ReadStringImage(s).Parsed? ==> ReadStringImage(s + t) == ReadStringImage(s).Followed(t)
  {
    VarintsFollowed(s, 4, t);
    hide ReadIVarint;
    if ReadStringImage(s).Parsed? {
      SplitAhead(ReadIVarint(s, 4).rest, ReadIVarint(s, 4).value, t);
    }
  }

  // The bytes under a fixed-width value, read through the pointer cast.
  method Fetch(state: SerializationState, width: nat) returns (u: nat)
    requires state.Room(width)
    modifies state`offset
    ensures state.Room(0) && ReadFixed(old(state.Ahead()), width) == Parsed(u, state.Ahead())
  {
    var at := state.origin + state.offset;
    assert state.buffer[at..at + width] == state.Ahead()[..width];
    u := Value(state.buffer[at..at + width]);
    state.offset := state.offset + width;
  }

  // A varint, byte by byte.
  method FetchVarint(state: SerializationState) returns (u: nat)
    requires state.Room(0) && ReadVarint(state.Ahead()).Parsed?
    modifies state`offset
    ensures state.Room(0) && ReadVarint(old(state.Ahead())) == Parsed(u, state.Ahead())
    decreases |state.Ahead()|
  {
    ghost var ahead := state.Ahead();
    u := state.buffer[state.origin + state.offset];
    state.offset := state.offset + 1;
    assert state.Ahead() == ahead[1..];
    if u >= 128 {
      var more := FetchVarint(state);
      u := u - 128 + 128 * more;
    }
  }

  method ReadInt8(state: SerializationState) returns (result: int8)
    requires state.Room(0) && ReadSigned(state.Ahead(), 1).Parsed?
    modifies state`offset
    ensures state.Room(0) && ReadSigned(old(state.Ahead()), 1) == Parsed(result, state.Ahead())
  {
    RadixValues();
    var u := Fetch(state, 1);
    result := Signed(u, 1);
  }

  method ReadUInt8(state: SerializationState) returns (result: uint8)
    requires state.Room(0) && ReadFixed(state.Ahead(), 1).Parsed?
    modifies state`offset
    ensures state.Room(0) && ReadFixed(old(state.Ahead()), 1) == Parsed(result, state.Ahead())
  {
    RadixValues();
    var u := Fetch(state, 1);
    result := u;
  }

  method ReadInt16(state: SerializationState) returns (result: int16)
    requires state.Room(0) && ReadSigned(state.Ahead(), 2).Parsed?
    modifies state`offset
    ensures state.Room(0) && ReadSigned(old(state.Ahead()), 2) == Parsed(result, state.Ahead())
  {
    RadixValues();
    var u := Fetch(state, 2);
    result := Signed(u, 2);
  }

  method ReadUInt16(state: SerializationState) returns (result: uint16)
    requires state.Room(0) && ReadFixed(state.Ahead(), 2).Parsed?
    modifies state`offset
    ensures state.Room(0) && ReadFixed(old(state.Ahead()), 2) == Parsed(result, state.Ahead())
  {
    RadixValues();
    var u := Fetch(state, 2);
    result := u;
  }

  method ReadInt64(state: SerializationState) returns (result: int64)
    requires state.Room(0) && ReadSigned(state.Ahead(), 8).Parsed?
    modifies state`offset
    ensures state.Room(0) && ReadSigned(old(state.Ahead()), 8) == Parsed(result, state.Ahead())
  {
    RadixValues();
    var u := Fetch(state, 8);
    result := Signed(u, 8);
  }

  method ReadUInt64(state: SerializationState) returns (result: uint64)
    requires state.Room(0) && ReadFixed(state.Ahead(), 8).Parsed?
    modifies state`offset
    ensures state.Room(0) && ReadFixed(old(state.Ahead()), 8) == Parsed(result, state.Ahead())
  {
    RadixValues();
    var u := Fetch(state, 8);
    result := u;
  }

  method ReadFloat32(state: SerializationState) returns (result: uint32)
    requires state.Room(0) && ReadFixed(state.Ahead(), 4).Parsed?
    modifies state`offset
    ensures state.Room(0) && ReadFixed(old(state.Ahead()), 4) == Parsed(result, state.Ahead())
  {
    RadixValues();
    var u := Fetch(state, 4);
    result := u;
  }

  method ReadFloat64(state: SerializationState) returns (result: uint64)
    requires state.Room(0) && ReadFixed(state.Ahead(), 8).Parsed?
    modifies state`offset
    ensures state.Room(0) && ReadFixed(old(state.Ahead()), 8) == Parsed(result, state.Ahead())
  {
    RadixValues();
    var u := Fetch(state, 8);
    result := u;
  }

  method ReadVarint32(state: SerializationState) returns (result: int32)
    requires state.Room(0) && ReadIVarint(state.Ahead(), 4).Parsed?
    modifies state`offset
    ensures state.Room(0) && ReadIVarint(old(state.Ahead()), 4) == Parsed(result, state.Ahead())
  {
    RadixValues();
    var u := FetchVarint(state);
    result := Signed(Wrap(u, 4), 4);
  }

  method ReadUVarint32(state: SerializationState) returns (result: uint32)
    requires state.Room(0) && ReadUVarint(state.Ahead(), 4).Parsed?
    modifies state`offset
    ensures state.Room(0) && ReadUVarint(old(state.Ahead()), 4) == Parsed(result, state.Ahead())
  {
    RadixValues();
    var u := FetchVarint(state);
    result := Wrap(u, 4);
  }

  method ReadSVarint32(state: SerializationState) returns (result: int32)
    requires state.Room(0) && ReadSVarint(state.Ahead(), 4).Parsed?
    modifies state`offset
    ensures state.Room(0) && ReadSVarint(old(state.Ahead()), 4) == Parsed(result, state.Ahead())
  {
    RadixValues();
    var u := FetchVarint(state);
    result := UnZigZag(Wrap(u, 4));
  }

  method ReadVarint64(state: SerializationState) returns (result: int64)
    requires state.Room(0) && ReadIVarint(state.Ahead(), 8).Parsed?
    modifies state`offset
    ensures state.Room(0) && ReadIVarint(old(state.Ahead()), 8) == Parsed(result, state.Ahead())
  {
    RadixValues();
    var u := FetchVarint(state);
    result := Signed(Wrap(u, 8), 8);
  }

  method ReadUVarint64(state: SerializationState) returns (result: uint64)
    requires state.Room(0) && ReadUVarint(state.Ahead(), 8).Parsed?
    modifies state`offset
    ensures state.Room(0) && ReadUVarint(old(state.Ahead()), 8) == Parsed(result, state.Ahead())
  {
    RadixValues();
    var u := FetchVarint(state);
    result := Wrap(u, 8);
  }

  method ReadSVarint64(state: SerializationState) returns (result: int64)
    requires state.Room(0) && ReadSVarint(state.Ahead(), 8).Parsed?
    modifies state`offset
    ensures state.Room(0) && ReadSVarint(old(state.Ahead()), 8) == Parsed(result, state.Ahead())
  {
    RadixValues();
    var u := FetchVarint(state);
    result := UnZigZag(Wrap(u, 8));
  }

  method ReadString(state: SerializationState) returns (result: seq<byte>)
    requires state.Room(0) && ReadStringImage(state.Ahead()).Parsed?
    modifies state`offset
    ensures state.Room(0) && ReadStringImage(old(state.Ahead())) == Parsed(result, state.Ahead())
  {
    var u := FetchVarint(state);
    var length := Signed(Wrap(u, 4), 4);
    var at := state.origin + state.offset;
    assert state.buffer[at..at + length] == state.Ahead()[..length];
    result := state.buffer[at..at + length];
    state.offset := state.offset + length;
  }
}
