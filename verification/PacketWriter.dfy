/** The writers of a packet: each stores one value at the offset and moves past it. */
module PacketWriter {
  import opened Bytes
  import opened Encoding
  import opened Serialization

  method WriteInt8(state: SerializationState, value: int8)
    requires state.Valid() && state.Room(1)
    modifies state`offset, state`log, state.buffer
    ensures state.Appended(FixedInt(value, 1))
  {
    state.Put(FixedInt(value, 1));
  }

  method WriteUInt8(state: SerializationState, value: uint8)
    requires state.Valid() && state.Room(1)
    modifies state`offset, state`log, state.buffer
    ensures state.Appended(FixedInt(value, 1))
  {
    state.Put(FixedInt(value, 1));
  }

  method WriteInt16(state: SerializationState, value: int16)
    requires state.Valid() && state.Room(2)
    modifies state`offset, state`log, state.buffer
    ensures state.Appended(FixedInt(value, 2))
  {
    state.Put(FixedInt(value, 2));
  }

  method WriteUInt16(state: SerializationState, value: uint16)
    requires state.Valid() && state.Room(2)
    modifies state`offset, state`log, state.buffer
    ensures state.Appended(FixedInt(value, 2))
  {
    state.Put(FixedInt(value, 2));
  }

  method WriteInt64(state: SerializationState, value: int64)
    requires state.Valid() && state.Room(8)
    modifies state`offset, state`log, state.buffer
    ensures state.Appended(FixedInt(value, 8))
  {
    state.Put(FixedInt(value, 8));
  }

  method WriteUInt64(state: SerializationState, value: uint64)
    requires state.Valid() && state.Room(8)
    modifies state`offset, state`log, state.buffer
    ensures state.Appended(FixedInt(value, 8))
  {
    state.Put(FixedInt(value, 8));
  }

  // A float is its bit pattern.
  method WriteFloat32(state: SerializationState, bits: uint32)
    requires state.Valid() && state.Room(4)
    modifies state`offset, state`log, state.buffer
    ensures state.Appended(FixedInt(bits, 4))
  {
    state.Put(FixedInt(bits, 4));
  }

  method WriteFloat64(state: SerializationState, bits: uint64)
    requires state.Valid() && state.Room(8)
    modifies state`offset, state`log, state.buffer
    ensures state.Appended(FixedInt(bits, 8))
  {
    state.Put(FixedInt(bits, 8));
  }

  // A varint, byte by byte.
  method PutVarint(state: SerializationState, u: nat)
    requires state.Valid() && state.Room(|Varint(u)|)
    modifies state`offset, state`log, state.buffer
    ensures state.Appended(Varint(u))
  {
    ghost var done: seq<byte> := [];
    ghost var before := state.log;
    var left := u;
    while left >= 128
      invariant done + Varint(left) == Varint(u)
      invariant state.Appended(done)
      decreases left
    {
      hide SerializationState.Valid;
      ghost var next: seq<byte> := [128 + left % 128];
      Associative(done, next, Varint(left / 128));
      Associative(before, done, next);
      state.Put([128 + left % 128]);
      done := done + next;
      left := left / 128;
    }
    Associative(before, done, [left]);
    state.Put([left]);
  }

  method WriteVarint32(state: SerializationState, value: int32)
    requires state.Valid() && state.Room(|Varint(Wrap(value, 4))|)
    modifies state`offset, state`log, state.buffer
    ensures state.Appended(Varint(Wrap(value, 4)))
  {
    PutVarint(state, Wrap(value, 4));
  }

  method WriteUVarint32(state: SerializationState, value: uint32)
    requires state.Valid() && state.Room(|Varint(value)|)
    modifies state`offset, state`log, state.buffer
    ensures state.Appended(Varint(value))
  {
    PutVarint(state, value);
  }

  method WriteSVarint32(state: SerializationState, value: int32)
    requires state.Valid() && state.Room(|Varint(ZigZag(value))|)
    modifies state`offset, state`log, state.buffer
    ensures state.Appended(Varint(ZigZag(value)))
  {
    PutVarint(state, ZigZag(value));
  }

  method WriteVarint64(state: SerializationState, value: int64)
    requires state.Valid() && state.Room(|Varint(Wrap(value, 8))|)
    modifies state`offset, state`log, state.buffer
    ensures state.Appended(Varint(Wrap(value, 8)))
  {
    PutVarint(state, Wrap(value, 8));
  }

  method WriteUVarint64(state: SerializationState, value: uint64)
    requires state.Valid() && state.Room(|Varint(value)|)
    modifies state`offset, state`log, state.buffer
    ensures state.Appended(Varint(value))
  {
    PutVarint(state, value);
  }

  method WriteSVarint64(state: SerializationState, value: int64)
    requires state.Valid() && state.Room(|Varint(ZigZag(value))|)
    modifies state`offset, state`log, state.buffer
    ensures state.Appended(Varint(ZigZag(value)))
  {
    PutVarint(state, ZigZag(value));
  }

  // A string keeps its length in a uint16, so 65536 bytes and more lose their head count.
  function Clip(s: seq<byte>): (r: seq<byte>)
    ensures r <= s && |r| == Wrap(|s|, 2)
  {
    WrapAtMost(|s|, 2);
    s[..Wrap(|s|, 2)]
  }

  lemma WrapAtMost(v: nat, width: nat)
    ensures Wrap(v, width) <= v
  {
    var m := Radix(width);
    assert v == v / m * m + v % m;
    SmallMultiple(v / m, m);
  }

  function StringImage(s: seq<byte>): seq<byte> {
    Varint(|Clip(s)|) + Clip(s)
  }

  method WriteString(state: SerializationState, value: seq<byte>)
    requires state.Valid() && state.Room(|StringImage(value)|)
    modifies state`offset, state`log, state.buffer
    ensures state.Appended(StringImage(value))
  {
    var length := Wrap(|value|, 2);
    WrapAtMost(|value|, 2);
    hide SerializationState.Valid;
    Associative(state.log, Varint(length), value[..length]);
    PutVarint(state, length);
    state.Put(value[..length]);
  }
}
