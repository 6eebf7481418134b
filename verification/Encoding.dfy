/** Base-128 varints and ZigZag, as the Protocol Buffers Encoding guide defines them in its
    sections "Base 128 Varints" and "Signed Integers". The program's own Encoding.hpp is
    not part of this model. */
module Encoding {
  import opened Bytes

  // A decoder either gives a value and the bytes after it, or finds no value.
  datatype Parsed<+T> = Malformed | Parsed(value: T, rest: seq<byte>) {
    predicate IsFailure() { Malformed? }
    function PropagateFailure<U>(): Parsed<U>
      requires Malformed?
    {
      Malformed
    }
    function Extract(): (T, seq<byte>)
      requires Parsed?
    {
      (value, rest)
    }

    // The same value, with more bytes behind those left.
    function Followed(t: seq<byte>): Parsed<T> {
      if Malformed? then this else Parsed(value, rest + t)
    }
  }

  function Varint(u: nat): (s: seq<byte>)
    ensures |s| >= 1
  {
    if u < 128 then [u] else [128 + u % 128] + Varint(u / 128)
  }

  function ReadVarint(s: seq<byte>): (p: Parsed<nat>)
    ensures p.Parsed? ==> |p.rest| < |s| && p.rest == s[|s| - |p.rest|..]
  {
    if s == [] then Malformed
    else if s[0] < 128 then Parsed(s[0], s[1..])
    else match ReadVarint(s[1..])
      case Malformed => Malformed
      case Parsed(more, rest) => Parsed(s[0] - 128 + 128 * more, rest)
  }

  lemma {:induction false} ReadOfVarint(u: nat, t: seq<byte>)
    ensures ReadVarint(Varint(u) + t) == Parsed(u, t)
  {
    if u < 128 {
      FirstByte(u, [], t);
    } else {
      ReadOfVarint(u / 128, t);
      FirstByte(128 + u % 128, Varint(u / 128), t);
    }
  }

  lemma FirstByte(b: byte, s: seq<byte>, t: seq<byte>)
    ensures ([b] + s + t)[0] == b && ([b] + s + t)[1..] == s + t
    ensures s == [] ==> [b] + s == [b] && s + t == t
  {
  }

  // A value that is read is read the same whatever follows.
  lemma {:induction false} VarintFollowed(s: seq<byte>, t: seq<byte>)
    ensures ReadVarint(s).Parsed? ==> ReadVarint(s + t) == ReadVarint(s).Followed(t)
  {
    if s != [] {
      assert (s + t)[1..] == s[1..] + t;
      VarintFollowed(s[1..], t);
    }
  }

  function ZigZag(v: int): nat {
    if v >= 0 then 2 * v else -2 * v - 1
  }

  function UnZigZag(u: nat): int {
    if u % 2 == 0 then u / 2 else -(u / 2) - 1
  }

  lemma UnZigZagOfZigZag(v: int)
    ensures UnZigZag(ZigZag(v)) == v
  {
  }
}
