/** Bytes, the fixed-width integers of the program, and their little-endian images.
    A C++ conversion to an N-bit integer is `Wrap` (unsigned) or `Signed(Wrap(..))`. */
module Bytes {
  type byte = x: int | 0 <= x < 256

  type uint8 = x: int | 0 <= x < 0x100
  type uint16 = x: int | 0 <= x < 0x1_0000
  type uint32 = x: int | 0 <= x < 0x1_0000_0000
  type uint64 = x: int | 0 <= x < 0x1_0000_0000_0000_0000
  type int8 = x: int | -0x80 <= x < 0x80
  type int16 = x: int | -0x8000 <= x < 0x8000
  type int32 = x: int | -0x8000_0000 <= x < 0x8000_0000
  type int64 = x: int | -0x8000_0000_0000_0000 <= x < 0x8000_0000_0000_0000

  // 256 to the power `width`.
  function Radix(width: nat): (m: nat)
    ensures m > 0
  {
    if width == 0 then 1 else 256 * Radix(width - 1)
  }

  lemma RadixValues()
    ensures Radix(1) == 0x100 && Radix(2) == 0x1_0000 && Radix(4) == 0x1_0000_0000
    ensures Radix(8) == 0x1_0000_0000_0000_0000
  {
    assert Radix(3) == 0x100_0000;
    assert Radix(6) == 0x1_0000_0000_0000;
  }

  // What an unsigned integer of `width` bytes keeps of v.
  function Wrap(v: int, width: nat): (u: nat)
    ensures u < Radix(width)
  {
    v % Radix(width)
  }

  // The two's complement reading of an unsigned integer of `width` bytes.
  function Signed(u: nat, width: nat): int {
    if 2 * u < Radix(width) then u else u - Radix(width)
  }

  function LittleEndian(u: nat, width: nat): (s: seq<byte>)
    ensures |s| == width
  {
    if width == 0 then [] else [u % 256] + LittleEndian(u / 256, width - 1)
  }

  function Value(s: seq<byte>): (u: nat)
    ensures u < Radix(|s|)
  {
    if s == [] then 0 else s[0] + 256 * Value(s[1..])
  }

  lemma {:induction false} ValueOfLittleEndian(u: nat, width: nat)
    requires u < Radix(width)
    ensures Value(LittleEndian(u, width)) == u
  {
    if width != 0 {
      ValueOfLittleEndian(u / 256, width - 1);
      assert LittleEndian(u, width)[1..] == LittleEndian(u / 256, width - 1);
    }
  }

  lemma {:induction false} LittleEndianOfValue(s: seq<byte>)
    ensures LittleEndian(Value(s), |s|) == s
  {
    if s != [] {
      LittleEndianOfValue(s[1..]);
      assert Value(s) / 256 == Value(s[1..]);
    }
  }

  // The image of an integer, signed or not, stored in `width` bytes.
  function FixedInt(v: int, width: nat): (s: seq<byte>)
    ensures |s| == width
  {
    LittleEndian(Wrap(v, width), width)
  }

  lemma WrapSmall(v: nat, width: nat)
    requires v < Radix(width)
    ensures Wrap(v, width) == v
  {
    ModUnique(v, Radix(width), 0, v);
  }

  lemma WrapCongruent(v: int, k: int, width: nat)
    ensures Wrap(v + k * Radix(width), width) == Wrap(v, width)
  {
    var m := Radix(width);
    assert v + k * m == (v / m + k) * m + v % m by {
      assert (v / m + k) * m == v / m * m + k * m;
    }
    ModUnique(v + k * m, m, v / m + k, v % m);
  }

  // Arithmetic on a value already cut to `width` bytes, cut again.
  lemma WrapOfSigned(v: int, d: int, width: nat)
    ensures Wrap(Signed(Wrap(v, width), width) + d, width) == Wrap(v + d, width)
  {
    var m := Radix(width);
    var q := v / m;
    assert v == q * m + v % m;
    if 2 * Wrap(v, width) < m {
      WrapCongruent(Signed(Wrap(v, width), width) + d, q, width);
    } else {
      assert (q + 1) * m == q * m + m;
      WrapCongruent(Signed(Wrap(v, width), width) + d, q + 1, width);
    }
  }

  lemma SignedInRange(u: nat, width: nat)
    requires u < Radix(width)
    ensures 0 <= 2 * Signed(u, width) + Radix(width) < 2 * Radix(width)
  {
  }

  lemma SignedOfWrap(v: int, width: nat)
    requires 0 <= 2 * v + Radix(width) < 2 * Radix(width)
    ensures Signed(Wrap(v, width), width) == v
  {
    var m := Radix(width);
    if v < 0 {
      ModUnique(v, m, -1, v + m);
    } else {
      ModUnique(v, m, 0, v);
    }
  }

  lemma ModUnique(a: int, m: nat, q: int, r: int)
    requires 0 <= r < m && a == q * m + r
    ensures a % m == r && a / m == q
  {
    var d := a / m - q;
    assert a % m == r - d * m by { assert (a / m) * m == q * m + d * m; }
    SmallMultiple(d, m);
  }

  lemma SmallMultiple(d: int, m: nat)
    ensures d >= 1 ==> d * m >= m
    ensures d <= -1 ==> d * m + m <= 0
  {
    if d >= 1 {
      assert (d - 1) * m >= 0;
    }
  }

  lemma Associative<T>(a: seq<T>, b: seq<T>, c: seq<T>)
    ensures a + b + c == a + (b + c)
  {
  }

  // s with the bytes from `at` on replaced by b.
  function Splice(s: seq<byte>, at: nat, b: seq<byte>): (r: seq<byte>)
    requires at + |b| <= |s|
    ensures |r| == |s|
  {
    s[..at] + b + s[at + |b|..]
  }

  lemma SpliceWindow(s: seq<byte>, at: nat, b: seq<byte>)
    requires at + |b| <= |s|
    ensures Splice(s, at, b)[..at + |b|] == s[..at] + b
    ensures Splice(s, at, b)[..at] == s[..at]
  {
  }
}
