/** The bytes on the wire, in numbers: what the images of integers, varints, strings and
    whole packets are, byte by byte. */
module WireFormat {
  import opened Bytes
  import opened EchoLayout
  import opened EchoMessage
  import opened Encoding
  import opened Framing
  import opened PacketWriter

  // ---- Integers of fixed width: the lowest byte first.

  lemma {:induction false} LowestFirst(u: nat, width: nat, i: nat)
    requires i < width
    ensures LittleEndian(u, width)[i] == u / Radix(i) % 256
    decreases width
  {
    if i > 0 {
      LowestFirst(u / 256, width - 1, i - 1);
      DivideTwice(u, 256, Radix(i - 1));
      assert Radix(i) == 256 * Radix(i - 1);
    }
  }

  lemma DivideTwice(u: nat, a: nat, b: nat)
    requires a > 0 && b > 0
    ensures a * b > 0 && u / a / b == u / (a * b)
  {
    var q, r, s := u / a / b, u / a % b, u % a;
    Split(u, a);
    Split(u / a, b);
    Regroup(q, b, r, a, s);
    ModUnique(u, a * b, q, r * a + s);
  }

  lemma Split(x: nat, m: nat)
    requires m > 0
    ensures x == x / m * m + x % m
  {
  }

  lemma Regroup(q: nat, b: nat, r: nat, a: nat, s: nat)
    requires r < b && s < a
    ensures (q * b + r) * a + s == q * (a * b) + (r * a + s)
    ensures 0 <= r * a + s < a * b
  {
    SmallMultiple(b - r, a);
    assert (b - r) * a == a * b - r * a;
    assert q * b * a == q * (a * b);
  }

  // The smallest negative and largest positive values included.
  lemma FixedIntSamples()
    ensures FixedInt(1, 2) == [1, 0] && FixedInt(258, 2) == [2, 1] && FixedInt(65535, 2) == [255, 255]
    ensures FixedInt(-2, 2) == [254, 255] && FixedInt(-32768, 2) == [0, 128] && FixedInt(32767, 2) == [255, 127]
    ensures FixedInt(-1, 4) == [255, 255, 255, 255] && FixedInt(0x1234_5678, 4) == [0x78, 0x56, 0x34, 0x12]
  {
    RadixValues();
    Two(1);
    Two(258);
    Two(65535);
    Two(65534);
    Two(32768);
    Two(32767);
    Four(0xFFFF_FFFF);
    Four(0x1234_5678);
  }

  lemma Two(u: nat)
    ensures LittleEndian(u, 2) == [u % 256, u / 256 % 256]
  {
    assert LittleEndian(u / 256, 1) == [u / 256 % 256] + LittleEndian(u / 256 / 256, 0);
  }

  lemma Four(u: nat)
    ensures LittleEndian(u, 4) == [u % 256, u / 256 % 256, u / 256 / 256 % 256, u / 256 / 256 / 256 % 256]
  {
    Two(u / 256 / 256);
    assert LittleEndian(u, 4) == [u % 256] + ([u / 256 % 256] + LittleEndian(u / 256 / 256, 2));
  }

  // ---- Varints: seven bits to a byte, the lowest first, and the top bit on all but the
  // last; no shorter row of such bytes would do.

  lemma {:induction false} VarintShape(u: nat)
    ensures var s := Varint(u);
            && s[|s| - 1] < 128 && (|s| > 1 ==> s[|s| - 1] > 0)
            && (forall i | 0 <= i < |s| - 1 :: s[i] >= 128)
    ensures forall i | 0 <= i < |Varint(u)| :: Varint(u)[i] % 128 == Shifted(u, i) % 128
  {
    if u >= 128 {
      VarintShape(u / 128);
      forall i | 0 < i < |Varint(u)| ensures Varint(u)[i] % 128 == Shifted(u, i) % 128 {
        assert Varint(u)[i] == Varint(u / 128)[i - 1];
      }
    }
  }

  // A number without its last i groups of seven bits.
  function Shifted(u: nat, i: nat): nat {
    if i == 0 then u else Shifted(u / 128, i - 1)
  }

  // The sample values of the sections "Base 128 Varints" and "Signed Integers".
  lemma VarintSamples()
    ensures Varint(1) == [1] && Varint(127) == [127] && Varint(128) == [128, 1] && Varint(150) == [150, 1]
    ensures ZigZag(0) == 0 && ZigZag(-1) == 1 && ZigZag(1) == 2 && ZigZag(-2) == 3
    ensures ZigZag(0x7FFF_FFFF) == 0xFFFF_FFFE && ZigZag(-0x8000_0000) == 0xFFFF_FFFF
  {
  }

  // ---- A packet: the length of header and body in two bytes, the message id in two, the
  // body.

  lemma PacketBytes(msgId: uint16, x: EchoBody)
    ensures var n, packet := 2 + |BodyImage(x)|, Framed(MessageImage(msgId, x));
            && packet == [n % 256, n / 256 % 256] + [msgId % 256, msgId / 256] + BodyImage(x)
  {
    hide BodyImage, FixedInt;
    FixedTwo(2 + |BodyImage(x)|);
    FixedTwo(msgId);
    Associative(FixedInt(2 + |BodyImage(x)|, 2), FixedInt(msgId, 2), BodyImage(x));
  }

  lemma FixedTwo(v: nat)
    ensures FixedInt(v, 2) == [v % 256, v / 256 % 256]
  {
    RadixValues();
    Two(Wrap(v, 2));
    hide LittleEndian;
    var q, r := v / 0x1_0000, v % 0x1_0000;
    assert v == 0x1_0000 * q + r && v / 256 == 256 * q + r / 256;
  }

  // The length that the first two bytes of a stream announce, and the frame behind them.
  lemma FrameBytes(s: seq<byte>)
    requires |s| >= 2
    ensures var n := s[0] as int + 256 * s[1] as int;
            && DeclaredLength(s) == (if n < 0x8000 then n else n - 0x1_0000)
            && (HasFrame(s) <==> n < 0x8000 && 2 + n <= |s|)
            && (HasFrame(s) ==> FirstFrame(s) == s[2..2 + n] && AfterFrame(s) == s[2 + n..])
  {
    RadixValues();
    var t := s[..2];
    assert Value(t) == t[0] + 256 * Value(t[1..]) && Value(t[1..]) == t[1] + 256 * Value(t[1..][1..]);
  }

  // A body with a different value in each field.
  const SAMPLE: EchoBody := EchoBody(
    1, 2, 3, 4, [EchoStruct2(EchoStruct1(-1, [[65]]))], 5, 6, [66],
    -1, 7, 8, -9, EchoStruct1(10, []), 300, -2, 11)

  lemma SampleStrings()
    ensures StringImage([65]) == [1, 65] && StringImage([66]) == [1, 66]
    ensures Struct1Image(EchoStruct1(-1, [[65]])) == [1, 1, 1, 65] && Struct1Image(EchoStruct1(10, [])) == [20, 0]
    ensures VectorImage(SAMPLE.e) == [1, 1, 1, 1, 65]
  {
    RadixValues();
    WrapSmall(1, 2);
    WrapSmall(1, 4);
    WrapSmall(0, 4);
    assert StringImage([65]) == [1] + [65] && StringImage([66]) == [1] + [66];
    var one: seq<Text> := [[65]];
    assert one[1..] == [] && StringsImage(one) == StringImage([65]) + StringsImage([]);
    assert SAMPLE.e[1..] == [] && StructsImage(SAMPLE.e) == Struct1Image(SAMPLE.e[0].b) + StructsImage([]);
  }

  lemma {:induction false} SmallByte(b: byte, width: nat)
    requires width > 0
    ensures FixedInt(b, width) == [b] + seq(width - 1, _ => 0)
  {
    WrapByte(b, width);
    ZeroBytes(width - 1);
  }

  lemma {:induction false} WrapByte(b: byte, width: nat)
    requires width > 0
    ensures b < Radix(width) && Wrap(b, width) == b
  {
    assert Radix(width) == 256 * Radix(width - 1);
    WrapSmall(b, width);
  }

  lemma {:induction false} ZeroBytes(width: nat)
    ensures LittleEndian(0, width) == seq(width, _ => 0)
  {
    if width > 0 {
      ZeroBytes(width - 1);
    }
  }

  lemma SampleIntegers()
    ensures FixedInt(SAMPLE.a, 8) == [1, 0, 0, 0, 0, 0, 0, 0] && FixedInt(SAMPLE.f, 4) == [5, 0, 0, 0]
    ensures FixedInt(SAMPLE.g, 1) == [6] && FixedInt(SAMPLE.i, 1) == [255]
    ensures FixedInt(SAMPLE.j, 8) == [7, 0, 0, 0, 0, 0, 0, 0] && FixedInt(SAMPLE.o, 2) == [254, 255]
    ensures FixedInt(SAMPLE.p, 8) == [11, 0, 0, 0, 0, 0, 0, 0]
  {
    hide FixedInt;
    Small(1);
    Small(5);
    Small(6);
    Small(7);
    Small(11);
    MinusOne();
    FixedIntSamples();
  }

  lemma Small(b: byte)
    ensures FixedInt(b, 1) == [b] && FixedInt(b, 4) == [b, 0, 0, 0] && FixedInt(b, 8) == [b, 0, 0, 0, 0, 0, 0, 0]
  {
    SmallByte(b, 1);
    SmallByte(b, 4);
    SmallByte(b, 8);
    hide FixedInt;
  }

  lemma SampleVarints()
    ensures Varint(Wrap(SAMPLE.b, 4)) == [2] && Varint(ZigZag(SAMPLE.c)) == [6] && Varint(SAMPLE.d) == [4]
    ensures Varint(Wrap(SAMPLE.k, 8)) == [8] && Varint(ZigZag(SAMPLE.l)) == [17] && Varint(SAMPLE.n) == [172, 2]
  {
    RadixValues();
    WrapSmall(2, 4);
    WrapSmall(8, 8);
    hide Wrap, Radix;
  }

  // Every field at its place, in its own encoding.
  lemma SampleBytes()
    ensures BodyImage(SAMPLE) ==
            [1, 0, 0, 0, 0, 0, 0, 0] + [2] + [6] + [4]
            + ([1, 1, 1, 1, 65] + [5, 0, 0, 0] + [6] + [1, 66])
            + ([255] + [7, 0, 0, 0, 0, 0, 0, 0] + [8] + [17])
            + ([20, 0] + [172, 2] + [254, 255] + [11, 0, 0, 0, 0, 0, 0, 0])
  {
    hide FixedInt, Varint, ZigZag, Wrap, VectorImage, Struct1Image, StringImage;
    SampleIntegers();
    SampleVarints();
    SampleStrings();
  }

  lemma MinusOne()
    ensures FixedInt(-1, 1) == [255]
  {
    RadixValues();
    assert LittleEndian(255, 1) == [255] + LittleEndian(0, 0);
  }
}
