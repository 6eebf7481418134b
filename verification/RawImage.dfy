/** Reads of 32-bit integers at byte offsets of a mapped file. */
module RawImage {
  import opened Bytes

  predicate Holds(img: seq<byte>, at: int, size: nat) {
    0 <= at && at + size <= |img|
  }

  function UInt32At(img: seq<byte>, at: int): (u: uint32)
    requires Holds(img, at, 4)
  {
    RadixValues();
    Value(img[at..at + 4])
  }

  function Int32At(img: seq<byte>, at: int): (v: int32)
    requires Holds(img, at, 4)
  {
    RadixValues();
    Signed(UInt32At(img, at), 4)
  }
}
