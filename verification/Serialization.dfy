/** The state a message is packed to or unpacked from: a pointer into a byte buffer, and an
    offset from it. `origin` is the pointer, as an index of `buffer`. */
module Serialization {
  import opened Bytes

  class SerializationState {
    var buffer: array<byte>
    var origin: nat
    var offset: nat

    // What has been written since the last Begin, where, and over which bytes.
    ghost var log: seq<byte>
    ghost var start: nat
    ghost var image: seq<byte>

    constructor ()
      ensures fresh(buffer) && origin == 0 && offset == 0
    {
      buffer := new byte[0];
      origin, offset := 0, 0;
      log, start, image := [], 0, [];
    }

    ghost function Position(): nat
      reads this
    {
      origin + offset
    }

    ghost predicate Room(count: nat)
      reads this
    {
      Position() + count <= buffer.Length
    }

    // The bytes from the current position on.
    ghost function Ahead(): seq<byte>
      reads this, buffer
      requires Room(0)
    {
      buffer[Position()..]
    }

    // The buffer is what it was, with the log laid over it.
    ghost predicate Valid()
      reads this, buffer
    {
      && Position() == start + |log|
      && start + |log| <= |image|
      && buffer[..] == Splice(image, start, log)
    }

    // The effect of every writer: these bytes at the old position, the offset moved past
    // them, and no other byte changed.
    twostate predicate Appended(bytes: seq<byte>)
      reads this, buffer
    {
      && Valid()
      && log == old(log) + bytes
      && start == old(start) && image == old(image)
      && offset == old(offset) + |bytes|
      && origin == old(origin) && buffer == old(buffer)
    }

    ghost method Begin()
      requires Room(0)
      modifies this`log, this`start, this`image
      ensures Valid() && log == [] && start == Position() && image == buffer[..]
    {
      log, start, image := [], Position(), buffer[..];
    }

    lemma Written()
      requires Valid()
      ensures start + |log| <= |image| && buffer[..] == Splice(image, start, log)
    {
    }

    method Put(bytes: seq<byte>)
      requires Valid() && Room(|bytes|)
      modifies this`offset, this`log, buffer
      ensures Appended(bytes)
    {
      ghost var before := buffer[..];
      var at := origin + offset;
      forall i | 0 <= i < |bytes| {
        buffer[at + i] := bytes[i];
      }
      assert buffer[..] == Splice(before, at, bytes);
      SpliceTwice(image, start, log, bytes);
      offset := offset + |bytes|;
      log := log + bytes;
    }
  }

  lemma SpliceTwice(s: seq<byte>, at: nat, a: seq<byte>, b: seq<byte>)
    requires at + |a| + |b| <= |s|
    ensures Splice(Splice(s, at, a), at + |a|, b) == Splice(s, at, a + b)
  {
  }

  lemma SpliceBefore(s: seq<byte>, at: nat, a: seq<byte>, b: seq<byte>)
    requires at + |a| + |b| <= |s|
    ensures Splice(Splice(s, at + |a|, b), at, a) == Splice(s, at, a + b)
  {
  }
}
