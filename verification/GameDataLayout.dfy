/** Where the bytes of packed game data stand, in numbers: what a name index or a key table
    holds is what the entries at these offsets of the image say, and nothing else. */
module GameDataLayout {
  import opened Bytes
  import opened GameDataManager
  import opened RawImage

  // Entries of an image, each found at the link of the one before.
  predicate Linked(img: seq<byte>, size: nat, nextField: nat, entries: seq<int>)
    requires nextField + 4 <= size
  {
    && (forall i | 0 <= i < |entries| :: 0 <= entries[i] && entries[i] + size <= |img|)
    && (forall i | 0 <= i < |entries| - 1 :: entries[i + 1] == Int32At(img, entries[i] + nextField))
  }

  // The entries of a chain are linked, and every linked row from its start is a start of it.
  lemma {:induction false} ChainIsLinked(img: seq<byte>, at: int, size: nat, nextField: nat, path: seq<int>)
    requires nextField + 4 <= size && IsChain(img, at, size, nextField, path)
    ensures Linked(img, size, nextField, path) && (path != [] ==> path[0] == at)
    decreases |path|
  {
    ChainStep(img, at, size, nextField, path);
    if path != [] {
      hide IsChain, Int32At;
      ChainIsLinked(img, Int32At(img, at + nextField), size, nextField, path[1..]);
      assert forall i | 0 < i < |path| :: path[i] == path[1..][i - 1];
    }
  }

  lemma {:induction false} LinkedIsPrefix(img: seq<byte>, at: int, size: nat, nextField: nat, path: seq<int>, entries: seq<int>)
    requires nextField + 4 <= size && IsChain(img, at, size, nextField, path)
    requires Linked(img, size, nextField, entries) && (entries != [] ==> entries[0] == at)
    ensures entries <= path
    decreases |entries|
  {
    if entries != [] {
      ChainStep(img, at, size, nextField, path);
      hide IsChain, Int32At;
      LinkedIsPrefix(img, Int32At(img, at + nextField), size, nextField, path[1..], entries[1..]);
      assert entries == [at] + entries[1..] && path == [at] + path[1..];
    }
  }

  // ---- Key tables: entries of 12 bytes behind a count of 4, with the key, the data offset
  // and the link.

  // An entry of the key table at `table` in the chain of this slot, with a key at home there.
  predicate IsKeyEntry(img: seq<byte>, table: int, slot: int, entries: seq<int>) {
    && 0 <= table && table + 4 <= |img| && 0 <= slot < Int32At(img, table)
    && entries != [] && entries[0] == table + 4 + 12 * slot && Linked(img, 12, 8, entries)
    && Int32At(img, entries[|entries| - 1]) % 0x1_0000_0000 % Int32At(img, table) == slot
  }

  lemma KeyEntryIsHeld(img: seq<byte>, table: int, m: map<int32, int>, slot: int, entries: seq<int>)
    requires EncodesKeys(img, table, m) && IsKeyEntry(img, table, slot, entries)
    ensures var e := entries[|entries| - 1];
            Int32At(img, e) in m && m[Int32At(img, e)] == Int32At(img, e + 4)
  {
    RadixValues();
    hide Int32At, IsChain, Linked;
    assert KeySlotEncodes(img, table, slot, m);
    var path: seq<int> :| KeyPathEncodes(img, table, slot, path, m);
    LinkedIsPrefix(img, table + 4 + 12 * slot, 12, 8, path, entries);
    var e := entries[|entries| - 1];
    assert e == path[|entries| - 1];
  }

  lemma HeldKeyHasEntry(img: seq<byte>, table: int, m: map<int32, int>, key: int32) returns (slot: int, entries: seq<int>)
    requires EncodesKeys(img, table, m) && key in m
    ensures IsKeyEntry(img, table, slot, entries) && Int32At(img, entries[|entries| - 1]) == key
  {
    hide Int32At, IsChain, HomeSlot, IsKeyChain, IsKeyEntry;
    slot := HomeSlot(key, Capacity(img, table));
    assert KeySlotEncodes(img, table, slot, m);
    var path: seq<int> :| KeyPathEncodes(img, table, slot, path, m);
    var e :| e in path && Int32At(img, e) == key;
    var i :| 0 <= i < |path| && path[i] == e;
    entries := path[..i + 1];
    EntryOfPath(img, table, m, slot, path, i);
  }

  lemma EntryOfPath(img: seq<byte>, table: int, m: map<int32, int>, slot: nat, path: seq<int>, i: nat)
    requires HasTable(img, table, 12) && slot < Capacity(img, table) && KeyPathEncodes(img, table, slot, path, m)
    requires i < |path| && Holds(img, path[i], 12) && HomeSlot(Int32At(img, path[i]), Capacity(img, table)) == slot
    ensures IsKeyEntry(img, table, slot, path[..i + 1])
  {
    RadixValues();
    hide Int32At, IsChain;
    ChainIsLinked(img, table + 4 + 12 * slot, 12, 8, path);
  }

  // So a key table holds a key exactly when an entry reached from the key's home slot has
  // it: the table is the one at its offset, and none before or behind it.
  lemma HomeEntry(img: seq<byte>, table: int, m: map<int32, int>, slot: int)
    requires EncodesKeys(img, table, m)
    ensures 0 <= table && table + 4 <= |img|
    ensures 0 <= slot < Int32At(img, table) ==>
              && 0 <= table + 4 + 12 * slot && table + 4 + 12 * slot + 12 <= |img|
              && var k := Int32At(img, table + 4 + 12 * slot);
                 k % 0x1_0000_0000 % Int32At(img, table) == slot ==>
                   k in m && m[k] == Int32At(img, table + 8 + 12 * slot)
  {
    if 0 <= slot < Int32At(img, table) {
      HomeIsInside(img, table, slot, KEY_TABLE_ENTRY_SIZE);
      var e := table + 4 + 12 * slot;
      if Int32At(img, e) % 0x1_0000_0000 % Int32At(img, table) == slot {
        hide Int32At, EncodesKeys;
        KeyEntryIsHeld(img, table, m, slot, [e]);
      }
    }
  }

  // ---- The name index: entries of 24 bytes behind a count of 4 at the start of the image,
  // with the hash, the offset of the name, that of the table and, at 20, the link.

  predicate IsNameEntry(img: seq<byte>, slot: int, entries: seq<int>) {
    && 4 <= |img| && 0 <= slot < Int32At(img, 0)
    && entries != [] && entries[0] == 4 + 24 * slot && Linked(img, 24, 20, entries)
    && UInt32At(img, entries[|entries| - 1]) % Int32At(img, 0) == slot
  }

  // The bytes of a string: a length in 4 bytes, and so many bytes behind it.
  predicate IsStringAt(img: seq<byte>, at: int, s: seq<byte>) {
    if at < 0 then s == []
    else
      && at + 4 <= |img| && Int32At(img, at) == |s| && at + 4 + |s| <= |img|
      && forall j | 0 <= j < |s| :: s[j] == img[at + 4 + j]
  }

  lemma StringIsRead(img: seq<byte>, at: int, s: seq<byte>)
    ensures IsStringAt(img, at, s) <==> IsString(img, at) && GetString(img, at) == s
  {
    hide Int32At;
  }

  lemma NameEntryIsHeld(img: seq<byte>, m: map<seq<byte>, int>, slot: int, entries: seq<int>, name: seq<byte>)
    requires EncodesNames(img, m) && IsNameEntry(img, slot, entries)
    requires var e := entries[|entries| - 1];
             UInt32At(img, e) == Hash(name) && IsStringAt(img, Int32At(img, e + 4), name)
    ensures name in m && m[name] == Int32At(img, entries[|entries| - 1] + 8)
  {
    hide Int32At, UInt32At, IsChain, Linked, Hash, GetString;
    assert SlotEncodes(img, slot, m);
    var path: seq<int> :| PathEncodes(img, slot, path, m);
    LinkedIsPrefix(img, 4 + 24 * slot, 24, 20, path, entries);
    var e := entries[|entries| - 1];
    assert e == path[|entries| - 1] && e in path;
    StringIsRead(img, Int32At(img, e + 4), name);
    assert IsNameOf(img, Capacity(img, 0), slot, e, name);
  }

  lemma HeldNameHasEntry(img: seq<byte>, m: map<seq<byte>, int>, name: seq<byte>) returns (slot: int, entries: seq<int>)
    requires EncodesNames(img, m) && name in m
    ensures IsNameEntry(img, slot, entries)
    ensures var e := entries[|entries| - 1];
            UInt32At(img, e) == Hash(name) && IsStringAt(img, Int32At(img, e + 4), name)
  {
    hide Int32At, UInt32At, IsChain, Hash, GetString;
    slot := Hash(name) % Capacity(img, 0);
    assert SlotEncodes(img, slot, m);
    var path: seq<int> :| PathEncodes(img, slot, path, m);
    var e :| e in path && IsNameOf(img, Capacity(img, 0), slot, e, name);
    var i :| 0 <= i < |path| && path[i] == e;
    entries := path[..i + 1];
    ChainIsLinked(img, 4 + 24 * slot, 24, 20, path);
    StringIsRead(img, Int32At(img, e + 4), name);
  }

  // The hash of a name, character by character.
  lemma HashOfTwo(a: byte, b: byte)
    ensures Hash([]) == 0 && Hash([a]) == a && Hash([a, b]) == 31 * a + b
  {
    RadixValues();
    assert [a][..0] == [] && [a, b][..1] == [a];
    assert Polynomial([a]) == a && Polynomial([a, b]) == 31 * a + b;
    WrapSmall(0, 4);
    WrapSmall(a, 4);
    WrapSmall(31 * a + b, 4);
  }
}
