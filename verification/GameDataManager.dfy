/** Packed game data: two kinds of hash table with chaining, looked up in the raw bytes of a
    mapped file. Nothing here writes such a file; `EncodesNames` and `EncodesKeys` say what
    the bytes must be. */
module GameDataManager {
  import opened Bytes
  import opened Options
  import opened RawImage

  const INVALID_OFFSET := -1
  const STR_COUNT_SIZE: nat := 4
  const TABLE_CAPACITY_SIZE: nat := 4
  const INFO_TABLE_ENTRY_SIZE: nat := 24
  const KEY_TABLE_ENTRY_SIZE: nat := 12

  // ---- The hash.

  // The bytes as the coefficients of a polynomial in 31.
  function Polynomial(bytes: seq<byte>): nat {
    if bytes == [] then 0 else 31 * Polynomial(bytes[..|bytes| - 1]) + bytes[|bytes| - 1]
  }

  function Hash(bytes: seq<byte>): (h: uint32) {
    RadixValues();
    Wrap(Polynomial(bytes), 4)
  }

  function Power31(n: nat): nat {
    if n == 0 then 1 else 31 * Power31(n - 1)
  }

  lemma HashStep(bytes: seq<byte>, b: byte)
    ensures Hash(bytes + [b]) == Wrap(Hash(bytes) * 31 + b, 4)
  {
    assert (bytes + [b])[..|bytes|] == bytes;
    WrapProduct(Polynomial(bytes), 31, b);
  }

  // Cutting a factor to 32 bits first does not change the outcome.
  lemma WrapProduct(x: nat, factor: nat, rest: nat)
    ensures Wrap(x * factor + rest, 4) == Wrap(Wrap(x, 4) * factor + rest, 4)
  {
    var m := Radix(4);
    var q, r := x / m, Wrap(x, 4);
    Split(x, m);
    Regroup(q, m, r, factor);
    WrapCongruent(r * factor + rest, q * factor, 4);
  }

  lemma Split(x: nat, m: nat)
    requires m > 0
    ensures x == x / m * m + x % m
  {
  }

  lemma Regroup(q: nat, m: nat, r: nat, factor: nat)
    ensures (q * m + r) * factor == r * factor + q * factor * m
  {
  }

  method BkdrHash(bytes: seq<byte>) returns (hash: uint32)
    ensures hash == Hash(bytes)
  {
    RadixValues();
    hash := 0;
    for i := 0 to |bytes|
      invariant hash == Hash(bytes[..i])
    {
      HashStep(bytes[..i], bytes[i]);
      assert bytes[..i + 1] == bytes[..i] + [bytes[i]];
      hash := Wrap(hash * 31 + bytes[i], 4);
    }
    assert bytes[..|bytes|] == bytes;
  }

  lemma {:induction false} PolynomialOfConcat(a: seq<byte>, b: seq<byte>)
    ensures Polynomial(a + b) == Polynomial(a) * Power31(|b|) + Polynomial(b)
  {
    if b == [] {
      assert a + b == a;
    } else {
      var c := b[..|b| - 1];
      assert (a + b)[..|a + b| - 1] == a + c;
      PolynomialOfConcat(a, c);
      Horner(Polynomial(a), Power31(|c|), Polynomial(c), b[|b| - 1]);
    }
  }

  lemma Horner(x: nat, p: nat, c: nat, last: nat)
    ensures 31 * (x * p + c) + last == x * (31 * p) + (31 * c + last)
  {
    assert 31 * (x * p) == x * (31 * p);
  }

  // The hash of a concatenation, from the hashes of its parts.
  lemma HashOfConcat(a: seq<byte>, b: seq<byte>)
    ensures Hash(a + b) == Wrap(Hash(a) * Power31(|b|) + Hash(b), 4)
  {
    RadixValues();
    PolynomialOfConcat(a, b);
    hide Wrap, Polynomial, Power31;
    var p, x := Polynomial(b), Hash(a) * Power31(|b|);
    WrapProduct(Polynomial(a), Power31(|b|), p);
    WrapProduct(p, 1, x);
    assert p * 1 + x == x + p && Wrap(p, 4) * 1 + x == x + Wrap(p, 4);
  }

  // ---- Chains of entries.

  // The offsets met from `at` on, following the link at `nextField` of each entry; None if
  // more than `fuel` entries follow, or one lies outside the image.
  function Chain(img: seq<byte>, at: int, size: nat, nextField: nat, fuel: nat): Option<seq<int>>
    requires nextField + 4 <= size
    decreases fuel
  {
    if at <= INVALID_OFFSET then Some([])
    else if fuel == 0 || !Holds(img, at, size) then None
    else match Chain(img, Int32At(img, at + nextField), size, nextField, fuel - 1)
      case None => None
      case Some(rest) => Some([at] + rest)
  }

  // The chain from `at` ends, inside the image all the way, with these offsets.
  ghost predicate IsChain(img: seq<byte>, at: int, size: nat, nextField: nat, path: seq<int>)
    requires nextField + 4 <= size
  {
    exists fuel: nat :: Chain(img, at, size, nextField, fuel) == Some(path)
  }

  lemma ChainStep(img: seq<byte>, at: int, size: nat, nextField: nat, path: seq<int>)
    requires nextField + 4 <= size && IsChain(img, at, size, nextField, path)
    ensures at > INVALID_OFFSET <==> path != []
    ensures path != [] ==>
              && path[0] == at && Holds(img, at, size)
              && IsChain(img, Int32At(img, at + nextField), size, nextField, path[1..])
  {
    var fuel: nat :| Chain(img, at, size, nextField, fuel) == Some(path);
    if path != [] {
      assert Chain(img, Int32At(img, at + nextField), size, nextField, fuel - 1) == Some(path[1..]);
    }
  }

  lemma {:induction false} ChainIsUnique(img: seq<byte>, at: int, size: nat, nextField: nat, p: seq<int>, q: seq<int>)
    requires nextField + 4 <= size
    requires IsChain(img, at, size, nextField, p) && IsChain(img, at, size, nextField, q)
    ensures p == q
    decreases |p|
  {
    ChainStep(img, at, size, nextField, p);
    ChainStep(img, at, size, nextField, q);
    if p != [] {
      ChainIsUnique(img, Int32At(img, at + nextField), size, nextField, p[1..], q[1..]);
      assert p == [p[0]] + p[1..] && q == [q[0]] + q[1..];
    }
  }

  lemma {:induction false} ChainSuffix(img: seq<byte>, at: int, size: nat, nextField: nat, path: seq<int>, i: nat)
    requires nextField + 4 <= size && IsChain(img, at, size, nextField, path) && i < |path|
    ensures IsChain(img, path[i], size, nextField, path[i..])
    decreases i
  {
    ChainStep(img, at, size, nextField, path);
    if i > 0 {
      ChainSuffix(img, Int32At(img, at + nextField), size, nextField, path[1..], i - 1);
      assert path[1..][i - 1..] == path[i..];
    } else {
      assert path[0..] == path;
    }
  }

  // A chain that ends meets no offset twice: the requirement on the links is that they form
  // no cycle.
  lemma ChainIsAcyclic(img: seq<byte>, at: int, size: nat, nextField: nat, path: seq<int>, i: nat, j: nat)
    requires nextField + 4 <= size && IsChain(img, at, size, nextField, path) && i < j < |path|
    ensures path[i] != path[j]
  {
    ChainSuffix(img, at, size, nextField, path, i);
    ChainSuffix(img, at, size, nextField, path, j);
    if path[i] == path[j] {
      ChainIsUnique(img, path[i], size, nextField, path[i..], path[j..]);
    }
  }

  // ---- Table names.

  // An offset of no string, or of a string inside the image.
  predicate IsString(img: seq<byte>, at: int) {
    at <= INVALID_OFFSET ||
    (Holds(img, at, STR_COUNT_SIZE) && 0 <= Int32At(img, at) && Holds(img, at + STR_COUNT_SIZE, Int32At(img, at)))
  }

  function GetString(img: seq<byte>, at: int): seq<byte>
    requires IsString(img, at)
  {
    if at <= INVALID_OFFSET then [] else img[at + STR_COUNT_SIZE..at + STR_COUNT_SIZE + Int32At(img, at)]
  }

  const NAME_OFFSET_FIELD: nat := 4
  const TABLE_OFFSET_FIELD: nat := 8
  const NEXT_TABLE_FIELD: nat := 20

  function Capacity(img: seq<byte>, at: int): int32
    requires Holds(img, at, TABLE_CAPACITY_SIZE)
  {
    Int32At(img, at)
  }

  // A header and that many home entries, in an image small enough for int32 offsets.
  predicate HasTable(img: seq<byte>, at: int, entrySize: nat) {
    && |img| < 0x8000_0000
    && Holds(img, at, TABLE_CAPACITY_SIZE) && Capacity(img, at) > 0
    && Holds(img, at, TABLE_CAPACITY_SIZE + Capacity(img, at) * entrySize)
  }

  function HomeOffset(at: int, slot: nat, entrySize: nat): int {
    at + TABLE_CAPACITY_SIZE + slot * entrySize
  }

  lemma HomeIsInside(img: seq<byte>, at: int, slot: nat, entrySize: nat)
    requires HasTable(img, at, entrySize) && slot < Capacity(img, at)
    ensures 0 <= HomeOffset(at, slot, entrySize) && HomeOffset(at, slot, entrySize) + entrySize <= |img|
  {
    ProductBelow(slot, Capacity(img, at), entrySize);
  }

  lemma ProductBelow(slot: nat, capacity: nat, entrySize: nat)
    requires slot < capacity
    ensures slot * entrySize + entrySize <= capacity * entrySize
  {
    var rest := capacity - slot - 1;
    assert capacity * entrySize == slot * entrySize + entrySize + rest * entrySize;
  }

  ghost predicate IsInfoChain(img: seq<byte>, slot: nat, path: seq<int>) {
    IsChain(img, HomeOffset(0, slot, INFO_TABLE_ENTRY_SIZE), INFO_TABLE_ENTRY_SIZE, NEXT_TABLE_FIELD, path)
  }

  // A name is read of the entries whose stored hash is at home in this slot, and of no
  // other: not of an unused slot, and not of an entry of another home.
  predicate MayBeRead(img: seq<byte>, capacity: nat, slot: nat, e: int)
    requires capacity > 0 && Holds(img, e, INFO_TABLE_ENTRY_SIZE)
  {
    UInt32At(img, e) % capacity == slot
  }

  // The entry at e is this name's, its stored hash that of the name.
  predicate IsNameOf(img: seq<byte>, capacity: nat, slot: nat, e: int, name: seq<byte>)
    requires capacity > 0 && Holds(img, e, INFO_TABLE_ENTRY_SIZE)
    requires MayBeRead(img, capacity, slot, e) ==> IsString(img, Int32At(img, e + NAME_OFFSET_FIELD))
  {
    && MayBeRead(img, capacity, slot, e)
    && GetString(img, Int32At(img, e + NAME_OFFSET_FIELD)) == name
    && UInt32At(img, e) == Hash(name)
  }

  ghost predicate GoodInfoChain(img: seq<byte>, capacity: nat, slot: nat, path: seq<int>)
    requires capacity > 0
  {
    forall e <- path ::
      && Holds(img, e, INFO_TABLE_ENTRY_SIZE)
      && (MayBeRead(img, capacity, slot, e) ==> IsString(img, Int32At(img, e + NAME_OFFSET_FIELD)))
  }

  // The image holds exactly the tables of m: every chain ends inside the image, what a slot
  // carries under its own names agrees with m, and every name of m is in its slot's chain.
  ghost predicate EncodesNames(img: seq<byte>, m: map<seq<byte>, int>) {
    && HasTable(img, 0, INFO_TABLE_ENTRY_SIZE)
    && forall slot | 0 <= slot < Capacity(img, 0) :: SlotEncodes(img, slot, m)
  }

  ghost predicate SlotEncodes(img: seq<byte>, slot: nat, m: map<seq<byte>, int>)
    requires HasTable(img, 0, INFO_TABLE_ENTRY_SIZE)
  {
    exists path: seq<int> :: PathEncodes(img, slot, path, m)
  }

  ghost predicate PathEncodes(img: seq<byte>, slot: nat, path: seq<int>, m: map<seq<byte>, int>)
    requires HasTable(img, 0, INFO_TABLE_ENTRY_SIZE)
  {
    && IsInfoChain(img, slot, path) && GoodInfoChain(img, Capacity(img, 0), slot, path)
    && (forall e <- path, name: seq<byte> ::
          IsNameOf(img, Capacity(img, 0), slot, e, name) ==>
            name in m && m[name] == Int32At(img, e + TABLE_OFFSET_FIELD))
    && (forall name <- m :: Hash(name) % Capacity(img, 0) == slot ==>
          exists e <- path :: IsNameOf(img, Capacity(img, 0), slot, e, name))
  }

  // Lookup by table name agrees with the map, hash collisions and chains that run through
  // entries of other homes included.
  method GetKeyTableOffset(img: seq<byte>, tableName: seq<byte>, ghost m: map<seq<byte>, int>) returns (found: int32)
    requires EncodesNames(img, m)
    ensures found == if tableName in m then m[tableName] else INVALID_OFFSET
  {
    var hash := BkdrHash(tableName);
    hide Hash, Value, IsChain, Chain, UInt32At, Int32At, GetString;
    var capacity := Capacity(img, 0);
    var slot := hash % capacity;
    HomeIsInside(img, 0, slot, INFO_TABLE_ENTRY_SIZE);
    var offset: int32 := TABLE_CAPACITY_SIZE + slot * INFO_TABLE_ENTRY_SIZE;
    assert SlotEncodes(img, slot, m);
    ghost var path: seq<int> :| PathEncodes(img, slot, path, m);
    ghost var left := path;
    while offset > INVALID_OFFSET
      invariant IsChain(img, offset, INFO_TABLE_ENTRY_SIZE, NEXT_TABLE_FIELD, left)
      invariant forall e <- left :: e in path
      invariant forall e <- path :: IsNameOf(img, capacity, slot, e, tableName) ==> e in left
      decreases |left|
    {
      ChainStep(img, offset, INFO_TABLE_ENTRY_SIZE, NEXT_TABLE_FIELD, left);
      assert offset in left;
      if hash == UInt32At(img, offset) {
        var strOffset := Int32At(img, offset + NAME_OFFSET_FIELD);
        if tableName == GetString(img, strOffset) {
          assert IsNameOf(img, capacity, slot, offset, tableName);
          return Int32At(img, offset + TABLE_OFFSET_FIELD);
        }
      }
      offset := Int32At(img, offset + NEXT_TABLE_FIELD);
      left := left[1..];
    }
    ChainStep(img, offset, INFO_TABLE_ENTRY_SIZE, NEXT_TABLE_FIELD, left);
    return INVALID_OFFSET;
  }

  // An image holds one map of tables, not two.
  lemma NamesAreDetermined(img: seq<byte>, m: map<seq<byte>, int>, m': map<seq<byte>, int>)
    requires EncodesNames(img, m) && EncodesNames(img, m')
    ensures m == m'
  {
    NamesAgree(img, m, m');
    NamesAgree(img, m', m);
    assert m.Keys == m'.Keys;
  }

  lemma NamesAgree(img: seq<byte>, m: map<seq<byte>, int>, m': map<seq<byte>, int>)
    requires EncodesNames(img, m) && EncodesNames(img, m')
    ensures forall name <- m :: name in m' && m'[name] == m[name]
  {
    hide Hash, IsChain, Int32At, UInt32At, GetString;
    forall name | name in m ensures name in m' && m'[name] == m[name] {
      var slot := Hash(name) % Capacity(img, 0);
      assert SlotEncodes(img, slot, m) && SlotEncodes(img, slot, m');
      var path: seq<int> :| PathEncodes(img, slot, path, m);
      var path': seq<int> :| PathEncodes(img, slot, path', m');
      ChainIsUnique(img, HomeOffset(0, slot, INFO_TABLE_ENTRY_SIZE), INFO_TABLE_ENTRY_SIZE, NEXT_TABLE_FIELD, path, path');
    }
  }

  // ---- Keys.

  const DATA_OFFSET_FIELD: nat := 4
  const NEXT_KEY_FIELD: nat := 8

  // The home of a key, through the unsigned remainder.
  function HomeSlot(key: int32, capacity: nat): (slot: nat)
    requires capacity > 0
    ensures slot < capacity
  {
    Wrap(key, 4) % capacity
  }

  ghost predicate IsKeyChain(img: seq<byte>, table: int, slot: nat, path: seq<int>) {
    IsChain(img, HomeOffset(table, slot, KEY_TABLE_ENTRY_SIZE), KEY_TABLE_ENTRY_SIZE, NEXT_KEY_FIELD, path)
  }

  ghost predicate EncodesKeys(img: seq<byte>, table: int, m: map<int32, int>) {
    && HasTable(img, table, KEY_TABLE_ENTRY_SIZE)
    && forall slot | 0 <= slot < Capacity(img, table) :: KeySlotEncodes(img, table, slot, m)
  }

  ghost predicate KeySlotEncodes(img: seq<byte>, table: int, slot: nat, m: map<int32, int>)
    requires HasTable(img, table, KEY_TABLE_ENTRY_SIZE)
  {
    exists path: seq<int> :: KeyPathEncodes(img, table, slot, path, m)
  }

  // An entry counts for the slot that is its key's home; an unused slot must hold a key of
  // another home, or one that m has with this very data.
  ghost predicate KeyPathEncodes(img: seq<byte>, table: int, slot: nat, path: seq<int>, m: map<int32, int>)
    requires HasTable(img, table, KEY_TABLE_ENTRY_SIZE)
  {
    && IsKeyChain(img, table, slot, path)
    && (forall e <- path :: Holds(img, e, KEY_TABLE_ENTRY_SIZE))
    && (forall e <- path :: HomeSlot(Int32At(img, e), Capacity(img, table)) == slot ==>
          Int32At(img, e) in m && m[Int32At(img, e)] == Int32At(img, e + DATA_OFFSET_FIELD))
    && (forall key <- m :: HomeSlot(key, Capacity(img, table)) == slot ==>
          exists e <- path :: Int32At(img, e) == key)
  }

  // The data offset of a key, or None for the null pointer: lookup by key agrees with the
  // map, negative keys included.
  method GetDataPointer(img: seq<byte>, keyTableOffset: int32, key: int32, ghost m: map<int32, int>)
    returns (data: Option<int>)
    requires EncodesKeys(img, keyTableOffset, m)
    ensures data == if key in m then Some(m[key]) else None
  {
    hide Value, IsChain, Chain, UInt32At, Int32At, Wrap;
    var capacity := Capacity(img, keyTableOffset);
    var slot := HomeSlot(key, capacity);
    HomeIsInside(img, keyTableOffset, slot, KEY_TABLE_ENTRY_SIZE);
    var offset: int32 := keyTableOffset + TABLE_CAPACITY_SIZE + slot * KEY_TABLE_ENTRY_SIZE;
    assert KeySlotEncodes(img, keyTableOffset, slot, m);
    ghost var path: seq<int> :| KeyPathEncodes(img, keyTableOffset, slot, path, m);
    hide HomeSlot;
    ghost var left := path;
    while offset > INVALID_OFFSET
      invariant IsChain(img, offset, KEY_TABLE_ENTRY_SIZE, NEXT_KEY_FIELD, left)
      invariant forall e <- left :: e in path
      invariant forall e <- path :: Int32At(img, e) == key ==> e in left
      decreases |left|
    {
      ChainStep(img, offset, KEY_TABLE_ENTRY_SIZE, NEXT_KEY_FIELD, left);
      assert offset in left;
      if key == Int32At(img, offset) {
        return Some(Int32At(img, offset + DATA_OFFSET_FIELD));
      }
      offset := Int32At(img, offset + NEXT_KEY_FIELD);
      left := left[1..];
    }
    ChainStep(img, offset, KEY_TABLE_ENTRY_SIZE, NEXT_KEY_FIELD, left);
    return None;
  }

  // A key table holds one map, not two.
  lemma KeysAreDetermined(img: seq<byte>, table: int, m: map<int32, int>, m': map<int32, int>)
    requires EncodesKeys(img, table, m) && EncodesKeys(img, table, m')
    ensures m == m'
  {
    KeysAgree(img, table, m, m');
    KeysAgree(img, table, m', m);
    assert m.Keys == m'.Keys;
  }

  lemma KeysAgree(img: seq<byte>, table: int, m: map<int32, int>, m': map<int32, int>)
    requires EncodesKeys(img, table, m) && EncodesKeys(img, table, m')
    ensures forall key <- m :: key in m' && m'[key] == m[key]
  {
    hide HomeSlot, IsChain, Int32At;
    forall key | key in m ensures key in m' && m'[key] == m[key] {
      var slot := HomeSlot(key, Capacity(img, table));
      assert KeySlotEncodes(img, table, slot, m) && KeySlotEncodes(img, table, slot, m');
      var path: seq<int> :| KeyPathEncodes(img, table, slot, path, m);
      var path': seq<int> :| KeyPathEncodes(img, table, slot, path', m');
      ChainIsUnique(img, HomeOffset(table, slot, KEY_TABLE_ENTRY_SIZE), KEY_TABLE_ENTRY_SIZE, NEXT_KEY_FIELD, path, path');
      var e :| e in path && Int32At(img, e) == key;
      assert m[Int32At(img, e)] == Int32At(img, e + DATA_OFFSET_FIELD) == m'[Int32At(img, e)];
    }
  }

  // ---- Images that meet these conditions.

  // An image written word by word.
  function Words(ws: seq<int32>): (img: seq<byte>)
    ensures |img| == 4 * |ws|
  {
    if ws == [] then [] else FixedInt(ws[0], 4) + Words(ws[1..])
  }

  lemma {:induction false} WordAt(ws: seq<int32>, i: nat)
    requires i < |ws|
    ensures Int32At(Words(ws), 4 * i) == ws[i]
  {
    RadixValues();
    var img := Words(ws);
    if i == 0 {
      assert img[0..4] == FixedInt(ws[0], 4);
      ValueOfLittleEndian(Wrap(ws[0], 4), 4);
      SignedOfWrap(ws[0], 4);
    } else {
      assert img[4 * i..4 * i + 4] == Words(ws[1..])[4 * (i - 1)..4 * (i - 1) + 4];
      WordAt(ws[1..], i - 1);
    }
  }

  // A key table with two home slots. Key 4 is at home in slot 0; key -2, of the same home,
  // lies behind it in the entry of slot 1, whose own chain carries no key of its own.
  const SAMPLE_TABLE: seq<int32> := [2, 4, 100, 16, -2, 200, -1]

  lemma SampleChains(img: seq<byte>)
    requires |img| == 28 && Int32At(img, 12) == 16 && Int32At(img, 24) == -1
    ensures IsKeyChain(img, 0, 0, [4, 16]) && IsKeyChain(img, 0, 1, [16])
  {
    hide Int32At;
    assert [16] + [] == [16] && [4] + [16] == [4, 16];
    assert Chain(img, -1, 12, 8, 0) == Some([]);
    assert Chain(img, 16, 12, 8, 1) == Some([16]);
    assert Chain(img, 4, 12, 8, 2) == Some([4, 16]);
  }

  // The words of such a table.
  ghost predicate TableWords(img: seq<byte>) {
    && |img| == 28 && Int32At(img, 0) == 2
    && Int32At(img, 4) == 4 && Int32At(img, 8) == 100 && Int32At(img, 12) == 16
    && Int32At(img, 16) == -2 && Int32At(img, 20) == 200 && Int32At(img, 24) == -1
  }

  lemma SlotsEncode(img: seq<byte>)
    requires TableWords(img)
    ensures HasTable(img, 0, KEY_TABLE_ENTRY_SIZE) && Capacity(img, 0) == 2
    ensures KeyPathEncodes(img, 0, 0, [4, 16], map[4 := 100, -2 := 200])
    ensures KeyPathEncodes(img, 0, 1, [16], map[4 := 100, -2 := 200])
  {
    RadixValues();
    SampleChains(img);
    assert HomeSlot(4, 2) == 0 && HomeSlot(-2, 2) == 0;
    hide Int32At, IsKeyChain, HomeSlot;
    assert [4, 16][0] == 4 && [4, 16][1] == 16 && [16][0] == 16;
  }

  lemma WordsEncode(img: seq<byte>)
    requires TableWords(img)
    ensures EncodesKeys(img, 0, map[4 := 100, -2 := 200])
  {
    SlotsEncode(img);
    hide Int32At, KeyPathEncodes, HasTable, Capacity;
  }

  // The conditions on a table can be met, by a chain that runs through the entry of
  // another slot.
  lemma SampleEncodes()
    ensures EncodesKeys(Words(SAMPLE_TABLE), 0, map[4 := 100, -2 := 200])
  {
    WordAt(SAMPLE_TABLE, 0);
    WordAt(SAMPLE_TABLE, 1);
    WordAt(SAMPLE_TABLE, 2);
    WordAt(SAMPLE_TABLE, 3);
    WordAt(SAMPLE_TABLE, 4);
    WordAt(SAMPLE_TABLE, 5);
    WordAt(SAMPLE_TABLE, 6);
    hide Int32At, EncodesKeys, Words;
    WordsEncode(Words(SAMPLE_TABLE));
  }

  // An index of two tables, "a" and "c", whose hashes 97 and 99 are both at home in slot 1.
  // The entry of "c" takes the place of slot 0, where it is foreign.
  const SAMPLE_INDEX: seq<int32> :=
    [2, 99, 60, 200, 0, 0, -1, 97, 52, 100, 0, 0, 4, 1, 97, 1, 99]

  const A: seq<byte> := [97]
  const C: seq<byte> := [99]

  // The words of such an index.
  ghost predicate IndexWords(img: seq<byte>) {
    && |img| == 68 && Int32At(img, 0) == 2
    && Int32At(img, 4) == 99 && Int32At(img, 8) == 60 && Int32At(img, 12) == 200 && Int32At(img, 24) == -1
    && Int32At(img, 28) == 97 && Int32At(img, 32) == 52 && Int32At(img, 36) == 100 && Int32At(img, 48) == 4
    && Int32At(img, 52) == 1 && Int32At(img, 56) == 97 && Int32At(img, 60) == 1 && Int32At(img, 64) == 99
  }

  lemma SampleIndexWords()
    ensures IndexWords(Words(SAMPLE_INDEX))
  {
    hide Words, Int32At;
    WordAt(SAMPLE_INDEX, 0);
    WordAt(SAMPLE_INDEX, 1);
    WordAt(SAMPLE_INDEX, 2);
    WordAt(SAMPLE_INDEX, 3);
    WordAt(SAMPLE_INDEX, 6);
    WordAt(SAMPLE_INDEX, 7);
    WordAt(SAMPLE_INDEX, 8);
    WordAt(SAMPLE_INDEX, 9);
    WordAt(SAMPLE_INDEX, 12);
    WordAt(SAMPLE_INDEX, 13);
    WordAt(SAMPLE_INDEX, 14);
    WordAt(SAMPLE_INDEX, 15);
    WordAt(SAMPLE_INDEX, 16);
  }

  lemma FirstByte(img: seq<byte>, at: nat, b: byte)
    requires at + 4 <= |img| && Int32At(img, at) == b < 128
    ensures img[at] == b && UInt32At(img, at) == b
  {
    RadixValues();
    assert img[at..at + 4][0] == img[at];
  }

  lemma IndexChains(img: seq<byte>)
    requires IndexWords(img)
    ensures IsInfoChain(img, 0, [4]) && IsInfoChain(img, 1, [28, 4])
  {
    hide Int32At;
    assert [4] + [] == [4] && [28] + [4] == [28, 4];
    assert Chain(img, -1, 24, 20, 0) == Some([]);
    assert Chain(img, 4, 24, 20, 1) == Some([4]);
    assert Chain(img, 28, 24, 20, 2) == Some([28, 4]);
  }

  lemma IndexNames(img: seq<byte>)
    requires IndexWords(img)
    ensures IsString(img, 52) && GetString(img, 52) == A && IsString(img, 60) && GetString(img, 60) == C
    ensures UInt32At(img, 4) == 99 && UInt32At(img, 28) == 97
  {
    FirstByte(img, 4, 99);
    FirstByte(img, 28, 97);
    FirstByte(img, 56, 97);
    FirstByte(img, 64, 99);
    hide Int32At, UInt32At;
    assert img[56..57] == A && img[64..65] == C;
  }

  lemma SampleHashes()
    ensures Hash(A) == 97 && Hash(C) == 99 && A != C
  {
    RadixValues();
    assert A[..0] == [] && C[..0] == [] && A[0] != C[0];
    WrapSmall(97, 4);
    WrapSmall(99, 4);
  }

  lemma IndexSlotsEncode(img: seq<byte>)
    requires IndexWords(img)
    ensures HasTable(img, 0, INFO_TABLE_ENTRY_SIZE) && Capacity(img, 0) == 2
    ensures PathEncodes(img, 0, [4], map[A := 100, C := 200])
    ensures PathEncodes(img, 1, [28, 4], map[A := 100, C := 200])
  {
    IndexChains(img);
    IndexNames(img);
    SampleHashes();
    assert [28, 4][0] == 28 && [28, 4][1] == 4 && [4][0] == 4;
    hide Int32At, UInt32At, Hash, GetString, IsString, IsInfoChain;
    assert IsNameOf(img, 2, 1, 28, A) && IsNameOf(img, 2, 1, 4, C);
  }

  lemma IndexEncodes(img: seq<byte>)
    requires IndexWords(img)
    ensures EncodesNames(img, map[A := 100, C := 200])
  {
    IndexSlotsEncode(img);
    hide Int32At, PathEncodes, HasTable, Capacity;
  }

  lemma SampleEncodesNames()
    ensures EncodesNames(Words(SAMPLE_INDEX), map[A := 100, C := 200])
  {
    SampleIndexWords();
    hide IndexWords, EncodesNames, Words;
    IndexEncodes(Words(SAMPLE_INDEX));
  }
}
