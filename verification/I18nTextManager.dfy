/** Packed texts: a table of ids in order, searched by halving in the raw bytes of a mapped
    file. */
module I18nTextManager {
  import opened Bytes
  import opened Options
  import opened RawImage

  const TEXT_COUNT_SIZE: nat := 4
  const KEY_SIZE: nat := 4
  const INFO_TABLE_ENTRY_SIZE: nat := 8

  function EntryOffset(i: nat): nat {
    TEXT_COUNT_SIZE + i * INFO_TABLE_ENTRY_SIZE
  }

  predicate HasTable(img: seq<byte>) {
    && |img| < 0x8000_0000
    && Holds(img, 0, TEXT_COUNT_SIZE) && Int32At(img, 0) >= 0
    && Holds(img, 0, EntryOffset(Int32At(img, 0)))
  }

  function Count(img: seq<byte>): nat
    requires HasTable(img)
  {
    Int32At(img, 0)
  }

  function KeyAt(img: seq<byte>, i: nat): uint32
    requires HasTable(img) && i < Count(img)
  {
    UInt32At(img, EntryOffset(i))
  }

  function TextOffset(img: seq<byte>, i: nat): int32
    requires HasTable(img) && i < Count(img)
  {
    Int32At(img, EntryOffset(i) + KEY_SIZE)
  }

  predicate HasText(img: seq<byte>, at: int) {
    && Holds(img, at, TEXT_COUNT_SIZE) && Int32At(img, at) >= 0
    && Holds(img, at + TEXT_COUNT_SIZE, Int32At(img, at))
  }

  function TextAt(img: seq<byte>, at: int): seq<byte>
    requires HasText(img, at)
  {
    img[at + TEXT_COUNT_SIZE..at + TEXT_COUNT_SIZE + Int32At(img, at)]
  }

  // Ids in strictly increasing order, each with a text inside the image.
  ghost predicate IsTextTable(img: seq<byte>) {
    && HasTable(img)
    && (forall i, j | 0 <= i < j < Count(img) :: KeyAt(img, i) < KeyAt(img, j))
    && (forall i | 0 <= i < Count(img) :: HasText(img, TextOffset(img, i)))
  }

  // The text of an id by trying the entries one after the other, from entry i on.
  ghost function LinearText(img: seq<byte>, id: uint32, i: nat): seq<byte>
    requires IsTextTable(img) && i <= Count(img)
    decreases Count(img) - i
  {
    if i == Count(img) then []
    else if KeyAt(img, i) == id then TextAt(img, TextOffset(img, i))
    else LinearText(img, id, i + 1)
  }

  lemma {:induction false} LinearFinds(img: seq<byte>, id: uint32, i: nat, k: nat)
    requires IsTextTable(img) && i <= k < Count(img) && KeyAt(img, k) == id
    ensures LinearText(img, id, i) == TextAt(img, TextOffset(img, k))
    decreases k - i
  {
    hide KeyAt, TextAt, TextOffset;
    if i < k {
      LinearFinds(img, id, i + 1, k);
    }
  }

  lemma {:induction false} LinearMisses(img: seq<byte>, id: uint32, i: nat)
    requires IsTextTable(img) && i <= Count(img)
    requires forall k | i <= k < Count(img) :: KeyAt(img, k) != id
    ensures LinearText(img, id, i) == []
    decreases Count(img) - i
  {
    hide KeyAt, TextAt, TextOffset;
    if i < Count(img) {
      LinearMisses(img, id, i + 1);
    }
  }

  // The bytes of a table at their places. Behind the count of 4 bytes come entries of 8, with
  // the id and the offset of its text.
  predicate IsEntryOf(img: seq<byte>, i: int, id: uint32) {
    && 4 <= |img| && 0 <= i < Int32At(img, 0)
    && 12 + 8 * i <= |img| && UInt32At(img, 4 + 8 * i) == id
  }

  // At that offset the length of the text takes 4 bytes, and the text follows.
  predicate EntrySays(img: seq<byte>, i: int, text: seq<byte>) {
    && 0 <= i && 12 + 8 * i <= |img|
    && var o := Int32At(img, 8 + 8 * i);
       && 0 <= o && o + 4 <= |img| && |text| == Int32At(img, o) && o + 4 + |text| <= |img|
       && forall j | 0 <= j < |text| :: text[j] == img[o + 4 + j]
  }

  // The text that the entry of an id says, or none when it has no entry.
  ghost predicate IsTextOf(img: seq<byte>, id: uint32, text: seq<byte>) {
    && (forall i :: IsEntryOf(img, i, id) ==> EntrySays(img, i, text))
    && ((forall i :: !IsEntryOf(img, i, id)) ==> text == [])
  }

  lemma EntryIsKey(img: seq<byte>, i: int, id: uint32)
    requires IsTextTable(img)
    ensures IsEntryOf(img, i, id) <==> 0 <= i < Count(img) && KeyAt(img, i) == id
    ensures IsEntryOf(img, i, id) ==> EntrySays(img, i, TextAt(img, TextOffset(img, i)))
  {
    hide Int32At, UInt32At;
    if 0 <= i < Count(img) {
      assert EntryOffset(i) == 4 + 8 * i;
    }
  }

  // What the search finds is what the entries say, and they say one thing.
  lemma LinearIsTextOf(img: seq<byte>, id: uint32)
    requires IsTextTable(img)
    ensures IsTextOf(img, id, LinearText(img, id, 0))
  {
    hide Int32At, UInt32At, IsEntryOf, EntrySays, KeyAt, TextAt, TextOffset;
    forall i ensures IsEntryOf(img, i, id) ==> EntrySays(img, i, LinearText(img, id, 0)) {
      EntryIsKey(img, i, id);
      if IsEntryOf(img, i, id) {
        LinearFinds(img, id, 0, i);
      }
    }
    if forall i :: !IsEntryOf(img, i, id) {
      forall k | 0 <= k < Count(img) ensures KeyAt(img, k) != id {
        EntryIsKey(img, k, id);
      }
      LinearMisses(img, id, 0);
    }
  }

  lemma TextIsDetermined(img: seq<byte>, id: uint32, text: seq<byte>, text': seq<byte>)
    requires IsTextOf(img, id, text) && IsTextOf(img, id, text')
    ensures text == text'
  {
    hide Int32At, UInt32At, IsEntryOf;
    if i :| IsEntryOf(img, i, id) {
      assert EntrySays(img, i, text) && EntrySays(img, i, text');
    }
  }

  // The decimal digits of a number.
  function Decimal(n: nat): (s: seq<byte>)
    ensures |s| >= 1 && forall i | 0 <= i < |s| :: 48 <= s[i] <= 57
  {
    if n < 10 then [48 + n] else Decimal(n / 10) + [48 + n % 10]
  }

  // The number a row of decimal digits stands for.
  function Parse(s: seq<byte>): int {
    if s == [] then 0 else 10 * Parse(s[..|s| - 1]) + s[|s| - 1] - 48
  }

  lemma {:induction false} ParseOfDecimal(n: nat)
    ensures Parse(Decimal(n)) == n
    ensures n > 0 ==> Decimal(n)[0] != 48
  {
    if n >= 10 {
      ParseOfDecimal(n / 10);
      assert Decimal(n)[..|Decimal(n)| - 1] == Decimal(n / 10);
    } else {
      assert [48 + n as byte][..0] == [];
    }
  }

  ghost predicate OutOf(img: seq<byte>, id: uint32, from: int, to: int)
    requires HasTable(img)
  {
    forall i | 0 <= i < Count(img) && from <= i < to :: KeyAt(img, i) != id
  }

  // One step of the search: the id is not where the order of the ids excludes it.
  lemma Halved(img: seq<byte>, id: uint32, min: int, mid: int, max: int)
    requires IsTextTable(img) && 0 <= min <= mid <= max < Count(img)
    requires OutOf(img, id, 0, min) && OutOf(img, id, max + 1, Count(img))
    ensures id < KeyAt(img, mid) ==> OutOf(img, id, mid, Count(img))
    ensures id > KeyAt(img, mid) ==> OutOf(img, id, 0, mid + 1)
  {
    hide KeyAt, HasText;
  }

  lemma BeforeSearch(img: seq<byte>, id: uint32)
    requires IsTextTable(img)
    ensures HasTable(img) && 0 <= Count(img) < 0x1000_0000
    ensures OutOf(img, id, 0, 0) && OutOf(img, id, Count(img), Count(img))
  {
  }

  lemma EntryAt(img: seq<byte>, i: nat)
    requires IsTextTable(img) && i < Count(img)
    ensures Holds(img, TEXT_COUNT_SIZE + i * INFO_TABLE_ENTRY_SIZE, INFO_TABLE_ENTRY_SIZE) && |img| < 0x8000_0000
    ensures UInt32At(img, TEXT_COUNT_SIZE + i * INFO_TABLE_ENTRY_SIZE) == KeyAt(img, i)
    ensures Int32At(img, TEXT_COUNT_SIZE + i * INFO_TABLE_ENTRY_SIZE + KEY_SIZE) == TextOffset(img, i)
    ensures HasText(img, TextOffset(img, i))
  {
    hide Int32At, UInt32At;
  }

  lemma SearchEnds(img: seq<byte>, id: uint32, min: int)
    requires IsTextTable(img) && OutOf(img, id, 0, min) && OutOf(img, id, min, Count(img))
    ensures LinearText(img, id, 0) == []
  {
    hide KeyAt;
    LinearMisses(img, id, 0);
  }

  // The search: with no file mapped, the id itself in decimal; else the text that a search
  // of entry after entry finds, or none. No sum or offset leaves the range of an int32.
  method GetText(mmap: Option<seq<byte>>, id: uint32) returns (text: seq<byte>)
    requires mmap.Some? ==> IsTextTable(mmap.value)
    ensures mmap.None? ==> text == Decimal(id)
    ensures mmap.Some? ==> text == LinearText(mmap.value, id, 0) && IsTextOf(mmap.value, id, text)
  {
    if mmap.None? {
      return Decimal(id);
    }
    var img := mmap.value;
    LinearIsTextOf(img, id);
    hide UInt32At, Int32At, KeyAt, TextAt, TextOffset, HasText, LinearText, Decimal, IsTextTable, IsTextOf, IsEntryOf, EntrySays, OutOf;
    var min: int32 := 0;
    var max: int32 := Int32At(img, 0) - 1;
    BeforeSearch(img, id);
    while min <= max
      invariant 0 <= min <= max + 1 <= Count(img)
      invariant OutOf(img, id, 0, min) && OutOf(img, id, max + 1, Count(img))
      decreases max - min
    {
      var sum: int32 := min + max;
      var mid: int32 := sum / 2;
      EntryAt(img, mid);
      Halved(img, id, min, mid, max);
      var offset: int32 := TEXT_COUNT_SIZE + mid * INFO_TABLE_ENTRY_SIZE;
      var key := UInt32At(img, offset);
      if id == key {
        LinearFinds(img, id, 0, mid);
        return TextAt(img, Int32At(img, offset + KEY_SIZE));
      }

      if id < key {
        max := mid - 1;
      } else {
        min := mid + 1;
      }
    }
    SearchEnds(img, id, min);
    return [];
  }
}
