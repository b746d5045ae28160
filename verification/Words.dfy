// The sixteen-bit words of the memory and the bit fields of an object-table word.
module Words {

  type Word = x: int | 0 <= x < 65536
  type Byte = x: int | 0 <= x < 256
  type Nibble = x: int | 0 <= x < 16
  type Bit = x: int | 0 <= x < 2

  const SEGMENT_COUNT := 16
  const SEGMENT_SIZE := 65536
  const HEAP_SEGMENT_COUNT := SEGMENT_COUNT - 1
  const OBJECT_TABLE_SIZE := SEGMENT_SIZE - 2
  const HUGE_SIZE := 256
  const BIG_SIZE := 20
  const HEADER_SIZE := 2
  const HEAP_SPACE_STOP := SEGMENT_SIZE - (BIG_SIZE + 1) - 1
  const FIRST_FREE_CHUNK_LIST := HEAP_SPACE_STOP + 1
  const HEAP_WORDS := HEAP_SEGMENT_COUNT * SEGMENT_SIZE
  const NON_POINTER: Word := 65535
  const NIL_POINTER: Word := 2
  const CLASS_COMPILED_METHOD: Word := 34
  const STUCK: Byte := 128

  function Pow2(n: nat): (r: nat)
    ensures r > 0
  {
    if n == 0 then 1 else 2 * Pow2(n - 1)
  }

  // The field of w from bit `first` to bit `last`; bit 0 is the most significant.
  function Bits(w: Word, first: nat, last: nat): nat
    requires first <= last < 16
  {
    (w / Pow2(15 - last)) % Pow2(last - first + 1)
  }

  // w with that field cleared and v placed in it.
  function BitsPut(w: Word, first: nat, last: nat, v: nat): int
    requires first <= last < 16
  {
    w - Bits(w, first, last) * Pow2(15 - last) + v * Pow2(15 - last)
  }

  // An object-table entry: the fields of its first word, and its second word (the location).
  // Bit 11 of the first word belongs to no field.
  datatype Entry = Entry(count: Byte, odd: Bit, pointer: Bit, free: Bit, spare: Bit, segment: Nibble, location: Word)

  function Pack(e: Entry): Word {
    e.count * 256 + e.odd * 128 + e.pointer * 64 + e.free * 32 + e.spare * 16 + e.segment
  }

  function Unpack(w: Word, location: Word): Entry {
    Entry(w / 256, w / 128 % 2, w / 64 % 2, w / 32 % 2, w / 16 % 2, w % 16, location)
  }

  lemma {:induction false} PackUnpack(w: Word, location: Word)
    ensures Pack(Unpack(w, location)) == w
  {
    Halve(w, 128);
    Halve(w, 64);
    Halve(w, 32);
    Halve(w, 16);
  }

  lemma {:induction false} UnpackPacked(e: Entry)
    ensures Unpack(Pack(e), e.location) == e
  {
    var low32 := e.spare * 16 + e.segment;
    var low64 := e.free * 32 + low32;
    var low128 := e.pointer * 64 + low64;
    Drop(e.count, e.odd * 128 + low128, 256);
    Drop(e.count * 2 + e.odd, low128, 128);
    Keep(e.count, e.odd, 2);
    Drop(e.count * 4 + e.odd * 2 + e.pointer, low64, 64);
    Keep(e.count * 2 + e.odd, e.pointer, 2);
    Drop(e.count * 8 + e.odd * 4 + e.pointer * 2 + e.free, low32, 32);
    Keep(e.count * 4 + e.odd * 2 + e.pointer, e.free, 2);
    Drop(Pack(e) / 32 * 2 + e.spare, e.segment, 16);
    Keep(Pack(e) / 32, e.spare, 2);
    Keep(Pack(e) / 16, e.segment, 16);
  }

  lemma {:induction false} Halve(w: Word, n: nat)
    requires n in {16, 32, 64, 128}
    ensures w / n == w / (2 * n) * 2 + w / n % 2
  {
  }

  // Division by a power of two drops what lies below it.
  lemma {:induction false} Drop(high: nat, low: nat, n: nat)
    requires n in {1, 16, 32, 64, 128, 256} && low < n
    ensures (high * n + low) / n == high
  {
    if n == 16 {
    } else if n == 32 {
    } else if n == 64 {
    } else if n == 128 {
    } else if n == 256 {
    }
  }

  // The remainder is what lies below it.
  lemma {:induction false} Keep(high: nat, low: nat, n: nat)
    requires n in {2, 16, 256} && low < n
    ensures (high * n + low) % n == low
  {
    if n == 2 {
    } else if n == 16 {
    }
  }

  lemma {:induction false} Powers()
    ensures Pow2(0) == 1 && Pow2(1) == 2 && Pow2(3) == 8 && Pow2(4) == 16 && Pow2(5) == 32
    ensures Pow2(6) == 64 && Pow2(7) == 128 && Pow2(8) == 256
  {
    assert Pow2(1) == 2 && Pow2(2) == 4 && Pow2(3) == 8 && Pow2(4) == 16;
    assert Pow2(5) == 32 && Pow2(6) == 64 && Pow2(7) == 128 && Pow2(8) == 256;
  }

  // Bits first..last of a word that is `high`, then the field, then `low`.
  lemma {:induction false} FieldIs(high: nat, field: nat, low: nat, first: nat, last: nat, w: Word)
    requires first <= last < 16 && (first, last) in {(0, 7), (8, 8), (9, 9), (10, 10), (12, 15)}
    requires field < Pow2(last - first + 1) && low < Pow2(15 - last)
    requires w == (high * Pow2(last - first + 1) + field) * Pow2(15 - last) + low
    ensures Bits(w, first, last) == field
  {
    Powers();
    Drop(high * Pow2(last - first + 1) + field, low, Pow2(15 - last));
    Keep(high, field, Pow2(last - first + 1));
  }

  // Reading a field of a packed entry gives that field.
  lemma {:induction false} FieldsOfPacked(e: Entry)
    ensures Bits(Pack(e), 0, 7) == e.count
    ensures Bits(Pack(e), 8, 8) == e.odd
    ensures Bits(Pack(e), 9, 9) == e.pointer
    ensures Bits(Pack(e), 10, 10) == e.free
    ensures Bits(Pack(e), 12, 15) == e.segment
  {
    Powers();
    var low32 := e.spare * 16 + e.segment;
    var low64 := e.free * 32 + low32;
    var low128 := e.pointer * 64 + low64;
    FieldIs(0, e.count, e.odd * 128 + low128, 0, 7, Pack(e));
    FieldIs(e.count, e.odd, low128, 8, 8, Pack(e));
    FieldIs(e.count * 2 + e.odd, e.pointer, low64, 9, 9, Pack(e));
    FieldIs(e.count * 4 + e.odd * 2 + e.pointer, e.free, low32, 10, 10, Pack(e));
    FieldIs(Pack(e) / 16, e.segment, 0, 12, 15, Pack(e));
  }

  // Writing a field of a packed entry changes that field and nothing else.
  lemma {:induction false} PutFieldOfPacked(e: Entry, count: Byte, bit: Bit, segment: Nibble)
    ensures BitsPut(Pack(e), 0, 7, count) == Pack(e.(count := count))
    ensures BitsPut(Pack(e), 8, 8, bit) == Pack(e.(odd := bit))
    ensures BitsPut(Pack(e), 9, 9, bit) == Pack(e.(pointer := bit))
    ensures BitsPut(Pack(e), 10, 10, bit) == Pack(e.(free := bit))
    ensures BitsPut(Pack(e), 12, 15, segment) == Pack(e.(segment := segment))
  {
    FieldsOfPacked(e);
    Powers();
  }

  // The segment comes last in the packed form.
  lemma {:induction false} SegmentLast(e: Entry)
    ensures Pack(e) % 16 == e.segment
    ensures Pack(e) / 16 == e.count * 16 + e.odd * 8 + e.pointer * 4 + e.free * 2 + e.spare
  {
    Keep(e.count * 16 + e.odd * 8 + e.pointer * 4 + e.free * 2 + e.spare, e.segment, 16);
    Drop(e.count * 16 + e.odd * 8 + e.pointer * 4 + e.free * 2 + e.spare, e.segment, 16);
  }
}
