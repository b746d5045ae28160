// The segmented word memory, the object table in its last segment, and the accessors of both.
//
// `State` is the whole memory as a value: the words of the heap segments, the table with its
// bit fields unpacked, the head of the free-pointer list and the three registers.  The class ties
// its word array to a State; every accessor is specified by the State it reads or leaves.
module Memory {
  import opened Words

  // Off the table there may be any entry.
  ghost function NoEntry(): Entry {
    var e: Entry :| true;
    e
  }

  // An entry with its bits clear.
  ghost function Cleared(segment: Nibble, location: Word): Entry {
    NoEntry().(count := 0, odd := 0, pointer := 0, free := 0, spare := 0, segment := segment, location := location)
  }

  lemma {:induction false} ClearedIs(segment: Nibble, location: Word)
    ensures Cleared(segment, location) == Entry(0, 0, 0, 0, 0, segment, location)
  {
  }

  datatype State = State(words: seq<Word>, ot: seq<Entry>, freeHead: Word, currentSegment: int, freeWords: int,
                         freeOops: int)
  {
    // The table entry of p.
    ghost function E(p: int): Entry {
      if 0 <= p < |ot| then ot[p] else NoEntry()
    }
  }

  ghost predicate Shaped(s: State) {
    |s.words| == HEAP_WORDS && |s.ot| == OBJECT_TABLE_SIZE
  }

  // An object pointer that can index the table; 0 is reserved and never denotes an object.
  predicate InTable(p: int) {
    0 <= p < OBJECT_TABLE_SIZE && p % 2 == 0
  }

  predicate Oop(p: int) {
    2 <= p < OBJECT_TABLE_SIZE && p % 2 == 0
  }

  predicate IsInteger(w: int) {
    w % 2 == 1
  }

  function Address(e: Entry): nat {
    e.segment * 65536 + e.location
  }

  // Word i of e's heap chunk lies in a heap segment.
  predicate InHeap(e: Entry, i: int) {
    0 <= i && e.segment < HEAP_SEGMENT_COUNT && e.location + i < SEGMENT_SIZE
  }

  function At(words: seq<Word>, a: int): Word {
    if 0 <= a < |words| then words[a] else 0
  }

  // Word i of the chunk that e locates.
  function Chunk(words: seq<Word>, e: Entry, i: int): Word {
    At(words, Address(e) + i)
  }

  ghost function WordOf(s: State, p: int, i: int): Word
  {
    Chunk(s.words, s.E(p), i)
  }

  ghost function SizeOf(s: State, p: int): Word
  {
    WordOf(s, p, 0)
  }

  ghost function ClassOf(s: State, p: int): Word
  {
    WordOf(s, p, 1)
  }

  // The size of p up to its last pointer.
  ghost function LastPointer(s: State, p: int): Word
  {
    if s.E(p).pointer == 1 then SizeOf(s, p)
    else if ClassOf(s, p) == CLASS_COMPILED_METHOD then HEADER_SIZE + 1 + WordOf(s, p, HEADER_SIZE) % 128 / 2
    else HEADER_SIZE
  }

  // The words p occupies: its size, and one more for a pointer object too large for the count field.
  ghost function Space(s: State, p: int): nat
  {
    if SizeOf(s, p) < HUGE_SIZE || s.E(p).pointer == 0 then SizeOf(s, p) else SizeOf(s, p) + 1
  }

  function HeadAddress(size: int, segment: int): int {
    segment * 65536 + FIRST_FREE_CHUNK_LIST + size
  }

  function Put<T>(xs: seq<T>, i: int, x: T): (r: seq<T>)
    ensures |r| == |xs|
  {
    if 0 <= i < |xs| then xs[i := x] else xs
  }

  ghost function PutEntry(s: State, p: int, e: Entry): State {
    s.(ot := Put(s.ot, p, e))
  }

  ghost function PutWord(s: State, a: int, v: Word): State {
    s.(words := Put<Word>(s.words, a, v))
  }

  class ObjectMemory {
    const mem: array<Word>
    var currentSegment: int
    var freeWords: int
    var freeOops: int
    ghost var st: State

    static const OT: int := HEAP_WORDS

    // The array holds the heap segments and, in the last segment, the packed form of the table.
    ghost predicate Valid()
      reads this, mem
    {
      Shaped(st) && mem.Length == SEGMENT_COUNT * SEGMENT_SIZE &&
      (forall a {:trigger mem[a]} :: 0 <= a < HEAP_WORDS ==> mem[a] == st.words[a]) &&
      (forall p {:trigger Pack(st.ot[p])} :: 0 <= p < OBJECT_TABLE_SIZE && InTable(p) ==>
         mem[OT + p] == Pack(st.ot[p]) && mem[OT + p + 1] == st.ot[p].location) &&
      mem[OT + OBJECT_TABLE_SIZE] == st.freeHead &&
      currentSegment == st.currentSegment && freeWords == st.freeWords && freeOops == st.freeOops
    }

    // Reading the table

    method CountBitsOf(p: int) returns (r: Byte)
      requires Valid() && InTable(p)
      ensures r == st.E(p).count
    {
      FieldsOfPacked(st.ot[p]);
      r := Bits(mem[OT + p], 0, 7);
    }

    method PointerBitOf(p: int) returns (r: Bit)
      requires Valid() && InTable(p)
      ensures r == st.E(p).pointer
    {
      FieldsOfPacked(st.ot[p]);
      r := Bits(mem[OT + p], 9, 9);
    }

    method FreeBitOf(p: int) returns (r: Bit)
      requires Valid() && InTable(p)
      ensures r == st.E(p).free
    {
      FieldsOfPacked(st.ot[p]);
      r := Bits(mem[OT + p], 10, 10);
    }

    method SegmentBitsOf(p: int) returns (r: Nibble)
      requires Valid() && InTable(p)
      ensures r == st.E(p).segment
    {
      FieldsOfPacked(st.ot[p]);
      r := Bits(mem[OT + p], 12, 15);
    }

    method LocationBitsOf(p: int) returns (r: Word)
      requires Valid() && InTable(p)
      ensures r == st.E(p).location
    {
      assert Pack(st.ot[p]) == mem[OT + p];
      r := mem[OT + p + 1];
    }

    // The first word of the entry.
    method OtOf(p: int) returns (r: Word)
      requires Valid() && InTable(p)
      ensures r == Pack(st.E(p))
    {
      assert Pack(st.ot[p]) == mem[OT + p];
      r := mem[OT + p];
    }

    // Writing the table

    method OtBitsPut(p: int, first: nat, last: nat, v: nat, ghost e: Entry)
      requires Valid() && InTable(p) && first <= last < 16
      requires BitsPut(Pack(st.E(p)), first, last, v) == Pack(e) && e.location == st.E(p).location
      modifies this`st, mem
      ensures Valid() && st == PutEntry(old(st), p, e)
    {
      assert Pack(st.ot[p]) == mem[OT + p];
      FirstWordPut(p, BitsPut(mem[OT + p], first, last, v), e);
    }

    method FirstWordPut(p: int, w: Word, ghost e: Entry)
      requires Valid() && InTable(p) && w == Pack(e) && e.location == st.E(p).location
      modifies this`st, mem
      ensures Valid() && st == PutEntry(old(st), p, e)
    {
      assert Pack(st.ot[p]) == mem[OT + p];
      mem[OT + p] := w;
      st := PutEntry(st, p, e);
    }

    method CountBitsPut(p: int, v: Byte)
      requires Valid() && InTable(p)
      modifies this`st, mem
      ensures Valid() && st == PutEntry(old(st), p, old(st).E(p).(count := v))
    {
      PutFieldOfPacked(st.E(p), v, 0, 0);
      OtBitsPut(p, 0, 7, v, st.E(p).(count := v));
    }

    method OddBitPut(p: int, v: Bit)
      requires Valid() && InTable(p)
      modifies this`st, mem
      ensures Valid() && st == PutEntry(old(st), p, old(st).E(p).(odd := v))
    {
      PutFieldOfPacked(st.E(p), 0, v, 0);
      OtBitsPut(p, 8, 8, v, st.E(p).(odd := v));
    }

    method PointerBitPut(p: int, v: Bit)
      requires Valid() && InTable(p)
      modifies this`st, mem
      ensures Valid() && st == PutEntry(old(st), p, old(st).E(p).(pointer := v))
    {
      PutFieldOfPacked(st.E(p), 0, v, 0);
      OtBitsPut(p, 9, 9, v, st.E(p).(pointer := v));
    }

    method FreeBitPut(p: int, v: Bit)
      requires Valid() && InTable(p)
      modifies this`st, mem
      ensures Valid() && st == PutEntry(old(st), p, old(st).E(p).(free := v))
    {
      PutFieldOfPacked(st.E(p), 0, v, 0);
      OtBitsPut(p, 10, 10, v, st.E(p).(free := v));
    }

    method SegmentBitsPut(p: int, v: Nibble)
      requires Valid() && InTable(p)
      modifies this`st, mem
      ensures Valid() && st == PutEntry(old(st), p, old(st).E(p).(segment := v))
    {
      PutFieldOfPacked(st.E(p), 0, 0, v);
      OtBitsPut(p, 12, 15, v, st.E(p).(segment := v));
    }

    method OtPut(p: int, w: Word)
      requires Valid() && InTable(p)
      modifies this`st, mem
      ensures Valid() && st == PutEntry(old(st), p, Unpack(w, old(st).E(p).location))
    {
      assert Pack(st.ot[p]) == mem[OT + p];
      PackUnpack(w, st.ot[p].location);
      mem[OT + p] := w;
      st := PutEntry(st, p, Unpack(w, st.E(p).location));
    }

    method LocationBitsPut(p: int, v: Word)
      requires Valid() && InTable(p)
      modifies this`st, mem
      ensures Valid() && st == PutEntry(old(st), p, old(st).E(p).(location := v))
    {
      assert Pack(st.ot[p]) == mem[OT + p];
      mem[OT + p + 1] := v;
      st := PutEntry(st, p, st.E(p).(location := v));
    }

    // The heap

    method SegmentWord(segment: int, w: int) returns (r: Word)
      requires Valid() && 0 <= segment < HEAP_SEGMENT_COUNT && 0 <= w < SEGMENT_SIZE
      ensures r == At(st.words, segment * 65536 + w)
    {
      r := mem[segment * SEGMENT_SIZE + w];
    }

    method SegmentWordPut(segment: int, w: int, v: Word)
      requires Valid() && 0 <= segment < HEAP_SEGMENT_COUNT && 0 <= w < SEGMENT_SIZE
      modifies this`st, mem
      ensures Valid() && st == PutWord(old(st), segment * 65536 + w, v)
    {
      mem[segment * SEGMENT_SIZE + w] := v;
      st := PutWord(st, segment * 65536 + w, v);
    }

    method HeapChunkWord(p: int, i: int) returns (r: Word)
      requires Valid() && InTable(p) && InHeap(st.E(p), i)
      ensures r == WordOf(st, p, i)
    {
      var segment := SegmentBitsOf(p);
      var location := LocationBitsOf(p);
      r := SegmentWord(segment, location + i);
    }

    method HeapChunkWordPut(p: int, i: int, v: Word)
      requires Valid() && InTable(p) && InHeap(st.E(p), i)
      modifies this`st, mem
      ensures Valid() && st == PutWord(old(st), Address(old(st).E(p)) + i, v)
    {
      var segment := SegmentBitsOf(p);
      var location := LocationBitsOf(p);
      SegmentWordPut(segment, location + i, v);
    }

    method SizeBitsOf(p: int) returns (r: Word)
      requires Valid() && InTable(p) && InHeap(st.E(p), 0)
      ensures r == SizeOf(st, p)
    {
      r := HeapChunkWord(p, 0);
    }

    method SizeBitsPut(p: int, v: Word)
      requires Valid() && InTable(p) && InHeap(st.E(p), 0)
      modifies this`st, mem
      ensures Valid() && st == PutWord(old(st), Address(old(st).E(p)), v)
    {
      HeapChunkWordPut(p, 0, v);
    }

    method ClassBitsOf(p: int) returns (r: Word)
      requires Valid() && InTable(p) && InHeap(st.E(p), 1)
      ensures r == ClassOf(st, p)
    {
      r := HeapChunkWord(p, 1);
    }

    method ClassBitsPut(p: int, v: Word)
      requires Valid() && InTable(p) && InHeap(st.E(p), 1)
      modifies this`st, mem
      ensures Valid() && st == PutWord(old(st), Address(old(st).E(p)) + 1, v)
    {
      HeapChunkWordPut(p, 1, v);
    }

    method LastPointerOf(p: int) returns (r: Word)
      requires Valid() && InTable(p) && InHeap(st.E(p), HEADER_SIZE)
      ensures r == LastPointer(st, p)
    {
      var pointer := PointerBitOf(p);
      if pointer == 0 {
        var class_ := ClassBitsOf(p);
        if class_ == CLASS_COMPILED_METHOD {
          // (header & 126) >> 1: the six bits above the lowest
          var header := HeapChunkWord(p, HEADER_SIZE);
          return HEADER_SIZE + 1 + header % 128 / 2;
        }
        return HEADER_SIZE;
      }
      r := SizeBitsOf(p);
    }

    method SpaceOccupiedBy(p: int) returns (r: nat)
      requires Valid() && InTable(p) && InHeap(st.E(p), 0)
      ensures r == Space(st, p)
    {
      var size := SizeBitsOf(p);
      var pointer := PointerBitOf(p);
      if size < HUGE_SIZE || pointer == 0 {
        return size;
      }
      return size + 1;
    }

    // The list heads

    method HeadOfFreePointerList() returns (r: Word)
      requires Valid()
      ensures r == st.freeHead
    {
      r := mem[OT + OBJECT_TABLE_SIZE];
    }

    method HeadOfFreePointerListPut(p: Word)
      requires Valid()
      modifies this`st, mem
      ensures Valid() && st == old(st).(freeHead := p)
    {
      mem[OT + OBJECT_TABLE_SIZE] := p;
      st := st.(freeHead := p);
    }

    method HeadOfFreeChunkList(size: int, segment: int) returns (r: Word)
      requires Valid() && HEADER_SIZE <= size <= BIG_SIZE && 0 <= segment < HEAP_SEGMENT_COUNT
      ensures r == At(st.words, HeadAddress(size, segment))
    {
      r := SegmentWord(segment, FIRST_FREE_CHUNK_LIST + size);
    }

    method HeadOfFreeChunkListPut(size: int, segment: int, p: Word)
      requires Valid() && HEADER_SIZE <= size <= BIG_SIZE && 0 <= segment < HEAP_SEGMENT_COUNT
      modifies this`st, mem
      ensures Valid() && st == PutWord(old(st), HeadAddress(size, segment), p)
    {
      SegmentWordPut(segment, FIRST_FREE_CHUNK_LIST + size, p);
    }
  }
}
