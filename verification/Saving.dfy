// The saving of an image: the objects that are referred to, one after the other, and the table.
module Saving {
  import opened Words
  import opened Memory
  import opened Traversal
  import opened Layouts
  import opened Freeing
  import opened Abandoning
  import opened Accounts
  import opened TableLoading

  const PAGE := 256

  ghost predicate Held(s: State, p: int) {
    Oop(p) && s.E(p).free == 0 && s.E(p).count != 0
  }

  // Where the object p begins in the object space of the file.
  ghost function Offset(s: State, p: int): nat
    decreases s, p
  {
    if p <= 2 then 0 else Offset(s, p - 2) + (if Held(s, p - 2) then SizeOf(s, p - 2) else 0)
  }

  ghost function WordsTo(s: State, p: int, n: nat): seq<Word> {
    seq(n, i => WordOf(s, p, i))
  }

  // The object space up to object p.
  ghost function ObjectsTo(s: State, p: int): seq<Word>
    decreases s, p
  {
    if p <= 2 then []
    else ObjectsTo(s, p - 2) + if Held(s, p - 2) then WordsTo(s, p - 2, SizeOf(s, p - 2)) else []
  }

  function ZeroWords(n: nat): seq<Word> {
    seq(n, _ => 0)
  }

  // Up to the next page.
  function PageUp(n: nat): (r: nat)
    ensures n <= r < n + PAGE && r % PAGE == 0
  {
    (n + PAGE - 1) / PAGE * PAGE
  }

  function Padded(f: File): File {
    f + ZeroWords(PageUp(|f|) - |f|)
  }

  // The entry of the file for p.
  ghost function SavedEntry(s: State, p: int): Entry {
    if p < 2 then s.E(p)
    else if Held(s, p) then s.E(p).(segment := Offset(s, p) / 65536 % 16, location := Offset(s, p) % 65536)
    else Cleared(0, 0).(free := 1)
  }

  // Both words of each entry.
  ghost function TableOf(entries: seq<Entry>): seq<Word> {
    if entries == [] then []
    else TableOf(entries[..|entries| - 1]) + [Pack(entries[|entries| - 1]), entries[|entries| - 1].location]
  }

  ghost function EntriesTo(s: State, p: int): seq<Entry>
    decreases s, p
  {
    if p <= 0 then [] else EntriesTo(s, p - 2) + [SavedEntry(s, p - 2)]
  }

  // The last object below p.
  ghost function LastHeld(s: State, p: int): int
    decreases s, p
  {
    if p <= 2 then NON_POINTER else if Held(s, p - 2) then p - 2 else LastHeld(s, p - 2)
  }

  function Low(n: nat): Word {
    n % 65536
  }

  function High(n: nat): Word {
    n / 65536 % 65536
  }

  // The first page.
  function Head(space: nat, length: nat): (r: seq<Word>)
    ensures |r| == PAGE && r[0] == Low(space) && r[1] == High(space) && r[2] == Low(length) && r[3] == High(length)
  {
    [Low(space), High(space), Low(length), High(length)] + ZeroWords(PAGE - 4)
  }

  // The file, for a table of that length.
  ghost function FileOf(s: State, length: nat): File {
    Head(Offset(s, length), length) + Padded(ObjectsTo(s, length)) + TableOf(EntriesTo(s, length))
  }

  ghost function SavedFile(s: State): File {
    var last := LastHeld(s, OBJECT_TABLE_SIZE);
    FileOf(s, if last >= -2 then last + 2 else 0)
  }

  // What the image that is saved must be: laid out, nil referred to.
  ghost predicate CanSave(s: State, g: Layout) {
    LaidOut(s, g) && Held(s, NIL_POINTER)
  }

  lemma {:induction false} HeldPlaced(s: State, g: Layout, p: int)
    requires LaidOut(s, g) && Held(s, p)
    ensures p in g.alloc && p in g.len && Placed(s, p, g.len[p]) && Sized(s, p, g.len[p]) &&
      SizeOf(s, p) <= g.len[p] <= SizeOf(s, p) + 1
  {
    assert p in g.len && Placed(s, p, g.len[p]) by {
      assert OpenLayout(0);
    }
    if p !in g.alloc {
      ListedSize(s, g, p);
      assert false;
    }
    assert Sized(s, p, g.len[p]) by {
      assert OpenLayout(0);
    }
  }

  lemma {:induction false} ObjectsLength(s: State, p: int)
    ensures |ObjectsTo(s, p)| == Offset(s, p)
    decreases p
  {
    if p > 2 {
      ObjectsLength(s, p - 2);
    }
  }

  lemma {:induction false} ObjectsPrefix(s: State, q: int, p: int)
    requires q <= p && (p - q) % 2 == 0
    ensures ObjectsTo(s, q) <= ObjectsTo(s, p)
    decreases p - q
  {
    if q < p {
      ObjectsPrefix(s, q, p - 2);
    }
  }

  // Where the words of q are,
  lemma {:induction false} ObjectsAt(s: State, q: int, p: int, i: int)
    requires q < p && (p - q) % 2 == 0 && Held(s, q) && 0 <= i < SizeOf(s, q)
    ensures 0 <= Offset(s, q) + i < |ObjectsTo(s, p)| && ObjectsTo(s, p)[Offset(s, q) + i] == WordOf(s, q, i)
  {
    var next := q + 2;
    ObjectsPrefix(s, next, p);
    ObjectsLength(s, q);
    assert ObjectsTo(s, next) == ObjectsTo(s, q) + WordsTo(s, q, SizeOf(s, q));
  }

  // and its entry.
  lemma {:induction false} TableAt(entries: seq<Entry>, k: nat)
    requires k < |entries|
    ensures |TableOf(entries)| == 2 * |entries| && TableOf(entries)[2 * k] == Pack(entries[k])
    ensures TableOf(entries)[2 * k + 1] == entries[k].location
  {
    var n := |entries| - 1;
    if n > 0 {
      TableAt(entries[..n], if k < n then k else 0);
    }
  }

  lemma {:induction false} EntriesAt(s: State, q: int, p: int)
    requires 0 <= q < p && q % 2 == 0 && p % 2 == 0
    ensures |EntriesTo(s, p)| == p / 2 && EntriesTo(s, p)[q / 2] == SavedEntry(s, q)
    decreases p
  {
    var k := p - 2;
    if k > 0 {
      EntriesAt(s, if q < k then q else 0, k);
    }
  }

  lemma {:induction false} LastIs(s: State, p: int)
    requires Held(s, NIL_POINTER) && 2 < p <= OBJECT_TABLE_SIZE && p % 2 == 0
    ensures Held(s, LastHeld(s, p)) && LastHeld(s, p) < p && forall q {:trigger Held(s, q)} :: Held(s, q) && q < p ==>
      q <= LastHeld(s, p)
    decreases p
  {
    if p > 4 && !Held(s, p - 2) {
      LastIs(s, p - 2);
    }
    forall q | Held(s, q) && q < p
      ensures q <= p - 2
    {
    }
  }

  // The parts of the file

  // The object space and the table of a file that is saved.
  ghost predicate Parts(f: File, head: seq<Word>, space: seq<Word>, table: seq<Word>) {
    f == head + Padded(space) + table && |head| == PAGE && TableLength(f) == |table|
  }

  lemma {:induction false} SpaceWord(f: File, head: seq<Word>, space: seq<Word>, table: seq<Word>, i: int)
    requires Parts(f, head, space, table) && 0 <= i < |space|
    ensures WordIn(f, IMAGE_BASE + i) == space[i] && IMAGE_BASE + |space| + |table| <= |f|
  {
    assert Padded(space)[i] == space[i];
    assert f[PAGE + i] == Padded(space)[i];
  }

  lemma {:induction false} TableWordIs(f: File, head: seq<Word>, space: seq<Word>, table: seq<Word>, i: int)
    requires Parts(f, head, space, table) && 0 <= i < |table|
    ensures TableWord(f, i) == table[i]
  {
    assert |f| - |table| == |head + Padded(space)|;
    assert f[|f| - |table| + i] == table[i];
  }

  lemma {:induction false} HeadFirst(f: File, head: seq<Word>, space: seq<Word>, table: seq<Word>)
    requires f == head + space + table && |head| == PAGE
    ensures WordIn(f, 2) == head[2] && WordIn(f, 3) == head[3]
  {
  }

  ghost predicate IsFileOf(s: State, length: nat, f: File, head: seq<Word>, space: seq<Word>, table: seq<Word>) {
    Parts(f, head, space, table) && space == ObjectsTo(s, length) && table == TableOf(EntriesTo(s, length)) &&
      |table| == length
  }

  lemma {:induction false} FileParts(s: State, length: nat, f: File)
    returns (head: seq<Word>, space: seq<Word>, table: seq<Word>)
    requires length % 2 == 0 && length < 65536 && f == FileOf(s, length)
    ensures IsFileOf(s, length, f, head, space, table)
  {
    head, space, table := Head(Offset(s, length), length), ObjectsTo(s, length), TableOf(EntriesTo(s, length));
    HeadFirst(f, head, Padded(space), table);
    TableSize(s, length);
  }

  lemma {:induction false} TableSize(s: State, length: nat)
    requires length % 2 == 0
    ensures |TableOf(EntriesTo(s, length))| == length
  {
    if length > 0 {
      EntriesAt(s, 0, length);
      TableAt(EntriesTo(s, length), 0);
    }
  }

  // What the file says of p.
  lemma {:induction false} SavedEntryIn(s: State, length: nat, f: File, head: seq<Word>, space: seq<Word>,
                                        table: seq<Word>, p: int)
    requires IsFileOf(s, length, f, head, space, table) && length % 2 == 0 && 0 <= p < length && p % 2 == 0
    ensures EntryIn(f, p) == SavedEntry(s, p)
  {
    var e := SavedEntry(s, p);
    EntriesAt(s, p, length);
    TableAt(EntriesTo(s, length), p / 2);
    TableWordIs(f, head, space, table, p);
    TableWordIs(f, head, space, table, p + 1);
    UnpackPacked(e);
  }

  lemma {:induction false} SavedWordIn(s: State, length: nat, f: File, head: seq<Word>, space: seq<Word>,
                                       table: seq<Word>, p: int, i: int)
    requires IsFileOf(s, length, f, head, space, table) && length % 2 == 0 && p < length && Held(s, p) &&
      0 <= i < SizeOf(s, p)
    ensures WordIn(f, IMAGE_BASE + Offset(s, p) + i) == WordOf(s, p, i)
    ensures IMAGE_BASE + Offset(s, p) + i < |f|
  {
    ObjectsAt(s, p, length, i);
    SpaceWord(f, head, space, table, Offset(s, p) + i);
  }

  ghost predicate SavedWord(s: State, f: File, p: int, i: int) {
    IMAGE_BASE + Offset(s, p) + i < |f| && WordIn(f, IMAGE_BASE + Offset(s, p) + i) == WordOf(s, p, i)
  }

  // The file holds what there is of s below the entry `length`.
  ghost predicate SavedAs(s: State, f: File, length: nat) {
    TableLength(f) == length && IMAGE_BASE + length <= |f| &&
    (forall p {:trigger EntryIn(f, p)} :: 0 <= p < length && p % 2 == 0 ==> EntryIn(f, p) == SavedEntry(s, p)) &&
    forall p, i {:trigger SavedWord(s, f, p, i)} :: Held(s, p) && p < length && 0 <= i < SizeOf(s, p) ==>
      SavedWord(s, f, p, i)
  }

  lemma {:induction false} FileSaved(s: State, length: nat, f: File)
    requires length % 2 == 0 && length < 65536 && f == FileOf(s, length)
    ensures SavedAs(s, f, length)
  {
    var head, space, table := FileParts(s, length, f);
    PartsSaved(s, length, f, head, space, table);
  }

  lemma {:induction false} PartsSaved(s: State, length: nat, f: File, head: seq<Word>, space: seq<Word>,
                                      table: seq<Word>)
    requires length % 2 == 0 && length < 65536 && IsFileOf(s, length, f, head, space, table)
    ensures SavedAs(s, f, length)
  {
    forall p | 0 <= p < length && p % 2 == 0
      ensures EntryIn(f, p) == SavedEntry(s, p)
    {
      SavedEntryIn(s, length, f, head, space, table, p);
    }
    forall p, i | Held(s, p) && p < length && 0 <= i < SizeOf(s, p)
      ensures SavedWord(s, f, p, i)
    {
      SavedWordIn(s, length, f, head, space, table, p, i);
    }
  }

  // Saving

  method HasObject(om: ObjectMemory, p: int) returns (r: bool)
    requires om.Valid() && Oop(p)
    ensures r == Held(om.st, p)
  {
    var free := om.FreeBitOf(p);
    var count := om.CountBitsOf(p);
    r := free == 0 && count != 0;
  }

  method LastUsed(om: ObjectMemory) returns (last: int)
    requires om.Valid()
    ensures last == LastHeld(om.st, OBJECT_TABLE_SIZE)
  {
    last := NON_POINTER;
    var objectPointer := 2;
    while objectPointer < OBJECT_TABLE_SIZE
      invariant 2 <= objectPointer <= OBJECT_TABLE_SIZE && objectPointer % 2 == 0 &&
        last == LastHeld(om.st, objectPointer)
    {
      var held := HasObject(om, objectPointer);
      if held {
        last := objectPointer;
      }
      objectPointer := objectPointer + 2;
    }
  }

  method WriteObject(om: ObjectMemory, p: Word, f: File, ghost g: Layout) returns (f': File, size: Word)
    requires om.Valid() && LaidOut(om.st, g) && Held(om.st, p)
    ensures size == SizeOf(om.st, p) && f' == f + WordsTo(om.st, p, size)
  {
    HeldPlaced(om.st, g, p);
    size := om.SizeBitsOf(p);
    var classBits := om.ClassBitsOf(p);
    f' := f + [size, classBits];
    var wordIndex := 0;
    while wordIndex < size - HEADER_SIZE
      invariant 0 <= wordIndex <= size - HEADER_SIZE && f' == f + WordsTo(om.st, p, HEADER_SIZE + wordIndex)
    {
      var word := om.HeapChunkWord(p, HEADER_SIZE + wordIndex);
      f' := f' + [word];
      wordIndex := wordIndex + 1;
    }
  }

  method WriteObjects(om: ObjectMemory, length: nat, f: File, ghost g: Layout) returns (f': File, space: nat)
    requires om.Valid() && LaidOut(om.st, g) && 2 <= length <= OBJECT_TABLE_SIZE && length % 2 == 0
    ensures f' == f + ObjectsTo(om.st, length) && space == Offset(om.st, length)
  {
    f', space := f, 0;
    var objectPointer := 2;
    while objectPointer < length
      invariant 2 <= objectPointer <= length && objectPointer % 2 == 0
      invariant f' == f + ObjectsTo(om.st, objectPointer) && space == Offset(om.st, objectPointer)
    {
      var held := HasObject(om, objectPointer);
      if held {
        var size;
        f', size := WriteObject(om, objectPointer, f', g);
        space := space + size;
      }
      objectPointer := objectPointer + 2;
    }
  }

  method PadToPage(f: File) returns (f': File)
    ensures f' == Padded(f)
  {
    f' := f;
    var desired := PageUp(|f|);
    while |f'| < desired
      invariant |f| <= |f'| <= desired && f' == f + ZeroWords(|f'| - |f|)
    {
      f' := f' + [0];
    }
  }

  // The entry is written over to be saved, and then restored.
  method EntryWords(om: ObjectMemory, p: Word, address: nat, ghost g: Layout) returns (w0: Word, w1: Word, size: Word)
    requires om.Valid() && LaidOut(om.st, g) && InTable(p) && address == Offset(om.st, p) < 16 * 65536
    modifies om`st, om.mem
    ensures om.Valid() && om.st == old(om.st)
    ensures w0 == Pack(SavedEntry(om.st, p)) && w1 == SavedEntry(om.st, p).location
    ensures size == if Held(om.st, p) then SizeOf(om.st, p) else 0
  {
    ghost var s := om.st;
    var oldEntry := om.OtOf(p);
    var oldLocation := om.LocationBitsOf(p);
    size := 0;
    if p >= 2 {
      size := PlaceEntry(om, p, address, g);
    }
    w0 := om.OtOf(p);
    w1 := om.LocationBitsOf(p);
    Restore(om, p, oldEntry, oldLocation, s);
  }

  method Restore(om: ObjectMemory, p: Word, w: Word, location: Word, ghost s: State)
    requires om.Valid() && InTable(p) && Shaped(s) && om.st == PutEntry(s, p, om.st.E(p)) && w == Pack(s.E(p)) &&
      location == s.E(p).location
    modifies om`st, om.mem
    ensures om.Valid() && om.st == s
  {
    ghost var e := om.st.E(p);
    om.OtPut(p, w);
    EntriesAfterPut(om.st, p, Unpack(w, e.location));
    om.LocationBitsPut(p, location);
    UnpackPacked(s.E(p));
  }

  method PlaceEntry(om: ObjectMemory, p: Word, address: nat, ghost g: Layout) returns (size: Word)
    requires om.Valid() && LaidOut(om.st, g) && Oop(p) && address == Offset(om.st, p) < 16 * 65536
    modifies om`st, om.mem
    ensures om.Valid() && om.st == PutEntry(old(om.st), p, SavedEntry(old(om.st), p))
    ensures size == if Held(old(om.st), p) then SizeOf(old(om.st), p) else 0
  {
    ghost var s := om.st;
    FreeChunkEntry(om, p);
    var free := om.FreeBitOf(p);
    if free == 1 {
      size := 0;
      ghost var e := om.st.E(p);
      FreeOne(om, p);
      PutTwice(s, p, e, Cleared(0, 0).(free := 1));
    } else {
      HeldPlaced(s, g, p);
      size := om.SizeBitsOf(p);
      LocateEntry(om, p, address / 65536, address % 65536);
    }
  }

  // The entry of a free chunk is taken for a free one.
  method FreeChunkEntry(om: ObjectMemory, p: Word)
    requires om.Valid() && Oop(p)
    modifies om`st, om.mem
    ensures om.Valid() && om.st == PutEntry(old(om.st), p, old(om.st).E(p).(free := om.st.E(p).free))
    ensures om.st.E(p).free == 0 <==> Held(old(om.st), p)
    ensures Held(old(om.st), p) ==> om.st == old(om.st)
  {
    ghost var s := om.st;
    var free := om.FreeBitOf(p);
    var count := om.CountBitsOf(p);
    if free == 0 && count == 0 {
      om.FreeBitPut(p, 1);
      EntriesAfterPut(s, p, s.E(p).(free := 1));
    }
  }

  method LocateEntry(om: ObjectMemory, p: Word, segment: Nibble, location: Word)
    requires om.Valid() && Oop(p)
    modifies om`st, om.mem
    ensures om.Valid() && om.st == PutEntry(old(om.st), p, old(om.st).E(p).(segment := segment, location := location))
  {
    ghost var s, e := om.st, om.st.E(p);
    om.SegmentBitsPut(p, segment);
    EntriesAfterPut(s, p, e.(segment := segment));
    om.LocationBitsPut(p, location);
    PutTwice(s, p, e.(segment := segment), e.(segment := segment, location := location));
  }

  // The objects fit a file whose addresses have twenty bits.
  ghost function HeldTo(s: State, g: Layout, p: int): set<int> {
    set q | q in g.alloc && q < p && Held(s, q)
  }

  lemma {:induction false} OneMoreHeld(s: State, g: Layout, q: int, p: int)
    requires LaidOut(s, g) && p == q + 2 && q % 2 == 0
    ensures Held(s, q) ==>
      q in HeldTo(s, g, p) && HeldTo(s, g, p) - {q} == HeldTo(s, g, q) && q in g.len && SizeOf(s, q) <= g.len[q]
    ensures !Held(s, q) ==> HeldTo(s, g, p) == HeldTo(s, g, q)
  {
    if Held(s, q) {
      HeldPlaced(s, g, q);
      assert HeldTo(s, g, p) - {q} == HeldTo(s, g, q);
    } else {
      assert HeldTo(s, g, p) == HeldTo(s, g, q);
    }
  }

  lemma {:induction false} OffsetTotal(s: State, g: Layout, p: int)
    requires LaidOut(s, g) && g.alloc <= g.len.Keys && p % 2 == 0
    ensures Offset(s, p) <= TotalLength(g.len, HeldTo(s, g, p))
    decreases p
  {
    var q := p - 2;
    if p > 2 {
      OffsetTotal(s, g, q);
      OneMoreHeld(s, g, q, p);
      if Held(s, q) {
        TotalWithout(g.len, HeldTo(s, g, p), q);
      }
    }
  }

  lemma {:induction false} OffsetFits(s: State, g: Layout, p: int)
    requires LaidOut(s, g) && p % 2 == 0
    ensures Offset(s, p) <= HEAP_ROOM < 16 * 65536
  {
    AllocOops(s, g);
    OffsetTotal(s, g, p);
    assert Chunks(s, g) by {
      assert OpenLayout(0);
    }
    ChunksFit(s, g, HeldTo(s, g, p));
  }

  // f' is f with the table up to p behind it.
  ghost predicate TableWritten(s: State, f: File, p: int, f': File) {
    forall k {:trigger OpenTable(k)} :: OpenTable(k) ==> f' == f + TableOf(EntriesTo(s, p))
  }

  ghost predicate OpenTable(k: int) {
    true
  }

  lemma {:induction false} TableBegins(s: State, f: File, p: int)
    requires p <= 0
    ensures TableWritten(s, f, p, f) && Offset(s, p) == 0
  {
  }

  lemma {:induction false} TableEnds(s: State, f: File, p: int, f': File)
    requires TableWritten(s, f, p, f')
    ensures f' == f + TableOf(EntriesTo(s, p))
  {
    assert OpenTable(0);
  }

  method WriteTable(om: ObjectMemory, length: nat, f: File, ghost g: Layout) returns (f': File)
    requires om.Valid() && LaidOut(om.st, g) && 2 <= length <= OBJECT_TABLE_SIZE && length % 2 == 0
    modifies om`st, om.mem
    ensures om.Valid() && om.st == old(om.st) && f' == f + TableOf(EntriesTo(om.st, length))
  {
    ghost var s := om.st;
    f' := f;
    var objectImageWordAddress: nat := 0;
    var objectPointer := 0;
    TableBegins(s, f, objectPointer);
    while objectPointer < length
      invariant om.Valid() && om.st == s && 0 <= objectPointer <= length && objectPointer % 2 == 0
      invariant TableWritten(s, f, objectPointer, f') && objectImageWordAddress == Offset(s, objectPointer)
    {
      f', objectImageWordAddress := WriteEntry(om, objectPointer, objectImageWordAddress, f', f, g);
      objectPointer := objectPointer + 2;
    }
    TableEnds(s, f, length, f');
  }

  method WriteEntry(om: ObjectMemory, p: Word, address: nat, f: File, ghost before: File, ghost g: Layout)
    returns (f': File, address': nat)
    requires om.Valid() && LaidOut(om.st, g) && InTable(p) && address == Offset(om.st, p)
    requires TableWritten(om.st, before, p, f)
    modifies om`st, om.mem
    ensures om.Valid() && om.st == old(om.st)
    ensures TableWritten(om.st, before, p + 2, f') && address' == Offset(om.st, p + 2)
  {
    OffsetFits(om.st, g, p);
    var w0, w1, size := EntryWords(om, p, address, g);
    OneMoreEntry(om.st, p, w0, w1);
    TableEnds(om.st, before, p, f);
    f' := f + [w0, w1];
    address' := address + size;
  }

  lemma {:induction false} OneMoreEntry(s: State, p: int, w0: Word, w1: Word)
    requires 0 <= p && w0 == Pack(SavedEntry(s, p)) && w1 == SavedEntry(s, p).location
    ensures TableOf(EntriesTo(s, p + 2)) == TableOf(EntriesTo(s, p)) + [w0, w1]
  {
    var entries, next := EntriesTo(s, p), p + 2;
    assert EntriesTo(s, next) == entries + [SavedEntry(s, p)];
    assert (entries + [SavedEntry(s, p)])[..|entries|] == entries;
  }

  lemma {:induction false} PadTwice(head: seq<Word>, space: seq<Word>)
    requires |head| == PAGE
    ensures Padded(head + space) == head + Padded(space)
  {
    assert PageUp(PAGE + |space|) == PAGE + PageUp(|space|);
  }

  lemma {:induction false} Filled(f: File, rest: seq<Word>, f': File, space: nat, length: nat)
    requires f == Padded([0, 0, 0, 0, 0]) + rest &&
      f' == f[0 := Low(space)][1 := High(space)][2 := Low(length)][3 := High(length)]
    ensures f' == Head(space, length) + rest
  {
    assert Padded([0, 0, 0, 0, 0]) == ZeroWords(PAGE);
  }

  method WriteAll(om: ObjectMemory, length: nat, ghost g: Layout) returns (f: File, space: nat)
    requires om.Valid() && LaidOut(om.st, g) && 2 <= length <= OBJECT_TABLE_SIZE && length % 2 == 0
    modifies om`st, om.mem
    ensures om.Valid() && om.st == old(om.st) && space == Offset(om.st, length)
    ensures f == Padded([0, 0, 0, 0, 0]) + (Padded(ObjectsTo(om.st, length)) + TableOf(EntriesTo(om.st, length)))
  {
    f := PadToPage([0, 0, 0, 0, 0]);
    ghost var head := f;
    f, space := WriteObjects(om, length, f, g);
    f := PadToPage(f);
    PadTwice(head, ObjectsTo(om.st, length));
    f := WriteTable(om, length, f, g);
  }

  // saveObjects: every object that is referred to is written, and the memory stays as it was.
  method SaveObjects(om: ObjectMemory, ghost g: Layout) returns (f: File)
    requires om.Valid() && CanSave(om.st, g)
    modifies om`st, om.mem
    ensures om.Valid() && om.st == old(om.st) && f == SavedFile(om.st)
  {
    ghost var s := om.st;
    LastIs(s, OBJECT_TABLE_SIZE);
    var last := LastUsed(om);
    var length := last + 2;
    var space;
    f, space := WriteAll(om, length, g);
    ghost var written, rest := f, Padded(ObjectsTo(s, length)) + TableOf(EntriesTo(s, length));
    f := f[0 := Low(space)][1 := High(space)][2 := Low(length)][3 := High(length)];
    Filled(written, rest, f, space, length);
    assert Head(space, length) + rest == FileOf(s, length);
  }
}
