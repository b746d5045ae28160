// Image files, and the loading of the object table from one.
module TableLoading {
  import opened Words
  import opened Memory
  import opened Traversal
  import opened Layouts
  import opened Abandoning
  import opened Accounts
  import opened Collection

  // An image file, word by word: a page that begins with the lengths of the object space and of the
  // object table, each in two words, the lower first; the object space; and the object table, last.
  type File = seq<Word>

  const IMAGE_BASE := 256

  function WordIn(f: File, a: int): Word {
    if 0 <= a < |f| then f[a] else 0
  }

  function TableLength(f: File): int {
    WordIn(f, 2) + 65536 * WordIn(f, 3)
  }

  function TableWord(f: File, i: int): Word {
    WordIn(f, |f| - TableLength(f) + i)
  }

  // The entries beyond the table of the file are free.
  ghost function EntryIn(f: File, p: int): Entry {
    if 0 <= p < TableLength(f) then Unpack(TableWord(f, p), TableWord(f, p + 1)) else Cleared(0, 0).(free := 1)
  }

  // The object p of the file.  Its entry tells where in the object space its words are.
  ghost predicate ObjectIn(f: File, p: int) {
    Oop(p) && EntryIn(f, p).free == 0
  }

  ghost function ObjectWord(f: File, p: int, i: int): Word {
    WordIn(f, IMAGE_BASE + Address(EntryIn(f, p)) + i)
  }

  ghost function SizeIn(f: File, p: int): Word {
    ObjectWord(f, p, 0)
  }

  // The words that the object takes in memory.
  ghost function SpaceIn(f: File, p: int): nat {
    if SizeIn(f, p) < HUGE_SIZE || EntryIn(f, p).pointer == 0 then SizeIn(f, p) else SizeIn(f, p) + 1
  }

  ghost function LastPointerIn(f: File, p: int): int {
    if EntryIn(f, p).pointer == 1 then SizeIn(f, p)
    else if ObjectWord(f, p, 1) == CLASS_COMPILED_METHOD then HEADER_SIZE + 1 + ObjectWord(f, p, HEADER_SIZE) % 128 / 2
    else HEADER_SIZE
  }

  // The table has whole entries and nil; every object is referred to, lies in the file, has its
  // pointers in it, and fits a segment.
  ghost predicate WellFormed(f: File) {
    4 <= TableLength(f) <= OBJECT_TABLE_SIZE && TableLength(f) % 2 == 0 && IMAGE_BASE + TableLength(f) <= |f| &&
      ObjectIn(f, NIL_POINTER) &&
    forall p {:trigger ObjectIn(f, p)} :: ObjectIn(f, p) ==>
      EntryIn(f, p).count != 0 && HEADER_SIZE <= SizeIn(f, p) && LastPointerIn(f, p) <= SizeIn(f, p) &&
        SpaceIn(f, p) <= HEAP_SPACE_STOP + 1 &&
      IMAGE_BASE + Address(EntryIn(f, p)) + SizeIn(f, p) <= |f|
  }

  // The entries below `to` are those of the file.
  ghost predicate EntriesTo(f: File, t: State, to: int) {
    forall p {:trigger t.E(p)} :: Oop(p) && p < to ==> t.E(p) == EntryIn(f, p)
  }

  lemma {:induction false} OneEntry(f: File, t: State, p: int, u: State)
    requires EntriesTo(f, t, p) && Shaped(t) && InTable(p) && u == PutEntry(t, p, EntryIn(f, p))
    ensures EntriesTo(f, u, p + 2) && Shaped(u)
  {
    EntriesAfterPut(t, p, EntryIn(f, p));
    forall q | Oop(q) && q < p + 2
      ensures u.E(q) == EntryIn(f, q)
    {
      assert q < p ==> t.E(q) == EntryIn(f, q);
    }
  }

  lemma {:induction false} PutTwice(t: State, p: int, e: Entry, e': Entry)
    ensures PutEntry(PutEntry(t, p, e), p, e') == PutEntry(t, p, e')
  {
  }

  method ReadEntries(om: ObjectMemory, f: File)
    requires om.Valid() && WellFormed(f)
    modifies om`st, om.mem
    ensures om.Valid() && EntriesTo(f, om.st, TableLength(f)) && om.currentSegment == old(om.currentSegment)
  {
    var objectTableLength := TableLength(f);
    var objectPointer := 0;
    while objectPointer < objectTableLength
      invariant om.Valid() && 0 <= objectPointer <= objectTableLength && objectPointer % 2 == 0
      invariant EntriesTo(f, om.st, objectPointer)
    {
      ghost var t, e := om.st, EntryIn(f, objectPointer);
      var w0, w1 := TableWord(f, objectPointer), TableWord(f, objectPointer + 1);
      om.OtPut(objectPointer, w0);
      EntriesAfterPut(t, objectPointer, Unpack(w0, t.E(objectPointer).location));
      om.LocationBitsPut(objectPointer, w1);
      PutTwice(t, objectPointer, Unpack(w0, t.E(objectPointer).location), e);
      OneEntry(f, t, objectPointer, om.st);
      objectPointer := objectPointer + 2;
    }
  }

  method FreeEntries(om: ObjectMemory, f: File)
    requires om.Valid() && WellFormed(f) && EntriesTo(f, om.st, TableLength(f))
    modifies om`st, om.mem
    ensures om.Valid() && EntriesTo(f, om.st, OBJECT_TABLE_SIZE) && om.st.freeHead == old(om.st).freeHead
  {
    var objectPointer := TableLength(f);
    while objectPointer < OBJECT_TABLE_SIZE
      invariant om.Valid() && 0 <= objectPointer <= OBJECT_TABLE_SIZE && objectPointer % 2 == 0 &&
        TableLength(f) <= objectPointer
      invariant EntriesTo(f, om.st, objectPointer) && om.st.freeHead == old(om.st).freeHead
    {
      ghost var t := om.st;
      FreeOne(om, objectPointer);
      OneEntry(f, t, objectPointer, om.st);
      objectPointer := objectPointer + 2;
    }
  }

  method FreeOne(om: ObjectMemory, objectPointer: Word)
    requires om.Valid() && InTable(objectPointer)
    modifies om`st, om.mem
    ensures om.Valid() && om.st == PutEntry(old(om.st), objectPointer, Cleared(0, 0).(free := 1))
  {
    ghost var t := om.st;
    om.OtPut(objectPointer, 0);
    EntriesAfterPut(t, objectPointer, Unpack(0, t.E(objectPointer).location));
    ghost var e1 := Unpack(0, t.E(objectPointer).location).(free := 1);
    om.FreeBitPut(objectPointer, 1);
    PutTwice(t, objectPointer, Unpack(0, t.E(objectPointer).location), e1);
    EntriesAfterPut(t, objectPointer, e1);
    om.LocationBitsPut(objectPointer, 0);
    PutTwice(t, objectPointer, e1, e1.(location := 0));
    ClearedIs(0, 0);
  }

  // The free-pointer list

  // frees lists the free entries from `from` on in their order,
  ghost predicate ListedFrom(t: State, frees: seq<int>, from: int) {
    t.freeHead == Next(frees, 0) &&
    (forall i {:trigger frees[i]} :: 0 <= i < |frees| ==>
      Oop(frees[i]) && from <= frees[i] && t.E(frees[i]).free == 1) &&
    (forall i {:trigger FreeLink(t, frees, i)} :: 0 <= i < |frees| ==> FreeLink(t, frees, i)) &&
    (forall i, j :: 0 <= i < j < |frees| ==> frees[i] < frees[j]) &&
    forall p {:trigger t.E(p)} :: Oop(p) && from <= p && t.E(p).free == 1 ==> p in frees
  }

  // and the entries are those of the file, the links of free ones from there on apart.
  ghost predicate EntriesBut(f: File, t: State, from: int) {
    forall p {:trigger t.E(p)} :: Oop(p) ==>
      t.E(p) == EntryIn(f, p).(location := t.E(p).location) &&
        (p < from || EntryIn(f, p).free == 0 ==> t.E(p) == EntryIn(f, p))
  }

  ghost predicate FreesFrom(f: File, t: State, frees: seq<int>, from: int) {
    forall k {:trigger OpenFrees(k)} :: OpenFrees(k) ==>
      Shaped(t) && ListedFrom(t, frees, from) && EntriesBut(f, t, from)
  }

  ghost predicate OpenFrees(k: int) {
    true
  }

  lemma {:induction false} ListedOne(t: State, frees: seq<int>, p: int, u: State)
    requires ListedFrom(t, frees, p + 2) && Oop(p) && t.E(p).free == 1 && u.freeHead == p
    requires forall q {:trigger u.E(q)} :: u.E(q) == if q == p then t.E(p).(location := t.freeHead) else t.E(q)
    ensures ListedFrom(u, [p] + frees, p)
  {
    var frees' := [p] + frees;
    forall i | 0 <= i < |frees'|
      ensures Oop(frees'[i]) && p <= frees'[i] && u.E(frees'[i]).free == 1 && FreeLink(u, frees', i)
    {
      ListedAt(t, frees, p, u, i);
    }
    forall q | Oop(q) && p <= q && u.E(q).free == 1
      ensures q in frees'
    {
      assert q != p ==> t.E(q) == u.E(q);
    }
  }

  lemma {:induction false} ListedAt(t: State, frees: seq<int>, p: int, u: State, i: int)
    requires ListedFrom(t, frees, p + 2) && Oop(p) && t.E(p).free == 1 && 0 <= i <= |frees|
    requires forall q {:trigger u.E(q)} :: u.E(q) == if q == p then t.E(p).(location := t.freeHead) else t.E(q)
    ensures var frees' := [p] + frees;
      Oop(frees'[i]) && p <= frees'[i] && u.E(frees'[i]).free == 1 && FreeLink(u, frees', i)
  {
    if i > 0 {
      assert ([p] + frees)[i] == frees[i - 1] && FreeLink(t, frees, i - 1);
    }
  }

  lemma {:induction false} EntriesOne(f: File, t: State, p: int, u: State)
    requires EntriesBut(f, t, p + 2) && Oop(p) && t.E(p).free == 1
    requires forall q {:trigger u.E(q)} :: u.E(q) == if q == p then t.E(p).(location := t.freeHead) else t.E(q)
    ensures EntriesBut(f, u, p)
  {
    forall q | Oop(q)
      ensures u.E(q) == EntryIn(f, q).(location := u.E(q).location) &&
        (q < p || EntryIn(f, q).free == 0 ==> u.E(q) == EntryIn(f, q))
    {
      assert t.E(q) == EntryIn(f, q).(location := t.E(q).location);
    }
  }

  lemma {:induction false} OneMoreFree(f: File, t: State, frees: seq<int>, p: int, u: State, e: Entry)
    requires FreesFrom(f, t, frees, p + 2) && Oop(p) && t.E(p).free == 1 && e == t.E(p).(location := t.freeHead)
    requires u == PutEntry(t, p, e).(freeHead := AsWord(p))
    ensures FreesFrom(f, u, [p] + frees, p)
  {
    assert OpenFrees(0);
    EntriesAfterPut(t, p, e);
    forall q
      ensures u.E(q) == if q == p then e else t.E(q)
    {
      assert u.E(q) == PutEntry(t, p, e).E(q);
    }
    ListedOne(t, frees, p, u);
    EntriesOne(f, t, p, u);
  }

  lemma {:induction false} NotFree(f: File, t: State, frees: seq<int>, p: int)
    requires FreesFrom(f, t, frees, p + 2) && Oop(p) && t.E(p).free == 0
    ensures FreesFrom(f, t, frees, p)
  {
    assert OpenFrees(0);
    assert t.E(p) == EntryIn(f, p).(location := t.E(p).location);
  }

  lemma {:induction false} NoneListed(f: File, t: State)
    requires Shaped(t) && EntriesTo(f, t, OBJECT_TABLE_SIZE) && t.freeHead == NON_POINTER
    ensures FreesFrom(f, t, [], OBJECT_TABLE_SIZE)
  {
  }

  lemma {:induction false} FreesListed(f: File, t: State, frees: seq<int>)
    requires FreesFrom(f, t, frees, 2)
    ensures Frees(t, frees)
  {
    assert OpenFrees(0);
    forall p | Oop(p) && t.E(p).free == 1
      ensures p in frees
    {
      assert t.E(p) == t.E(p);
    }
  }

  // From the last entry to the first, so that the lower ones come first.
  method BuildFreePointerList(om: ObjectMemory, ghost f: File) returns (ghost frees: seq<int>)
    requires om.Valid() && EntriesTo(f, om.st, OBJECT_TABLE_SIZE) && om.st.freeHead == NON_POINTER
    modifies om`st, om.mem
    ensures om.Valid() && FreesFrom(f, om.st, frees, 2)
  {
    frees := [];
    NoneListed(f, om.st);
    var objectPointer := OBJECT_TABLE_SIZE - 2;
    while objectPointer >= 2
      invariant om.Valid() && 0 <= objectPointer <= OBJECT_TABLE_SIZE - 2 && objectPointer % 2 == 0
      invariant FreesFrom(f, om.st, frees, objectPointer + 2)
    {
      frees := ListIfFree(om, objectPointer, f, frees);
      objectPointer := objectPointer - 2;
    }
  }

  method ListIfFree(om: ObjectMemory, objectPointer: Word, ghost f: File, ghost frees: seq<int>)
    returns (ghost frees': seq<int>)
    requires om.Valid() && Oop(objectPointer) && FreesFrom(f, om.st, frees, objectPointer + 2)
    modifies om`st, om.mem
    ensures om.Valid() && FreesFrom(f, om.st, frees', objectPointer)
  {
    ghost var t := om.st;
    frees' := frees;
    var free := om.FreeBitOf(objectPointer);
    if free == 1 {
      var head := om.HeadOfFreePointerList();
      om.LocationBitsPut(objectPointer, head);
      om.HeadOfFreePointerListPut(objectPointer);
      OneMoreFree(f, t, frees, objectPointer, om.st, t.E(objectPointer).(location := head));
      frees' := [objectPointer as int] + frees;
    } else {
      NotFree(f, t, frees, objectPointer);
    }
  }

  ghost function ObjectsIn(f: File): set<int> {
    set p | 2 <= p < OBJECT_TABLE_SIZE && ObjectIn(f, p)
  }

  lemma {:induction false} ObjectsAudited(f: File, t: State, frees: seq<int>)
    requires WellFormed(f) && FreesFrom(f, t, frees, 2)
    ensures |NoObject(t, OBJECT_TABLE_SIZE)| + |ObjectsIn(f)| == OOP_COUNT
  {
    EvenToSize(OOP_COUNT);
    assert EntriesBut(f, t, 2) by {
      assert OpenFrees(0);
    }
    forall p
      ensures Splits(NoObject(t, OBJECT_TABLE_SIZE), ObjectsIn(f), EvenTo(OOP_COUNT), p)
    {
      if Oop(p) {
        assert t.E(p) == EntryIn(f, p).(location := t.E(p).location);
      }
    }
    SizeOfSplit(NoObject(t, OBJECT_TABLE_SIZE), ObjectsIn(f), EvenTo(OOP_COUNT));
  }

  // loadObjectTable: the entries of the file, the others free and listed from the lowest on, and the free ones counted.
  method LoadObjectTable(om: ObjectMemory, f: File) returns (ghost frees: seq<int>)
    requires om.Valid() && WellFormed(f)
    modifies om`st, om`freeOops, om.mem
    ensures om.Valid() && FreesFrom(f, om.st, frees, 2) && Frees(om.st, frees) &&
      om.st.freeOops + |ObjectsIn(f)| == OOP_COUNT
  {
    ReadTable(om, f);
    frees := BuildFreePointerList(om, f);
    FreesListed(f, om.st, frees);
    ObjectsAudited(f, om.st, frees);
    var count := AuditFreeOops(om);
    om.freeOops := count;
    ghost var t := om.st;
    om.st := om.st.(freeOops := count);
    CounterSet(f, t, frees, om.st);
  }

  lemma {:induction false} CounterSet(f: File, t: State, frees: seq<int>, u: State)
    requires FreesFrom(f, t, frees, 2) && Frees(t, frees) && u == t.(freeOops := u.freeOops)
    ensures FreesFrom(f, u, frees, 2) && Frees(u, frees)
  {
    SameFrees(t, u, frees);
    assert OpenFrees(0);
    assert forall p :: u.E(p) == t.E(p);
    forall i | 0 <= i < |frees|
      ensures FreeLink(u, frees, i)
    {
      assert FreeLink(t, frees, i);
    }
  }

  method ReadTable(om: ObjectMemory, f: File)
    requires om.Valid() && WellFormed(f)
    modifies om`st, om.mem
    ensures om.Valid() && EntriesTo(f, om.st, OBJECT_TABLE_SIZE) && om.st.freeHead == NON_POINTER
  {
    ReadEntries(om, f);
    ghost var t := om.st;
    om.HeadOfFreePointerListPut(NON_POINTER);
    assert forall p :: om.st.E(p) == t.E(p);
    FreeEntries(om, f);
  }
}
