// An image with an object of two words in every entry of the table: it fills a segment and a little of
// the next, and leaves no entry for the free chunks.
module CrowdedImage {
  import opened Words
  import opened Memory
  import opened Accounts
  import opened TableLoading
  import opened ObjectLoading
  import opened SnapshotLoading

  const OBJECT_WORDS := OBJECT_TABLE_SIZE - 2
  const TABLE_BASE := IMAGE_BASE + OBJECT_WORDS

  // Object p has the words p - 2 and p - 1 of the object space.
  function CrowdedEntry(p: int): Entry {
    Entry(STUCK, 0, 0, 0, 0, 0, if 2 <= p < 65536 then p - 2 else 0)
  }

  function CrowdedWord(a: int): Word {
    if a == 0 then OBJECT_WORDS
    else if a == 2 then OBJECT_TABLE_SIZE
    else if a < IMAGE_BASE then 0
    else if a < TABLE_BASE then NIL_POINTER
    else TableEntryWord(a - TABLE_BASE)
  }

  function TableEntryWord(i: int): Word {
    if i % 2 == 0 then Pack(CrowdedEntry(i)) else CrowdedEntry(i - 1).location
  }

  ghost function CrowdedFile(): File {
    seq(TABLE_BASE + OBJECT_TABLE_SIZE, a => CrowdedWord(a))
  }

  ghost predicate IsCrowded(f: File) {
    |f| == TABLE_BASE + OBJECT_TABLE_SIZE && forall a {:trigger f[a]} :: 0 <= a < |f| ==> f[a] == CrowdedWord(a)
  }

  lemma {:induction false} CrowdedEntryIn(f: File, p: int)
    requires IsCrowded(f) && InTable(p)
    ensures TableLength(f) == OBJECT_TABLE_SIZE && EntryIn(f, p) == CrowdedEntry(p)
  {
    assert f[2] == OBJECT_TABLE_SIZE && f[3] == 0;
    assert f[TABLE_BASE + p] == TableEntryWord(p) && f[TABLE_BASE + (p + 1)] == TableEntryWord(p + 1);
    UnpackPacked(CrowdedEntry(p));
  }

  lemma {:induction false} CrowdedObject(f: File, p: int)
    requires IsCrowded(f) && Oop(p)
    ensures ObjectIn(f, p) && EntryIn(f, p).count == STUCK && EntryIn(f, p).pointer == 0
    ensures ObjectWord(f, p, 0) == ObjectWord(f, p, 1) == NIL_POINTER
    ensures SizeIn(f, p) == 2 && SpaceIn(f, p) == 2 && LastPointerIn(f, p) == HEADER_SIZE
    ensures IMAGE_BASE + Address(EntryIn(f, p)) + SizeIn(f, p) <= |f|
  {
    CrowdedEntryIn(f, p);
    assert f[IMAGE_BASE + (p - 2)] == NIL_POINTER && f[IMAGE_BASE + (p - 1)] == NIL_POINTER;
  }

  lemma {:induction false} CrowdedObjects(f: File)
    requires IsCrowded(f)
    ensures |ObjectsIn(f)| == OOP_COUNT && forall p {:trigger p in ObjectsIn(f)} :: p in ObjectsIn(f) <==> Oop(p)
  {
    EvenToSize(OOP_COUNT);
    var objects, all := ObjectsIn(f), EvenTo(OOP_COUNT);
    forall p
      ensures (p in objects <==> Oop(p)) && (p in all <==> Oop(p))
    {
      if Oop(p) {
        CrowdedObject(f, p);
      }
    }
    assert objects == all;
  }

  ghost predicate Good(f: File, p: int) {
    ObjectIn(f, p) && EntryIn(f, p).count != 0 && HEADER_SIZE <= SizeIn(f, p) && LastPointerIn(f, p) <= SizeIn(f, p) &&
    SpaceIn(f, p) <= HEAP_SPACE_STOP + 1 && IMAGE_BASE + Address(EntryIn(f, p)) + SizeIn(f, p) <= |f|
  }

  lemma {:induction false} AllGood(f: File, nil: int)
    requires TableLength(f) == OBJECT_TABLE_SIZE && IMAGE_BASE + OBJECT_TABLE_SIZE <= |f| && nil == NIL_POINTER
    requires forall p {:trigger Good(f, p)} :: Oop(p) ==> Good(f, p)
    ensures WellFormed(f)
  {
    forall p | Oop(p)
      ensures Good(f, p)
    {
    }
    assert Oop(nil) && Good(f, nil);
    forall p | ObjectIn(f, p)
      ensures Good(f, p)
    {
    }
  }

  lemma {:induction false} CrowdedWellFormed(f: File, nil: int)
    requires IsCrowded(f) && nil == NIL_POINTER
    ensures WellFormed(f)
  {
    CrowdedEntryIn(f, nil);
    forall p | Oop(p)
      ensures Good(f, p)
    {
      CrowdedObject(f, p);
    }
    AllGood(f, nil);
  }

  ghost predicate Pair(m: Contents, q: int) {
    q in m && SpaceC(m, q) == 2
  }

  ghost predicate AllPairs(m: Contents) {
    forall q {:trigger Pair(m, q)} :: Oop(q) ==> Pair(m, q)
  }

  // Objects of two words each fill the first segment, but for its last word, and then the second.
  lemma {:induction false} PairsFill(m: Contents, p: int)
    requires AllPairs(m)
    requires 2 <= p <= OBJECT_TABLE_SIZE && p % 2 == 0
    ensures var x := Filled(m, p);
      x.ok && |x.used| == HEAP_SEGMENT_COUNT && 0 <= x.dest <= 1 && x.used[0] + x.used[1] == p - 2 &&
      0 <= x.used[1] && 0 <= x.used[0] <= ROOM && (x.dest == 1 ==> x.used[0] >= ROOM - 1) &&
        (x.dest == 0 ==> x.used[1] == 0) &&
      forall k {:trigger x.used[k]} :: 2 <= k < HEAP_SEGMENT_COUNT ==> x.used[k] == 0
    decreases p
  {
    if p > 2 {
      var q := p - 2;
      PairsFill(m, q);
      assert Oop(q) && Pair(m, q);
    }
  }

  lemma {:induction false} ManyTails(used: seq<int>, k: int)
    requires |used| == HEAP_SEGMENT_COUNT && 2 <= k <= HEAP_SEGMENT_COUNT
    requires forall j {:trigger used[j]} :: 2 <= j < HEAP_SEGMENT_COUNT ==> used[j] == 0
    ensures Tails(used, k) >= k - 2
    decreases k
  {
    if k > 2 {
      ManyTails(used, k - 1);
    }
  }

  // The image is well formed and counted, and it fits; but the segments that are left have no entry.
  lemma {:induction false} TooFewEntries()
    ensures var f := CrowdedFile(); var m := ContentsOf(f);
      WellFormed(f) && WellCounted(m) && Filled(m, OBJECT_TABLE_SIZE).ok && !Enough(m)
  {
    var f := CrowdedFile();
    assert IsCrowded(f);
    CrowdedWellFormed(f, NIL_POINTER);
    CrowdedObjects(f);
    CrowdedContents(f, ContentsOf(f), OBJECT_TABLE_SIZE);
  }

  lemma {:induction false} CrowdedContents(f: File, m: Contents, end: int)
    requires IsCrowded(f) && WellFormed(f) && m == ContentsOf(f) && end == OBJECT_TABLE_SIZE
    requires |ObjectsIn(f)| == OOP_COUNT && forall p {:trigger p in ObjectsIn(f)} :: p in ObjectsIn(f) <==> Oop(p)
    ensures WellCounted(m) && Filled(m, end).ok && !Enough(m)
  {
    FileBacked(f);
    assert m.Keys == ObjectsIn(f);
    forall q | Oop(q)
      ensures Pair(m, q) && Plain(m, q)
    {
      CrowdedContent(f, m, q);
    }
    assert forall q :: q in m <==> Oop(q);
    PairsCrowd(m, end);
    CrowdedCounted(m, NIL_POINTER);
  }

  lemma {:induction false} PairsCrowd(m: Contents, end: int)
    requires AllPairs(m) && |m.Keys| == OOP_COUNT && end == OBJECT_TABLE_SIZE
    ensures Filled(m, end).ok && !Enough(m)
  {
    PairsFill(m, end);
    ManyTails(Filled(m, end).used, HEAP_SEGMENT_COUNT);
  }

  lemma {:induction false} CrowdedContent(f: File, m: Contents, q: int)
    requires IsCrowded(f) && WellFormed(f) && m == ContentsOf(f) && Oop(q)
    ensures Pair(m, q) && Plain(m, q)
  {
    CrowdedObject(f, q);
    ContentIs(f, q);
    assert WordC(m, q, 1) == ObjectWord(f, q, 1);
  }

  // An object whose class is nil, with no other pointer, and whose count has stuck.
  ghost predicate Plain(m: Contents, q: int) {
    EntryC(m, q).count == STUCK && LastPointerC(m, q) == HEADER_SIZE && WordC(m, q, 1) == NIL_POINTER
  }

  lemma {:induction false} CrowdedCounted(m: Contents, nil: int)
    requires nil == NIL_POINTER && forall q {:trigger q in m} :: q in m <==> Oop(q)
    requires forall q {:trigger Plain(m, q)} :: Oop(q) ==> Plain(m, q)
    ensures WellCounted(m)
  {
    assert Oop(nil) && Plain(m, nil) && nil in m;
    forall q | q in m
      ensures Plain(m, q)
    {
    }
    forall q, i | q in m && 1 <= i < LastPointerC(m, q)
      ensures WordC(m, q, i) in m
    {
      assert Plain(m, q) && i == 1;
    }
  }
}
