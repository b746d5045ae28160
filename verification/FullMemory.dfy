// A memory full of objects that nothing refers to: nil, a class that nil alone refers to, and in every
// segment an object that takes the rest of it.
module FullMemory {
  import opened Words
  import opened Memory
  import opened Traversal
  import opened Marking
  import opened RefCounts
  import opened Layouts
  import opened Freeing
  import opened StorePointers
  import opened Abandoning
  import opened Compaction
  import opened ChunkAllocation
  import opened Accounts
  import opened ObjectAllocation
  import opened Rectify
  import opened Collection
  import opened CollectingAllocation
  import opened FirstMemory

  // The class lies behind nil, and takes two words as well.
  const A_CLASS: Word := 4
  const CUT := 2

  function FullEntry(p: int): Entry {
    if TakenEntry(p) then
      Entry(if p == NIL_POINTER then STUCK else if p == A_CLASS then 1 else 0, 0, 0, 0, 0,
        if 0 <= SegmentOf(p) < 16 then SegmentOf(p) else 0, if 0 <= StartOf(p, CUT) < 65536 then StartOf(p, CUT) else 0)
    else Entry(0, 0, 0, 1, 0, 0, if 0 <= p < OBJECT_TABLE_SIZE - 2 then p + 2 else NON_POINTER)
  }

  function FullWord(a: int): Word {
    var segment, w := a / 65536, a % 65536;
    if IsHead(a) then NON_POINTER else InSegment(segment, w)
  }

  function InSegment(segment: int, w: int): Word {
    if segment == 0 && w == 0 then 2
    else if segment == 0 && w == 1 then A_CLASS
    else if segment == 0 && w == 2 then 2
    else if segment == 0 && w == 3 then NIL_POINTER
    else if segment == 0 && w == 4 then HEAP_SPACE_STOP + 1 - 4
    else if segment > 0 && w == 0 then HEAP_SPACE_STOP + 1
    else NIL_POINTER
  }

  function ClassFor(p: int): Word {
    if p == NIL_POINTER then A_CLASS else NIL_POINTER
  }

  ghost function FullLayout(): Layout {
    Layout(set p | 2 <= p <= LAST_CHUNK && TakenEntry(p), map p | 2 <= p <= LAST_CHUNK && TakenEntry(p) ::
      FullLength(p),
      map a | a in Heads() :: [], seq((OBJECT_TABLE_SIZE - LAST_CHUNK) / 2 - 1, k => FreeEntry(k)))
  }

  function FullLength(p: int): nat {
    if LengthOf(p, CUT) >= 0 then LengthOf(p, CUT) else 0
  }

  ghost function FullState(): State {
    State(seq(HEAP_WORDS, a => FullWord(a)), seq(OBJECT_TABLE_SIZE, p => FullEntry(p)), FreeEntry(0), 0, 0,
      OOP_COUNT - |FullLayout().alloc|)
  }

  // s and g are that memory and its layout.
  ghost predicate IsFull(s: State, g: Layout) {
    forall k {:trigger OpenFull(k)} :: OpenFull(k) ==> IsFullUnfolded(s, g)
  }

  ghost predicate OpenFull(k: int) {
    true
  }

  ghost predicate IsFullUnfolded(s: State, g: Layout) {
    Shaped(s) && (forall p {:trigger s.E(p)} :: Oop(p) ==> s.E(p) == FullEntry(p)) &&
    (forall a {:trigger At(s.words, a)} :: 0 <= a < HEAP_WORDS ==> At(s.words, a) == FullWord(a)) &&
    (forall p {:trigger p in g.alloc} :: p in g.alloc <==> TakenEntry(p)) &&
    (forall p {:trigger p in g.len} :: p in g.len <==> TakenEntry(p)) &&
    (forall p {:trigger p in g.len} :: p in g.len ==> g.len[p] == FullLength(p)) &&
    (forall a {:trigger IsHead(a)} {:trigger a in g.lists} :: IsHead(a) <==> a in g.lists) &&
    (forall a {:trigger a in g.lists} :: a in g.lists ==> g.lists[a] == [])
  }

  lemma {:induction false} FullIs()
    ensures IsFull(FullState(), FullLayout())
  {
    var g := FullLayout();
    forall a
      ensures IsHead(a) <==> a in g.lists
    {
      assert a in Heads() <==> IsHead(a);
    }
  }

  lemma {:induction false} FullFrees(s: State, frees: seq<int>)
    requires s == FullState() && frees == FullLayout().frees
    ensures Frees(s, frees) && frees != []
  {
    forall p | Oop(p)
      ensures s.E(p).free == (if p < FreeEntry(0) then 0 else 1)
      ensures p >= FreeEntry(0) ==> s.E(p).location == if p < OBJECT_TABLE_SIZE - 2 then p + 2 else NON_POINTER
    {
      assert s.E(p) == FullEntry(p);
    }
    RunOfFrees(s, frees, FreeEntry(0));
  }

  // Where p is.
  lemma {:induction false} FullPlace(p: int)
    requires TakenEntry(p)
    ensures 0 <= SegmentOf(p) < HEAP_SEGMENT_COUNT && 0 <= StartOf(p, CUT) &&
      HEADER_SIZE <= FullLength(p) == LengthOf(p, CUT)
    ensures StartOf(p, CUT) + FullLength(p) <= HEAP_SPACE_STOP + 1
    ensures SegmentOf(p) == 0 <==> p <= LastChunkOf(0)
    ensures p > LastChunkOf(0) ==> StartOf(p, CUT) == 0 && p == LastChunkOf(SegmentOf(p))
  {
  }

  lemma {:induction false} FullEntryIs(s: State, g: Layout, p: int)
    requires IsFull(s, g) && TakenEntry(p)
    ensures Oop(p) && p in g.len && g.len[p] == FullLength(p) && p in g.alloc
    ensures s.E(p).segment == SegmentOf(p) && s.E(p).location == StartOf(p, CUT) && s.E(p).pointer == s.E(p).free == 0
    ensures s.E(p).count == if p == NIL_POINTER then STUCK else if p == A_CLASS then 1 else 0
  {
    assert OpenFull(0);
    FullPlace(p);
    assert s.E(p) == FullEntry(p);
  }

  lemma {:induction false} FullHeader(s: State, g: Layout, p: int)
    requires IsFull(s, g) && TakenEntry(p)
    ensures SizeOf(s, p) == FullLength(p) && ClassOf(s, p) == ClassFor(p)
  {
    FullEntryIs(s, g, p);
    FullPlace(p);
    HeadWords(p);
    FullWordIs(s, g, SegmentOf(p), StartOf(p, CUT));
    FullWordIs(s, g, SegmentOf(p), StartOf(p, CUT) + 1);
  }

  lemma {:induction false} FullWordIs(s: State, g: Layout, segment: int, w: int)
    requires IsFull(s, g) && 0 <= segment < HEAP_SEGMENT_COUNT && 0 <= w <= HEAP_SPACE_STOP
    ensures At(s.words, segment * 65536 + w) == InSegment(segment, w)
  {
    var a := segment * 65536 + w;
    FullWordAt(segment, w);
    assert At(s.words, a) == FullWord(a) by {
      assert OpenFull(0);
    }
  }

  lemma {:induction false} HeadWords(p: int)
    requires TakenEntry(p)
    ensures InSegment(SegmentOf(p), StartOf(p, CUT)) == FullLength(p)
    ensures InSegment(SegmentOf(p), StartOf(p, CUT) + 1) == ClassFor(p)
  {
    FullPlace(p);
  }

  lemma {:induction false} FullObject(s: State, g: Layout, p: int)
    requires IsFull(s, g) && TakenEntry(p)
    ensures Oop(p) && p in g.len && g.len[p] == FullLength(p) && p in g.alloc && Placed(s, p, g.len[p])
    ensures s.E(p).segment == SegmentOf(p) && s.E(p).location == StartOf(p, CUT) && s.E(p).pointer == 0
    ensures s.E(p).count == if p == NIL_POINTER then STUCK else if p == A_CLASS then 1 else 0
    ensures SizeOf(s, p) == g.len[p] && ClassOf(s, p) == ClassFor(p) && LastPointer(s, p) == HEADER_SIZE
    ensures Sized(s, p, g.len[p])
  {
    FullEntryIs(s, g, p);
    FullPlace(p);
    FullHeader(s, g, p);
  }

  lemma {:induction false} FullWordAt(segment: int, w: int)
    requires 0 <= segment < HEAP_SEGMENT_COUNT && 0 <= w <= HEAP_SPACE_STOP
    ensures var a := segment * 65536 + w; 0 <= a < HEAP_WORDS && a / 65536 == segment && a % 65536 == w && !IsHead(a)
  {
  }

  lemma {:induction false} FullDomain(s: State, g: Layout)
    requires IsFull(s, g)
    ensures Shaped(s) && g.alloc == g.len.Keys && forall p {:trigger p in g.len} :: p in g.len <==> TakenEntry(p)
    ensures forall p {:trigger s.E(p)} :: Oop(p) && s.E(p).free == 0 ==> p in g.len
  {
    assert OpenFull(0);
    assert forall p :: p in g.alloc <==> p in g.len;
    forall p | Oop(p) && s.E(p).free == 0
      ensures p in g.len
    {
      assert s.E(p) == FullEntry(p);
    }
  }

  lemma {:induction false} FullChunks(s: State, g: Layout)
    requires IsFull(s, g)
    ensures Chunks(s, g)
  {
    FullDomain(s, g);
    forall p | p in g.len
      ensures Placed(s, p, g.len[p])
    {
      FullObject(s, g, p);
    }
    forall p, q | p in g.len && q in g.len && p != q
      ensures Separate(s, p, g.len[p], q, g.len[q])
    {
      FullObject(s, g, p);
      FullObject(s, g, q);
      FullPlace(p);
      FullPlace(q);
    }
  }

  lemma {:induction false} FullLists(s: State, g: Layout)
    requires IsFull(s, g)
    ensures Lists(s, g) && AllListed(g, {})
  {
    assert OpenFull(0);
    forall a | a in g.lists
      ensures Linked(s, a, g.lists[a])
    {
      assert IsHead(a) && At(s.words, a) == FullWord(a);
    }
  }

  lemma {:induction false} FullLaidOut(s: State, g: Layout)
    requires IsFull(s, g) && Frees(s, g.frees)
    ensures LaidOut(s, g)
  {
    FullDomain(s, g);
    FullChunks(s, g);
    FullLists(s, g);
    forall p | p in g.alloc
      ensures Sized(s, p, g.len[p])
    {
      FullObject(s, g, p);
    }
    assert LaidOutUnfolded(s, g);
  }

  // Every word is taken, the last of each segment too.
  lemma {:induction false} FullCovered(s: State, g: Layout, segment: int, w: int) returns (p: int)
    requires IsFull(s, g) && 0 <= segment < HEAP_SEGMENT_COUNT && 0 <= w <= HEAP_SPACE_STOP
    ensures p in g.len && s.E(p).segment == segment && s.E(p).location <= w < s.E(p).location + g.len[p]
  {
    p := if segment == 0 && w < 2 then NIL_POINTER else if segment == 0 && w < 4 then A_CLASS else LastChunkOf(segment);
    assert TakenEntry(p);
    FullObject(s, g, p);
  }

  lemma {:induction false} FullTiled(s: State, g: Layout)
    requires IsFull(s, g)
    ensures Tiled(s, g)
  {
    forall segment, w | 0 <= segment < HEAP_SEGMENT_COUNT && 0 <= w < HEAP_SPACE_STOP
      ensures InChunk(s, g, segment, w)
    {
      var p := FullCovered(s, g, segment, w);
    }
  }

  lemma {:induction false} FullTotal(s: State, g: Layout)
    requires IsFull(s, g)
    ensures g.alloc <= g.len.Keys && TotalLength(g.len, g.alloc) == HEAP_ROOM
  {
    FullDomain(s, g);
    FullChunks(s, g);
    CellsCounted(s, g, g.alloc);
    RangeSize(0, HEAP_ROOM);
    var cells, all := Cells(s, g, g.alloc), Range(0, HEAP_ROOM);
    forall x
      ensures x in cells <==> x in all
    {
      if 0 <= x < HEAP_ROOM {
        FullCell(s, g, x);
        assert Between(0, x, HEAP_ROOM);
      }
    }
    assert cells == all;
  }

  lemma {:induction false} FullCell(s: State, g: Layout, x: int)
    requires IsFull(s, g) && 0 <= x < HEAP_ROOM
    ensures InCells(s, g, g.alloc, x)
  {
    var segment, w := x / (HEAP_SPACE_STOP + 1), x % (HEAP_SPACE_STOP + 1);
    var p := FullCovered(s, g, segment, w);
    FullDomain(s, g);
    assert Covers(s, g, p, x);
  }

  lemma {:induction false} FullPlaces(s: State, g: Layout, q: int)
    requires IsFull(s, g)
    ensures Holders(s, Places(s, g.alloc) - NO_HOLE, A_CLASS) == {(NIL_POINTER as int, 1)}
    ensures q != NIL_POINTER && q != A_CLASS ==> Holders(s, Places(s, g.alloc) - NO_HOLE, q) == {}
  {
    FullDomain(s, g);
    assert TakenEntry(NIL_POINTER);
    forall p | p in g.alloc
      ensures LastPointer(s, p) == HEADER_SIZE && WordOf(s, p, 1) == ClassFor(p)
    {
      FullObject(s, g, p);
      assert ClassOf(s, p) == WordOf(s, p, 1);
    }
  }

  lemma {:induction false} FullCounts(s: State, g: Layout)
    requires IsFull(s, g)
    ensures Closed(s, g.alloc, NO_HOLE) && Exact(s, g.alloc, NO_HOLE, multiset{}) && ClassesAreObjects(s, g) &&
      NilStuck(s, g.alloc)
  {
    FullDomain(s, g);
    assert TakenEntry(NIL_POINTER) && TakenEntry(A_CLASS);
    FullObject(s, g, NIL_POINTER);
    forall p | p in g.alloc
      ensures LastPointer(s, p) == HEADER_SIZE && WordOf(s, p, 1) == ClassFor(p) == ClassOf(s, p)
      ensures s.E(p).count == STUCK ||
        (s.E(p).count < STUCK && s.E(p).count == Refs(s, g.alloc, NO_HOLE, p) + multiset{}[p])
    {
      FullObject(s, g, p);
      FullPlaces(s, g, p);
      assert ClassOf(s, p) == WordOf(s, p, 1);
    }
    forall p, i, q | p in g.alloc && PointsTo(s, p, i, q)
      ensures q in g.alloc
    {
      assert i == 1;
    }
  }

  lemma {:induction false} FullSound()
    ensures Sound(FullState(), FullLayout(), multiset{})
  {
    var s, g := FullState(), FullLayout();
    FullIs();
    FullFrees(s, g.frees);
    FullLaidOut(s, g);
    FullTiled(s, g);
    FullTotal(s, g);
    FullCounts(s, g);
    FullDomain(s, g);
    assert Healthy(s, g, multiset{});
  }

  // An allocation in it

  // From nil nothing but nil and the class can be reached.
  lemma {:induction false} WalkFromNil(s: State, g: Layout, path: seq<int>)
    requires IsFull(s, g) && Walk(s, path) && path[0] == NIL_POINTER
    ensures path[|path| - 1] == NIL_POINTER || path[|path| - 1] == A_CLASS
  {
    var n := |path| - 1;
    if n > 0 {
      WalkFromNil(s, g, path[..n]);
      var p := path[n - 1];
      assert TakenEntry(p);
      FullObject(s, g, p);
      var i :| PointsTo(s, p, i, path[n]);
      assert WordOf(s, p, 1) == ClassOf(s, p);
    }
  }

  lemma {:induction false} FromNil(s: State, g: Layout, q: int)
    requires IsFull(s, g)
    ensures Accessible(s, [NIL_POINTER], q) <==> q == NIL_POINTER || q == A_CLASS
  {
    if Accessible(s, [NIL_POINTER], q) {
      var path :| Walk(s, path) && path[0] in [NIL_POINTER] && path[|path| - 1] == q;
      WalkFromNil(s, g, path);
    }
    FullObject(s, g, NIL_POINTER);
    var nil: int, class_: int := NIL_POINTER, A_CLASS;
    assert ClassOf(s, nil) == WordOf(s, nil, 1) && PointsTo(s, nil, 1, class_);
    var short := [nil];
    assert Walk(s, short);
    var long := [nil, class_];
    assert long[..1] == short && Edge(s, nil, class_);
    assert Walk(s, long);
  }

  // Every segment but the first would be one free chunk after a collection, so that none is spent.
  lemma {:induction false} NotExhausted(t: State, h: Layout, size: int)
    requires LaidOut(t, h) && Tiled(t, h) && 0 <= size && size + HEADER_SIZE <= HEAP_SPACE_STOP
    requires forall q {:trigger q in h.alloc} :: q in h.alloc ==> t.E(q).segment == 0
    ensures !AllExhausted(t, h, size, true)
  {
    var segment, last := 1, HEAP_SPACE_STOP - 1;
    assert InChunk(t, h, segment, 0) && InChunk(t, h, segment, last);
    var c :| c in h.len && t.E(c).segment == segment && t.E(c).location <= 0 < t.E(c).location + h.len[c];
    var d :| d in h.len && t.E(d).segment == segment && t.E(d).location <= last < t.E(d).location + h.len[d];
    assert c in Holes(t, h, segment) && d in Holes(t, h, segment);
    assert !Exhausted(t, h, segment, size, true);
  }

  // No room is found before a collection.
  lemma {:induction false} NoRoom(s: State, g: Layout, u: State, h: Layout, p: int, size: Word, t: State)
    requires Sound(s, g, multiset{}) && A_CLASS as int in g.alloc && s.freeWords == 0
    ensures !Allotted(s, g, u, h, p, size, 0, 0, A_CLASS, t)
  {
    if Allotted(s, g, u, h, p, size, 0, 0, A_CLASS, t) {
      ClassCounted(s, g, multiset{}, A_CLASS);
      SoundReady(CountedUp(s, A_CLASS), g, Register(multiset{}, A_CLASS));
      EnoughWords(CountedUp(s, A_CLASS), g, u, h, p, size);
    }
  }

  // Everything that is kept is in the first segment, and there are entries left.
  lemma {:induction false} FullFound(s: State, g: Layout, t: State, size: Word, c: Course, u: State)
    requires IsFull(s, g) && Sound(s, g, multiset{}) && g.frees != [] && t == CountedUp(s, A_CLASS)
    requires Sound(t, g, Register(multiset{}, A_CLASS)) && AllKept(s, g, t)
    requires size + HEADER_SIZE <= HEAP_SPACE_STOP && c.collected
    ensures !Went(t, g, [NIL_POINTER], multiset{NIL_POINTER as int}, size, NIL_POINTER, c, u)
  {
    if Went(t, g, [NIL_POINTER], multiset{NIL_POINTER as int}, size, NIL_POINTER, c, u) {
      assert OpenWent(0);
      SoundReady(s, g, multiset{});
      SoundReady(t, g, Register(multiset{}, A_CLASS));
      SoundHealthy(s, g, multiset{});
      HealthyReady(s, g, multiset{});
      KeptUnseen(s, g, t, c.before, c.laid);
      UnseenReady(t, g, c.before, c.laid);
      CollectedReady(c.before, c.laid, [NIL_POINTER], multiset{NIL_POINTER as int}, c.after, c.kept, c.relaid);
      UnseenReady(c.after, c.relaid, u, c.end);
      forall q | q in c.end.alloc
        ensures u.E(q).segment == 0
      {
        FullKept(s, g, c, u, q);
      }
      NotExhausted(u, c.end, size);
    }
  }

  lemma {:induction false} FullKept(s: State, g: Layout, c: Course, u: State, q: int)
    requires IsFull(s, g) && LaidOut(s, g) && Closed(s, g.alloc, NO_HOLE) && AllKept(s, g, c.before)
    requires Collected(c.before, c.laid, [NIL_POINTER], multiset{NIL_POINTER as int}, c.after, c.kept, c.relaid)
    requires Unseen(c.after, c.relaid, u, c.end) && c.relaid.alloc == c.kept && q in c.end.alloc
    ensures u.E(q).segment == 0
  {
    assert OpenUnseen(0);
    assert Carried(c.after, c.relaid, u, c.end, q);
    FullDomain(s, g);
    assert TakenEntry(NIL_POINTER) && TakenEntry(A_CLASS);
    KeptAccessible(s, g, c.before, [NIL_POINTER], q);
    FromNil(s, g, q);
    FullObject(s, g, q);
    assert Kept(s, g, c.before, q);
    assert c.after.E(q).(count := 0) == c.before.E(q).(count := 0);
  }

  // What an allocation leaves, then, is counted one short: nil alone refers to the class, and no
  // register does.
  lemma {:induction false} FullShort(s: State, g: Layout, t: State, h: Layout, M: set<int>, p: int, size: Word,
                                     odd: Bit, pointer: Bit)
    requires IsFull(s, g) && LaidOut(s, g)
    requires BornAfterCollection(s, g, [NIL_POINTER], multiset{NIL_POINTER as int}, t, h, M, p, size, odd, pointer,
      A_CLASS)
    ensures !Exact(t, h.alloc, NO_HOLE, multiset{NIL_POINTER as int})
  {
    FromNil(s, g, A_CLASS);
    FullDomain(s, g);
    FullPlaces(s, g, A_CLASS);
    RefsMonotone(s, M, g.alloc, NO_HOLE, A_CLASS);
    HoldersMonotone(s, PlacesTo(s, M, A_CLASS), Places(s, g.alloc) - NO_HOLE, A_CLASS);
    ClassOneShort(s, g, [NIL_POINTER], multiset{NIL_POINTER as int}, t, h, M, p, size, odd, pointer, A_CLASS);
  }

  // In the full memory, an instance of the class is allocated, and the counts are wrong.
  method AllocateInFull(om: ObjectMemory, size: Word) returns (p: Word, ghost h: Layout)
    requires om.Valid() && om.st == FullState() && HEADER_SIZE <= size && size + HEADER_SIZE <= HEAP_SPACE_STOP
    modifies om`st, om`currentSegment, om`freeWords, om`freeOops, om.mem
    ensures om.Valid() && p != NIL_POINTER && p in h.alloc && LaidOut(om.st, h)
    ensures Sound(old(om.st), FullLayout(), multiset{}) && !Exact(om.st, h.alloc, NO_HOLE, multiset{NIL_POINTER as int})
  {
    FullSound();
    FullIs();
    FullFrees(om.st, FullLayout().frees);
    p, h := AllocateWhenFull(om, size, FullLayout());
  }

  method AllocateWhenFull(om: ObjectMemory, size: Word, ghost g: Layout) returns (p: Word, ghost h: Layout)
    requires om.Valid() && IsFull(om.st, g) && Sound(om.st, g, multiset{}) && om.st.freeWords == 0 && g.frees != []
    requires HEADER_SIZE <= size && size + HEADER_SIZE <= HEAP_SPACE_STOP
    modifies om`st, om`currentSegment, om`freeWords, om`freeOops, om.mem
    ensures om.Valid() && p != NIL_POINTER && p in h.alloc && LaidOut(om.st, h)
    ensures !Exact(om.st, h.alloc, NO_HOLE, multiset{NIL_POINTER as int})
  {
    ghost var s := om.st;
    FullReady(s, g);
    var roots: seq<Word> := [NIL_POINTER];
    ghost var c;
    p, h, c := Allocate(om, size, 0, 0, 0, A_CLASS, roots, NIL_POINTER, false, NIL_POINTER, g, multiset{});
    FullOutcome(s, g, size, p, h, c, om.st);
  }

  lemma {:induction false} FullReady(s: State, g: Layout)
    requires IsFull(s, g)
    ensures A_CLASS as int in g.alloc && NIL_POINTER as int in g.alloc && Accessible(s, [NIL_POINTER], A_CLASS)
    ensures RegistersCounted(NIL_POINTER, false, NIL_POINTER) == multiset{NIL_POINTER as int}
  {
    FullDomain(s, g);
    FromNil(s, g, A_CLASS);
    assert TakenEntry(NIL_POINTER) && TakenEntry(A_CLASS);
  }

  // p was allocated, after a collection.
  lemma {:induction false} FullOutcome(s: State, g: Layout, size: Word, p: int, h: Layout, c: Course, u: State)
    requires IsFull(s, g) && Sound(s, g, multiset{}) && s.freeWords == 0 && g.frees != []
    requires HEADER_SIZE <= size && size + HEADER_SIZE <= HEAP_SPACE_STOP
    requires !c.collected ==> Allotted(s, g, c.found, c.end, p, size, 0, 0, A_CLASS, u)
    requires c.collected && p != NIL_POINTER ==>
      BornAfterCollection(s, g, [NIL_POINTER], multiset{NIL_POINTER as int}, u, h, c.kept, p, size, 0, 0, A_CLASS)
    requires p == NIL_POINTER ==>
      Went(CountedUp(s, A_CLASS), g, [NIL_POINTER], multiset{NIL_POINTER as int}, size, p, c, u)
    ensures p != NIL_POINTER && p in h.alloc && LaidOut(u, h) &&
      !Exact(u, h.alloc, NO_HOLE, multiset{NIL_POINTER as int})
  {
    FullDomain(s, g);
    assert TakenEntry(A_CLASS);
    SoundReady(s, g, multiset{});
    NoRoom(s, g, c.found, c.end, p, size, u);
    if p == NIL_POINTER {
      ClassCounted(s, g, multiset{}, A_CLASS);
      FullFound(s, g, CountedUp(s, A_CLASS), size, c, u);
    } else {
      FullShort(s, g, u, h, c.kept, p, size, 0, 0);
    }
  }
}
