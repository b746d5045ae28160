// A memory with nothing in it but nil: the first segment's space is two free chunks, the first of
// `cut` words, and every other segment's is one.
module FirstMemory {
  import opened Words
  import opened Memory
  import opened Traversal
  import opened RefCounts
  import opened Layouts
  import opened Freeing
  import opened StorePointers
  import opened Compaction
  import opened Accounts
  import opened Rectify
  import opened Collection

  const CUT_CHUNK := 4
  const LAST_CHUNK := 2 * SEGMENT_COUNT + 2

  // The chunk that ends the object space of a segment.
  function LastChunkOf(segment: int): int {
    2 * segment + 6
  }

  predicate TakenEntry(p: int) {
    2 <= p <= LAST_CHUNK && p % 2 == 0
  }

  function SegmentOf(p: int): int {
    if p <= CUT_CHUNK then 0 else p / 2 - 3
  }

  function StartOf(p: int, cut: int): int {
    if p == NIL_POINTER then 0 else if p == CUT_CHUNK then 2 else if p == LastChunkOf(0) then 2 + cut else 0
  }

  function LengthOf(p: int, cut: int): int {
    if p == NIL_POINTER then 2 else if p == CUT_CHUNK then cut else HEAP_SPACE_STOP + 1 - StartOf(p, cut)
  }

  predicate Fits(cut: int) {
    BIG_SIZE <= cut <= HEAP_SPACE_STOP - 1 - BIG_SIZE
  }

  function EntryOf(p: int, cut: int, pointer: Bit): Entry
    requires Fits(cut)
  {
    if TakenEntry(p) then
      Entry(if p == NIL_POINTER then STUCK else 0, 0, if p == CUT_CHUNK then pointer
        else 0, 0, 0, SegmentOf(p), StartOf(p, cut))
    else Entry(0, 0, 0, 1, 0, 0, if 0 <= p < OBJECT_TABLE_SIZE - 2 then p + 2 else NON_POINTER)
  }

  function WordFor(a: int, cut: int): Word
    requires Fits(cut)
  {
    var segment, w := a / 65536, a % 65536;
    if IsHead(a) then
      (if ListSize(a) < BIG_SIZE then NON_POINTER else if segment == 0 then CUT_CHUNK else LastChunkOf(segment))
    else WordIn(segment, w, cut)
  }

  // The word w of a segment's object space.
  function WordIn(segment: int, w: int, cut: int): Word
    requires Fits(cut)
  {
    if segment == 0 && w == 0 then 2
    else if segment == 0 && w == 1 then NIL_POINTER
    else if segment == 0 && w == 2 then cut
    else if segment == 0 && w == 3 then LastChunkOf(0)
    else if w == StartOf(LastChunkOf(segment), cut) then LengthOf(LastChunkOf(segment), cut)
    else NON_POINTER
  }

  function ListAt(a: int): seq<int> {
    if ListSize(a) < BIG_SIZE then [] else if a / 65536 == 0 then [CUT_CHUNK, LastChunkOf(0)]
      else [LastChunkOf(a / 65536)]
  }

  function FreeEntry(k: int): int {
    LAST_CHUNK + 2 + 2 * k
  }

  function Heads(): set<int> {
    set a | 0 <= a < HEAP_WORDS && IsHead(a)
  }

  ghost function FirstState(cut: int, pointer: Bit): State
    requires Fits(cut)
  {
    State(seq(HEAP_WORDS, a => WordFor(a, cut)), seq(OBJECT_TABLE_SIZE, p => EntryOf(p, cut, pointer)), FreeEntry(0), 0,
      HEAP_ROOM - 2, OOP_COUNT - 1)
  }

  ghost function FirstLayout(cut: int): Layout
    requires Fits(cut)
  {
    Layout({NIL_POINTER}, map p | 2 <= p <= LAST_CHUNK && TakenEntry(p) :: LengthOf(p, cut), map a | a in Heads() ::
      ListAt(a),
           seq((OBJECT_TABLE_SIZE - LAST_CHUNK) / 2 - 1, k => FreeEntry(k)))
  }

  // s and g are that memory and its layout.
  ghost predicate IsFirst(s: State, g: Layout, cut: int, pointer: Bit) {
    forall k {:trigger OpenFirst(k)} :: OpenFirst(k) ==> IsFirstUnfolded(s, g, cut, pointer)
  }

  ghost predicate OpenFirst(k: int) {
    true
  }

  ghost predicate IsFirstUnfolded(s: State, g: Layout, cut: int, pointer: Bit) {
    Fits(cut) && Shaped(s) && (forall p {:trigger s.E(p)} :: Oop(p) ==> s.E(p) == EntryOf(p, cut, pointer)) &&
    (forall a {:trigger At(s.words, a)} :: 0 <= a < HEAP_WORDS ==> At(s.words, a) == WordFor(a, cut)) &&
    g.alloc == {NIL_POINTER} && (forall p {:trigger p in g.len} :: p in g.len <==> TakenEntry(p)) &&
    (forall p {:trigger p in g.len} :: p in g.len ==> g.len[p] == LengthOf(p, cut)) &&
    (forall a {:trigger IsHead(a)} {:trigger a in g.lists} :: IsHead(a) <==> a in g.lists) &&
    (forall a {:trigger a in g.lists} :: a in g.lists ==> g.lists[a] == ListAt(a))
  }

  lemma {:induction false} FirstIs(cut: int, pointer: Bit)
    requires Fits(cut)
    ensures IsFirst(FirstState(cut, pointer), FirstLayout(cut), cut, pointer)
  {
    var g := FirstLayout(cut);
    forall a
      ensures IsHead(a) <==> a in g.lists
    {
      assert a in Heads() <==> IsHead(a);
    }
  }

  lemma {:induction false} FirstFrees(cut: int, pointer: Bit, s: State, frees: seq<int>)
    requires Fits(cut) && s == FirstState(cut, pointer) && frees == FirstLayout(cut).frees
    ensures Frees(s, frees)
  {
    forall p | Oop(p)
      ensures s.E(p).free == (if p < FreeEntry(0) then 0 else 1)
      ensures p >= FreeEntry(0) ==> s.E(p).location == if p < OBJECT_TABLE_SIZE - 2 then p + 2 else NON_POINTER
    {
      NextFree(s, cut, pointer, p);
    }
    RunOfFrees(s, frees, FreeEntry(0));
  }

  // All entries from `first` on are free, each linked to the next.
  lemma {:induction false} RunOfFrees(s: State, frees: seq<int>, first: int)
    requires Oop(first) && s.freeHead == first && first + 2 * |frees| == OBJECT_TABLE_SIZE
    requires forall k {:trigger frees[k]} :: 0 <= k < |frees| ==> frees[k] == first + 2 * k
    requires forall p {:trigger s.E(p)} :: Oop(p) ==> s.E(p).free == if p < first then 0 else 1
    requires forall p {:trigger s.E(p)} :: Oop(p) && first <= p ==>
      s.E(p).location == if p < OBJECT_TABLE_SIZE - 2 then p + 2 else NON_POINTER
    ensures Frees(s, frees)
  {
    forall p | Oop(p) && s.E(p).free == 1
      ensures p in frees
    {
      var k := (p - first) / 2;
      assert frees[k] == p;
    }
    forall k | 0 <= k < |frees|
      ensures Oop(frees[k]) && s.E(frees[k]).free == 1 && FreeLink(s, frees, k)
    {
      assert k + 1 < |frees| ==> frees[k + 1] == first + 2 * (k + 1);
    }
  }

  lemma {:induction false} NextFree(s: State, cut: int, pointer: Bit, p: int)
    requires Fits(cut) && s == FirstState(cut, pointer) && Oop(p)
    ensures s.E(p).free == (if TakenEntry(p) then 0 else 1) &&
      (!TakenEntry(p) ==> s.E(p).location == if p < OBJECT_TABLE_SIZE - 2 then p + 2 else NON_POINTER)
  {
    assert s.E(p) == EntryOf(p, cut, pointer);
  }

  lemma {:induction false} FirstEntry(s: State, g: Layout, cut: int, pointer: Bit, p: int)
    requires IsFirst(s, g, cut, pointer) && TakenEntry(p)
    ensures Fits(cut) && p in g.len && g.len[p] == LengthOf(p, cut) && Oop(p) && Shaped(s) &&
      (p in g.alloc <==> p == NIL_POINTER)
    ensures s.E(p).segment == SegmentOf(p) && s.E(p).location == StartOf(p, cut) && s.E(p).free == 0
    ensures s.E(p).count == (if p == NIL_POINTER then STUCK else 0) &&
      s.E(p).pointer == (if p == CUT_CHUNK then pointer else 0)
  {
    assert OpenFirst(0);
    assert s.E(p) == EntryOf(p, cut, pointer);
  }

  lemma {:induction false} FirstDomain(s: State, g: Layout, cut: int, pointer: Bit)
    requires IsFirst(s, g, cut, pointer)
    ensures Fits(cut) && Shaped(s) && g.alloc == {NIL_POINTER} && g.alloc <= g.len.Keys
    ensures forall p {:trigger p in g.len} :: p in g.len <==> TakenEntry(p)
    ensures forall a {:trigger IsHead(a)} {:trigger a in g.lists} :: IsHead(a) <==> a in g.lists
    ensures forall a {:trigger a in g.lists} :: a in g.lists ==> g.lists[a] == ListAt(a)
    ensures forall p {:trigger s.E(p)} :: Oop(p) && s.E(p).free == 0 ==> p in g.len
  {
    assert OpenFirst(0);
    assert NIL_POINTER in g.len;
    forall p | Oop(p) && s.E(p).free == 0
      ensures p in g.len
    {
      assert s.E(p) == EntryOf(p, cut, pointer);
    }
  }

  lemma {:induction false} FirstWord(s: State, g: Layout, cut: int, pointer: Bit, segment: int, w: int)
    requires IsFirst(s, g, cut, pointer) && 0 <= segment < HEAP_SEGMENT_COUNT && 0 <= w <= HEAP_SPACE_STOP
    ensures Fits(cut) && At(s.words, segment * 65536 + w) == WordIn(segment, w, cut)
  {
    assert OpenFirst(0);
    var a := segment * 65536 + w;
    assert a / 65536 == segment && a % 65536 == w;
    assert At(s.words, a) == WordFor(a, cut);
  }

  // Every chunk is where it should be, with its size and its link.
  lemma {:induction false} FirstChunk(s: State, g: Layout, cut: int, pointer: Bit, p: int)
    requires IsFirst(s, g, cut, pointer) && TakenEntry(p)
    ensures Fits(cut) && p in g.len && g.len[p] == LengthOf(p, cut) && Placed(s, p, g.len[p])
    ensures SizeOf(s, p) == g.len[p] && ClassOf(s, p) == LinkOf(p)
  {
    FirstEntry(s, g, cut, pointer, p);
    FirstWord(s, g, cut, pointer, SegmentOf(p), StartOf(p, cut));
    FirstWord(s, g, cut, pointer, SegmentOf(p), StartOf(p, cut) + 1);
    SizeWord(p, cut);
  }

  function LinkOf(p: int): int {
    if p == NIL_POINTER then NIL_POINTER else if p == CUT_CHUNK then LastChunkOf(0) else NON_POINTER
  }

  lemma {:induction false} SizeWord(p: int, cut: int)
    requires Fits(cut) && TakenEntry(p)
    ensures 0 <= SegmentOf(p) < HEAP_SEGMENT_COUNT && 0 <= StartOf(p, cut) && HEADER_SIZE <= LengthOf(p, cut)
    ensures StartOf(p, cut) + LengthOf(p, cut) <= HEAP_SPACE_STOP + 1
    ensures WordIn(SegmentOf(p), StartOf(p, cut), cut) == LengthOf(p, cut)
    ensures WordIn(SegmentOf(p), StartOf(p, cut) + 1, cut) == LinkOf(p)
  {
    if p == NIL_POINTER {
    } else if p == CUT_CHUNK {
    } else if p == LastChunkOf(0) {
    } else {
      assert LastChunkOf(SegmentOf(p)) == p;
    }
  }

  lemma {:induction false} FirstApart(s: State, g: Layout, cut: int, pointer: Bit, p: int, q: int)
    requires IsFirst(s, g, cut, pointer) && TakenEntry(p) && TakenEntry(q) && p != q
    ensures p in g.len && q in g.len && Separate(s, p, g.len[p], q, g.len[q])
  {
    FirstEntry(s, g, cut, pointer, p);
    FirstEntry(s, g, cut, pointer, q);
    ApartAt(p, q, cut);
  }

  lemma {:induction false} ApartAt(p: int, q: int, cut: int)
    requires Fits(cut) && TakenEntry(p) && TakenEntry(q) && p != q
    ensures SegmentOf(p) == SegmentOf(q) ==>
      StartOf(p, cut) + LengthOf(p, cut) <= StartOf(q, cut) || StartOf(q, cut) + LengthOf(q, cut) <= StartOf(p, cut)
    ensures StartOf(p, cut) + LengthOf(p, cut) <= 65536 && StartOf(q, cut) + LengthOf(q, cut) <= 65536 &&
      0 <= StartOf(p, cut) && 0 <= StartOf(q, cut)
  {
    SizeWord(p, cut);
    SizeWord(q, cut);
    assert SegmentOf(p) == SegmentOf(q) ==> p <= LastChunkOf(0) && q <= LastChunkOf(0);
  }

  lemma {:induction false} FirstList(s: State, g: Layout, cut: int, pointer: Bit, a: int)
    requires IsFirst(s, g, cut, pointer) && a in g.lists
    ensures Linked(s, a, g.lists[a])
    ensures forall i {:trigger g.lists[a][i]} :: 0 <= i < |g.lists[a]| ==> OnList(s, g, a, g.lists[a][i])
  {
    FirstDomain(s, g, cut, pointer);
    assert At(s.words, a) == Next(ListAt(a), 0) by {
      assert OpenFirst(0) && IsHead(a);
      assert At(s.words, a) == WordFor(a, cut);
    }
    forall i | 0 <= i < |ListAt(a)|
      ensures OnList(s, g, a, ListAt(a)[i]) && ClassLink(s, ListAt(a), i)
    {
      FirstElement(s, g, cut, pointer, a, i);
    }
  }

  lemma {:induction false} FirstElement(s: State, g: Layout, cut: int, pointer: Bit, a: int, i: int)
    requires IsFirst(s, g, cut, pointer) && IsHead(a) && 0 <= i < |ListAt(a)|
    ensures OnList(s, g, a, ListAt(a)[i]) && ClassLink(s, ListAt(a), i)
  {
    ElementIs(a, i);
    FirstChunk(s, g, cut, pointer, ListAt(a)[i]);
    FirstEntry(s, g, cut, pointer, ListAt(a)[i]);
  }

  lemma {:induction false} ElementIs(a: int, i: int)
    requires IsHead(a) && 0 <= i < |ListAt(a)|
    ensures var p := ListAt(a)[i];
      TakenEntry(p) && p != NIL_POINTER && SegmentOf(p) == a / 65536 && ListSize(a) == BIG_SIZE &&
        (p == CUT_CHUNK <==> a / 65536 == 0 && i == 0)
    ensures LinkOf(ListAt(a)[i]) == Next(ListAt(a), i + 1)
  {
  }

  lemma {:induction false} FirstLists(s: State, g: Layout, cut: int, pointer: Bit)
    requires IsFirst(s, g, cut, pointer)
    ensures Lists(s, g)
  {
    FirstDomain(s, g, cut, pointer);
    forall a | a in g.lists
      ensures Linked(s, a, g.lists[a])
    {
      FirstList(s, g, cut, pointer, a);
    }
    forall a, i | a in g.lists && 0 <= i < |g.lists[a]|
      ensures OnList(s, g, a, g.lists[a][i])
    {
      FirstList(s, g, cut, pointer, a);
    }
    forall a, b, i, j | a in g.lists && b in g.lists && 0 <= i < |g.lists[a]| && 0 <= j < |g.lists[b]| &&
      g.lists[a][i] == g.lists[b][j]
      ensures a == b && i == j
    {
      ElementIs(a, i);
      ElementIs(b, j);
      SameHead(a, b);
    }
  }

  lemma {:induction false} SameHead(a: int, b: int)
    requires ListSize(a) == ListSize(b) && a / 65536 == b / 65536
    ensures a == b
  {
  }

  lemma {:induction false} FirstListed(s: State, g: Layout, cut: int, pointer: Bit, p: int)
    requires IsFirst(s, g, cut, pointer) && TakenEntry(p) && p != NIL_POINTER
    ensures Listed(g, p)
  {
    FirstDomain(s, g, cut, pointer);
    var segment := SegmentOf(p);
    var a := HeadAddress(BIG_SIZE, segment);
    assert IsHead(a) && ListSize(a) == BIG_SIZE && a / 65536 == segment;
    assert a in g.lists && g.lists[a] == ListAt(a);
    var i := if p != CUT_CHUNK && segment == 0 then 1 else 0;
    assert g.lists[a][i] == p;
  }

  lemma {:induction false} FirstChunks(s: State, g: Layout, cut: int, pointer: Bit)
    requires IsFirst(s, g, cut, pointer)
    ensures Chunks(s, g)
  {
    FirstDomain(s, g, cut, pointer);
    forall p | p in g.len
      ensures Placed(s, p, g.len[p])
    {
      FirstChunk(s, g, cut, pointer, p);
    }
    forall p, q | p in g.len && q in g.len && p != q
      ensures Separate(s, p, g.len[p], q, g.len[q])
    {
      FirstApart(s, g, cut, pointer, p, q);
    }
  }

  lemma {:induction false} FirstLaidOut(s: State, g: Layout, cut: int, pointer: Bit)
    requires IsFirst(s, g, cut, pointer) && Frees(s, g.frees)
    ensures LaidOut(s, g)
  {
    FirstDomain(s, g, cut, pointer);
    FirstChunks(s, g, cut, pointer);
    FirstLists(s, g, cut, pointer);
    FirstNil(s, g, cut, pointer);
    forall p | p in g.len && p !in g.alloc
      ensures Listed(g, p)
    {
      FirstListed(s, g, cut, pointer, p);
    }
    assert LaidOutUnfolded(s, g);
  }

  lemma {:induction false} FirstNil(s: State, g: Layout, cut: int, pointer: Bit)
    requires IsFirst(s, g, cut, pointer)
    ensures NIL_POINTER in g.len && g.len[NIL_POINTER] == 2 && Sized(s, NIL_POINTER, 2) &&
      LastPointer(s, NIL_POINTER) == HEADER_SIZE
    ensures s.E(NIL_POINTER).count == STUCK && ClassOf(s, NIL_POINTER) == NIL_POINTER && g.alloc == {NIL_POINTER}
  {
    assert TakenEntry(NIL_POINTER);
    FirstDomain(s, g, cut, pointer);
    FirstChunk(s, g, cut, pointer, NIL_POINTER);
    FirstEntry(s, g, cut, pointer, NIL_POINTER);
  }

  lemma {:induction false} FirstTiled(s: State, g: Layout, cut: int, pointer: Bit)
    requires IsFirst(s, g, cut, pointer)
    ensures Tiled(s, g)
  {
    FirstNil(s, g, cut, pointer);
    forall segment, w | 0 <= segment < HEAP_SEGMENT_COUNT && 0 <= w < HEAP_SPACE_STOP
      ensures InChunk(s, g, segment, w)
    {
      FirstCovers(s, g, cut, pointer, segment, w);
    }
  }

  lemma {:induction false} FirstCovers(s: State, g: Layout, cut: int, pointer: Bit, segment: int, w: int)
    requires IsFirst(s, g, cut, pointer) && 0 <= segment < HEAP_SEGMENT_COUNT && 0 <= w < HEAP_SPACE_STOP
    ensures InChunk(s, g, segment, w)
  {
    var p := if segment == 0 && w < 2 then NIL_POINTER else if segment == 0 && w < 2 + cut then CUT_CHUNK
      else LastChunkOf(segment);
    assert TakenEntry(p);
    FirstEntry(s, g, cut, pointer, p);
  }

  lemma {:induction false} FirstCounts(s: State, g: Layout, cut: int, pointer: Bit)
    requires IsFirst(s, g, cut, pointer)
    ensures Closed(s, g.alloc, NO_HOLE) && Exact(s, g.alloc, NO_HOLE, multiset{}) && ClassesAreObjects(s, g) &&
      NilStuck(s, g.alloc)
    ensures g.alloc <= g.len.Keys && TotalLength(g.len, g.alloc) == 2
  {
    FirstNil(s, g, cut, pointer);
    TotalWithout(g.len, g.alloc, NIL_POINTER);
    assert g.alloc - {NIL_POINTER} == {};
    forall p, i, q | p in g.alloc && PointsTo(s, p, i, q)
      ensures q in g.alloc
    {
      assert i == 1 && WordOf(s, p, 1) == ClassOf(s, p);
    }
  }

  // It is a sound memory, whatever the pointer bit of the free chunk.
  lemma {:induction false} FirstSound(cut: int, pointer: Bit)
    requires Fits(cut)
    ensures Sound(FirstState(cut, pointer), FirstLayout(cut), multiset{})
  {
    var s, g := FirstState(cut, pointer), FirstLayout(cut);
    FirstIs(cut, pointer);
    FirstFrees(cut, pointer, s, g.frees);
    FirstLaidOut(s, g, cut, pointer);
    FirstTiled(s, g, cut, pointer);
    FirstCounts(s, g, cut, pointer);
    assert Healthy(s, g, multiset{});
  }

  // With the pointer bit of a large object left, the chunk is stale, and lies below another.
  lemma {:induction false} FirstStale(cut: int)
    requires Fits(cut)
    ensures Stale(FirstState(cut, 1), FirstLayout(cut), CUT_CHUNK) <==> cut >= HUGE_SIZE
    ensures cut >= HUGE_SIZE ==> !Roomy(FirstState(cut, 1), FirstLayout(cut))
  {
    var s, g := FirstState(cut, 1), FirstLayout(cut);
    FirstIs(cut, 1);
    assert TakenEntry(CUT_CHUNK);
    FirstEntry(s, g, cut, 1, CUT_CHUNK);
  }

  // A sound memory whose next collection, whatever it keeps, leaves no layout.
  lemma {:induction false} CollectionMayOverlap(cut: int, roots: seq<Word>, ext: multiset<int>, t: State, M: set<int>,
                                                h: Layout)
    requires Fits(cut) && cut >= HUGE_SIZE && Collected(FirstState(cut, 1), FirstLayout(cut), roots, ext, t, M, h)
    ensures Sound(FirstState(cut, 1), FirstLayout(cut), multiset{}) && forall h': Layout :: h'.alloc == M ==>
      !LaidOut(t, h')
  {
    FirstSound(cut, 1);
    FirstStale(cut);
    SoundReady(FirstState(cut, 1), FirstLayout(cut), multiset{});
    CollectionFits(FirstState(cut, 1), FirstLayout(cut), roots, ext, t, M, h);
  }

  // A sound memory whose next collection leaves freeWords too high by all its free chunks.
  lemma {:induction false} FreeWordsMayBeHigh(cut: int, roots: seq<Word>, ext: multiset<int>, t: State, M: set<int>,
                                              h: Layout)
    requires Fits(cut) && Collected(FirstState(cut, 0), FirstLayout(cut), roots, ext, t, M, h)
    ensures Sound(FirstState(cut, 0), FirstLayout(cut), multiset{}) && M <= FirstLayout(cut).len.Keys
    ensures t.freeWords + TotalLength(FirstLayout(cut).len, M) > HEAP_ROOM
  {
    var s, g := FirstState(cut, 0), FirstLayout(cut);
    FirstSound(cut, 0);
    FirstIs(cut, 0);
    SoundReady(s, g, multiset{});
    FreeWordsAfterCollection(s, g, roots, ext, t, M, h);
    assert TakenEntry(CUT_CHUNK);
    FirstEntry(s, g, cut, 0, CUT_CHUNK);
    assert CUT_CHUNK in g.len.Keys && CUT_CHUNK !in g.alloc;
  }
}
