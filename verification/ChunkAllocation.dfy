// Finding a chunk: the current segment first, then every segment in turn, compacting each.
module ChunkAllocation {
  import opened Words
  import opened Memory
  import opened Traversal
  import opened RefCounts
  import opened Layouts
  import opened Freeing
  import opened StorePointers
  import opened Allocation
  import opened Abandoning
  import opened Compaction

  // Seen through the object table nothing has happened to the objects of g.
  ghost predicate Unseen(s: State, g: Layout, t: State, h: Layout) {
    forall k {:trigger OpenUnseen(k)} :: OpenUnseen(k) ==> UnseenUnfolded(s, g, t, h)
  }

  ghost predicate OpenUnseen(k: int) {
    true
  }

  ghost predicate UnseenUnfolded(s: State, g: Layout, t: State, h: Layout) {
    LaidOut(t, h) && Tiled(t, h) && AllCarried(s, g, t, h) && |g.frees| <= |h.frees|
  }

  ghost predicate AllCarried(s: State, g: Layout, t: State, h: Layout) {
    h.alloc == g.alloc && t.freeWords == s.freeWords && t.freeOops == s.freeOops &&
    forall p {:trigger p in g.alloc} :: p in g.alloc ==> Carried(s, g, t, h, p)
  }

  // No chunk of the segment can serve: one chunk at most is left there, it does not fit and, if there are
  // entries to split with, cannot be split.
  ghost predicate Spent(t: State, h: Layout, segment: int, size: int, entries: bool) {
    (forall c, d :: c in Holes(t, h, segment) && d in Holes(t, h, segment) ==> c == d) &&
    forall c :: c in Holes(t, h, segment) ==>
      h.len[c] != size && (entries ==> h.len[c] < BIG_SIZE || h.len[c] < size + HEADER_SIZE)
  }

  // No free chunk of the segment keeps the pointer bit of an object.
  ghost predicate Clean(t: State, h: Layout, segment: int) {
    forall c :: c in Holes(t, h, segment) ==> t.E(c).pointer == 0
  }

  // The segment has been compacted and tried: it is clean and spent.
  ghost predicate Exhausted(t: State, h: Layout, segment: int, size: int, entries: bool) {
    Clean(t, h, segment) && Spent(t, h, segment, size, entries)
  }

  ghost predicate AllExhausted(t: State, h: Layout, size: int, entries: bool) {
    forall segment {:trigger Exhausted(t, h, segment, size, entries)} :: 0 <= segment < HEAP_SEGMENT_COUNT ==>
      Exhausted(t, h, segment, size, entries)
  }

  // p is in hand with a chunk of `size` words, and nothing else is to be seen.
  ghost predicate Served(s: State, g: Layout, t: State, h: Layout, p: int, size: int) {
    InHand(t, h, p) && p in h.len && h.len[p] == size && p != NIL_POINTER && Tiled(t, h) && AllCarried(s, g, t, h)
  }

  lemma {:induction false} UnseenSelf(s: State, g: Layout)
    requires LaidOut(s, g) && Tiled(s, g)
    ensures Unseen(s, g, s, g)
  {
    AllocOops(s, g);
  }

  lemma {:induction false} CarriedOn(s: State, g: Layout, t: State, h: Layout, u: State, h': Layout, p: int)
    requires Carried(s, g, t, h, p) && Carried(t, h, u, h', p)
    ensures Carried(s, g, u, h', p)
  {
    forall i | 0 <= i < g.len[p]
      ensures WordOf(u, p, i) == WordOf(s, p, i)
    {
      assert WordOf(t, p, i) == WordOf(s, p, i);
    }
  }

  lemma {:induction false} CarriedAll(s: State, g: Layout, t: State, h: Layout, u: State, h': Layout)
    requires AllCarried(s, g, t, h) && AllCarried(t, h, u, h')
    ensures AllCarried(s, g, u, h')
  {
    forall p | p in g.alloc
      ensures Carried(s, g, u, h', p)
    {
      CarriedOn(s, g, t, h, u, h', p);
    }
  }

  lemma {:induction false} CompactedUnseen(s: State, g: Layout, t: State, h: Layout, segment: int, u: State, h': Layout)
    requires Unseen(s, g, t, h) && Compacted(t, h, segment, u, h')
    ensures Unseen(s, g, u, h')
  {
    assert OpenUnseen(0) && OpenSweep(0);
    forall p | p in h.alloc
      ensures Carried(t, h, u, h', p)
    {
      assert u.E(p) == u.E(p);
    }
    CarriedAll(s, g, t, h, u, h');
  }

  lemma {:induction false} TakenServed(s: State, g: Layout, t: State, h: Layout, u: State, h': Layout, p: int,
                                       size: int)
    requires Unseen(s, g, t, h) && Taken(t, h, u, h', p, size)
    ensures Served(s, g, u, h', p, size)
  {
    assert OpenUnseen(0) && OpenTaken(0);
    forall q | q in h.alloc
      ensures Carried(t, h, u, h', q)
    {
      assert u.E(q) == t.E(q);
    }
    CarriedAll(s, g, t, h, u, h');
  }

  lemma {:induction false} SwitchSegment(s: State, g: Layout, t: State, h: Layout, n: int)
    requires Unseen(s, g, t, h)
    ensures Unseen(s, g, t.(currentSegment := n), h)
  {
    assert OpenUnseen(0);
    var u := t.(currentSegment := n);
    AllocOops(t, h);
    SameLayout(t, h, u);
    forall p | p in h.alloc
      ensures Carried(t, h, u, h, p)
    {
    }
    CarriedAll(s, g, t, h, u, h);
  }

  lemma {:induction false} SameLayout(t: State, h: Layout, u: State)
    requires LaidOut(t, h) && Tiled(t, h) && u == t.(currentSegment := u.currentSegment)
    ensures LaidOut(u, h) && Tiled(u, h)
  {
    assert Frees(t, h.frees) by {
      assert OpenLayout(0);
    }
    SameFrees(t, u, h.frees);
    UntouchedLayout(t, u, h);
    forall segment, w | 0 <= segment < HEAP_SEGMENT_COUNT && 0 <= w < HEAP_SPACE_STOP
      ensures InChunk(u, h, segment, w)
    {
      assert InChunk(t, h, segment, w);
    }
  }

  // After a failure in a segment just compacted.
  lemma {:induction false} SegmentExhausted(t: State, h: Layout, u: State, h': Layout, segment: int, size: int,
                                            entries: bool)
    requires Compacted(t, h, segment, u, h') && Picks(h', segment, size, NIL_POINTER) && HEADER_SIZE <= size &&
      0 <= segment < HEAP_SEGMENT_COUNT && NIL_POINTER in h'.alloc && (entries ==> h'.frees != [])
    ensures Exhausted(u, h', segment, size, entries)
  {
    assert OpenSweep(0);
    if Holes(t, h, segment) != {} {
      var n :| TopChunk(u, h', segment, n);
      TopClean(u, h', segment, n);
      FreesOf(u, h');
      TopSpent(u, h', segment, n, size, entries);
    }
  }

  lemma {:induction false} TopClean(u: State, h: Layout, segment: int, n: int)
    requires TopChunk(u, h, segment, n)
    ensures Clean(u, h, segment)
  {
    forall c | c in Holes(u, h, segment)
      ensures u.E(c).pointer == 0
    {
      assert c in {n};
    }
  }

  lemma {:induction false} TopSpent(u: State, h: Layout, segment: int, n: int, size: int, entries: bool)
    requires TopChunk(u, h, segment, n) && Picks(h, segment, size, NIL_POINTER) && HEADER_SIZE <= size
    requires NIL_POINTER in h.alloc && NIL_POINTER !in h.frees && (entries ==> h.frees != [])
    ensures Spent(u, h, segment, size, entries)
  {
    var m, small := h.len[n], ListFor(h, size, segment);
    assert ListFor(h, Min(m, BIG_SIZE), segment) == [n] && n in Holes(u, h, segment);
    assert n !in h.alloc && n != NIL_POINTER;
    if m < BIG_SIZE {
      assert m == size ==> small == [n];
    } else {
      assert size < BIG_SIZE ==> small == [];
      var i :| FirstToServe(h, segment, size, i);
      assert ListFor(h, BIG_SIZE, segment)[0] == n;
    }
    forall c | c in Holes(u, h, segment)
      ensures c == n
    {
      assert c in {n};
    }
  }

  // Compacting another segment changes nothing here.
  lemma {:induction false} StaysExhausted(t: State, h: Layout, segment: int, u: State, h': Layout, other: int,
                                          size: int, entries: bool)
    requires Compacted(t, h, segment, u, h') && other != segment && Exhausted(t, h, other, size, entries)
    ensures Exhausted(u, h', other, size, entries)
  {
    assert OpenSweep(0);
    forall c | c in Holes(u, h', other)
      ensures c in Holes(t, h, other) && h'.len[c] == h.len[c] && u.E(c) == t.E(c)
    {
      assert c in h'.len && c in h.len;
      assert u.E(c) == t.E(c);
    }
  }

  // The k-th segment tried.
  function Tried(start: int, k: int): int {
    (start + k) % HEAP_SEGMENT_COUNT
  }

  lemma {:induction false} EverySegmentTried(start: int, segment: int)
    requires 0 <= start < HEAP_SEGMENT_COUNT && 0 <= segment < HEAP_SEGMENT_COUNT
    ensures var k := if segment > start then segment - start else segment - start + HEAP_SEGMENT_COUNT;
      1 <= k <= HEAP_SEGMENT_COUNT && Tried(start, k) == segment
  {
  }

  ghost predicate TriedInVain(t: State, h: Layout, start: int, n: int, size: int, entries: bool) {
    forall k {:trigger Tried(start, k)} :: 1 <= k <= n ==> Exhausted(t, h, Tried(start, k), size, entries)
  }

  lemma {:induction false} UnseenReady(s: State, g: Layout, t: State, h: Layout)
    requires Unseen(s, g, t, h) && LaidOut(s, g) && ClassesAreObjects(s, g)
    ensures LaidOut(t, h) && Tiled(t, h) && ClassesAreObjects(t, h) && h.alloc == g.alloc && |g.frees| <= |h.frees|
  {
    assert OpenUnseen(0);
    AllocOops(s, g);
    forall p | p in h.alloc
      ensures ClassOf(t, p) != NON_POINTER
    {
      assert Carried(s, g, t, h, p);
      assert Placed(s, p, g.len[p]) by {
        assert OpenLayout(0);
      }
      assert ClassOf(t, p) == WordOf(t, p, 1) && ClassOf(s, p) == WordOf(s, p, 1);
    }
  }

  // The next segment, compacted and tried.
  method TryNextSegment(om: ObjectMemory, size: Word, ghost s: State, ghost g: Layout, ghost h: Layout)
    returns (p: Word, ghost h': Layout)
    requires om.Valid() && Unseen(s, g, om.st, h) && LaidOut(s, g) && ClassesAreObjects(s, g) && NIL_POINTER in g.alloc
    requires 0 <= om.currentSegment < HEAP_SEGMENT_COUNT && HEADER_SIZE <= size
    modifies om`st, om`currentSegment, om.mem
    ensures om.Valid() && om.currentSegment == Tried(old(om.currentSegment), 1)
    ensures p == NIL_POINTER ==>
      Unseen(s, g, om.st, h') &&
        Compacted(old(om.st).(currentSegment := om.currentSegment), h, om.currentSegment, om.st, h') &&
      Exhausted(om.st, h', om.currentSegment, size, g.frees != [])
    ensures p != NIL_POINTER ==> Served(s, g, om.st, h', p, size)
  {
    ghost var t := om.st;
    om.currentSegment := om.currentSegment + 1;
    if om.currentSegment > HEAP_SEGMENT_COUNT - 1 {
      om.currentSegment := 0;
    }
    om.st := om.st.(currentSegment := om.currentSegment);
    SwitchSegment(s, g, t, h, om.currentSegment);
    UnseenReady(s, g, om.st, h);
    ghost var t1 := om.st;
    h' := CompactCurrentSegment(om, h);
    CompactedUnseen(s, g, t1, h, om.currentSegment, om.st, h');
    UnseenReady(s, g, om.st, h');
    ghost var u, h1 := om.st, h';
    p, h' := AttemptToAllocateChunkInCurrentSegment(om, size, h1);
    if p != NIL_POINTER {
      TakenServed(s, g, u, h1, om.st, h', p, size);
    } else {
      SegmentExhausted(t1, h, u, h1, om.currentSegment, size, g.frees != []);
    }
  }

  method AttemptToAllocateChunk(om: ObjectMemory, size: Word, ghost g: Layout) returns (p: Word, ghost h: Layout)
    requires om.Valid() && LaidOut(om.st, g) && Tiled(om.st, g) && ClassesAreObjects(om.st, g) && NIL_POINTER in g.alloc
    requires 0 <= om.currentSegment < HEAP_SEGMENT_COUNT && HEADER_SIZE <= size
    modifies om`st, om`currentSegment, om.mem
    ensures om.Valid() && 0 <= om.currentSegment < HEAP_SEGMENT_COUNT
    ensures p != NIL_POINTER ==> Served(old(om.st), g, om.st, h, p, size)
    ensures p == NIL_POINTER ==> Unseen(old(om.st), g, om.st, h)
    ensures p == NIL_POINTER ==> AllExhausted(om.st, h, size, g.frees != [])
    ensures !Picks(g, old(om.currentSegment), size, NIL_POINTER) ==> Taken(old(om.st), g, om.st, h, p, size)
  {
    ghost var s, start := om.st, om.currentSegment;
    UnseenSelf(s, g);
    p, h := AttemptToAllocateChunkInCurrentSegment(om, size, g);
    if p != NIL_POINTER {
      TakenServed(s, g, s, g, om.st, h, p, size);
      return;
    }
    for i := 1 to HEAP_SEGMENT_COUNT + 1
      invariant om.Valid() && om.currentSegment == Tried(start, i - 1) && p == NIL_POINTER
      invariant Unseen(s, g, om.st, h) && TriedInVain(om.st, h, start, i - 1, size, g.frees != [])
    {
      ghost var t, h0 := om.st, h;
      NextTried(start, i - 1);
      p, h := TryNextSegment(om, size, s, g, h0);
      if p != NIL_POINTER {
        return;
      }
      OneMoreTried(t, h0, om.st, h, start, i - 1, size, g.frees != []);
    }
    AllTried(om.st, h, start, size, g.frees != []);
  }

  lemma {:induction false} AllTried(t: State, h: Layout, start: int, size: int, entries: bool)
    requires 0 <= start < HEAP_SEGMENT_COUNT && TriedInVain(t, h, start, HEAP_SEGMENT_COUNT, size, entries)
    ensures AllExhausted(t, h, size, entries)
  {
    forall segment | 0 <= segment < HEAP_SEGMENT_COUNT
      ensures Exhausted(t, h, segment, size, entries)
    {
      EverySegmentTried(start, segment);
    }
  }

  lemma {:induction false} NextTried(start: int, k: int)
    requires 0 <= start < HEAP_SEGMENT_COUNT && 0 <= k < HEAP_SEGMENT_COUNT
    ensures Tried(Tried(start, k), 1) == Tried(start, k + 1) && 0 <= Tried(start, k) < HEAP_SEGMENT_COUNT
    ensures 0 <= Tried(start, k + 1) < HEAP_SEGMENT_COUNT && Tried(start, 0) == start
  {
  }

  lemma {:induction false} TriedApart(start: int, j: int, k: int)
    requires 0 <= start && 1 <= j < k <= HEAP_SEGMENT_COUNT
    ensures Tried(start, j) != Tried(start, k)
  {
  }

  lemma {:induction false} OneMoreTried(t: State, h: Layout, u: State, h': Layout, start: int, n: int, size: int,
                                        entries: bool)
    requires 0 <= start < HEAP_SEGMENT_COUNT && 0 <= n < HEAP_SEGMENT_COUNT &&
      TriedInVain(t, h, start, n, size, entries)
    requires Compacted(t.(currentSegment := Tried(start, n + 1)), h, Tried(start, n + 1), u, h') &&
      Exhausted(u, h', Tried(start, n + 1), size, entries)
    ensures TriedInVain(u, h', start, n + 1, size, entries)
  {
    var t1 := t.(currentSegment := Tried(start, n + 1));
    forall k | 1 <= k <= n
      ensures Exhausted(u, h', Tried(start, k), size, entries)
    {
      assert Exhausted(t, h, Tried(start, k), size, entries);
      assert Holes(t1, h, Tried(start, k)) == Holes(t, h, Tried(start, k));
      TriedApart(start, k, n + 1);
      StaysExhausted(t1, h, Tried(start, n + 1), u, h', Tried(start, k), size, entries);
    }
  }

  // What is carried keeps its shape,
  lemma {:induction false} CarriedShape(s: State, g: Layout, t: State, h: Layout, p: int)
    requires LaidOut(s, g) && p in g.alloc && Carried(s, g, t, h, p)
    ensures Oop(p) && LastPointer(t, p) == LastPointer(s, p) <= g.len[p] && t.E(p).count == s.E(p).count &&
      Sized(s, p, g.len[p])
    ensures SizeOf(t, p) == SizeOf(s, p) && ClassOf(t, p) == ClassOf(s, p) && SizeOf(s, p) <= g.len[p]
    ensures forall i {:trigger WordOf(t, p, i)} :: 0 <= i < g.len[p] ==> WordOf(t, p, i) == WordOf(s, p, i)
  {
    assert Sized(s, p, g.len[p]) && Placed(s, p, g.len[p]) by {
      assert OpenLayout(0);
    }
    SameSize(s, t, p, g.len[p]);
  }

  // and its references, so the counts stay exact.
  lemma {:induction false} CarriedExact(s: State, g: Layout, t: State, h: Layout, hole: set<(int, int)>,
                                        ext: multiset<int>)
    requires LaidOut(s, g) && AllCarried(s, g, t, h) && Closed(s, g.alloc, hole) && Exact(s, g.alloc, hole, ext)
    ensures Closed(t, h.alloc, hole) && Exact(t, h.alloc, hole, ext)
  {
    forall p | p in g.alloc
      ensures LastPointer(t, p) == LastPointer(s, p) <= g.len[p] && t.E(p).count == s.E(p).count && Oop(p)
      ensures forall i {:trigger WordOf(t, p, i)} :: 0 <= i < LastPointer(s, p) ==> WordOf(t, p, i) == WordOf(s, p, i)
    {
      CarriedShape(s, g, t, h, p);
    }
    forall p, i, q | p in h.alloc && PointsTo(t, p, i, q) && (p, i) !in hole
      ensures q in h.alloc
    {
      assert PointsTo(s, p, i, q);
    }
    forall p | p in h.alloc
      ensures t.E(p).count == STUCK || (t.E(p).count < STUCK && t.E(p).count == Refs(t, h.alloc, hole, p) + ext[p])
    {
      assert s.E(p) == s.E(p);
      RefsSame(s, t, g.alloc, hole, p);
    }
  }

  // Compaction, however often, is not to be seen: the heap stays healthy with the same registers.
  lemma {:induction false} UnseenHealthy(s: State, g: Layout, ext: multiset<int>, t: State, h: Layout)
    requires Healthy(s, g, ext) && Unseen(s, g, t, h)
    ensures Healthy(t, h, ext)
  {
    assert OpenHealthy(0) && OpenUnseen(0);
    CarriedExact(s, g, t, h, NO_HOLE, ext);
    assert Shaped(t) by {
      assert OpenLayout(0);
    }
  }
}
