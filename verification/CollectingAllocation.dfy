// Allocation as the marking collector has it: when no chunk is found the memory is collected, and
// the search made again.
module CollectingAllocation {
  import opened Words
  import opened Memory
  import opened Traversal
  import opened Marking
  import opened RefCounts
  import opened Layouts
  import opened Freeing
  import opened StorePointers
  import opened Allocation
  import opened Abandoning
  import opened Compaction
  import opened ChunkAllocation
  import opened Accounts
  import opened ObjectAllocation
  import opened Rectify
  import opened Collection

  // How an allocation went: the memory and its layout before the collection, what the collection
  // kept, the memory and its layout after it, and those when the chunk was found.
  datatype Course = Course(collected: bool, before: State, laid: Layout, kept: set<int>, after: State, relaid: Layout,
                           found: State, end: Layout)

  // A search in vain leaves no stale chunk, so that the collection leaves the memory laid out.
  lemma {:induction false} ExhaustedClean(t: State, h: Layout, size: int, entries: bool, p: int)
    requires LaidOut(t, h) && AllExhausted(t, h, size, entries) && p in h.len && p !in h.alloc
    ensures t.E(p).pointer == 0
  {
    ChunkSpace(t, h, p);
    assert Exhausted(t, h, t.E(p).segment, size, entries);
    assert p in Holes(t, h, t.E(p).segment);
  }

  lemma {:induction false} ExhaustedRoomy(t: State, h: Layout, size: int, entries: bool)
    requires LaidOut(t, h) && AllExhausted(t, h, size, entries)
    ensures Roomy(t, h)
  {
    forall p | p in h.len && p !in h.alloc
      ensures t.E(p).pointer == 0
    {
      ExhaustedClean(t, h, size, entries, p);
    }
  }

  // The chunk is found at once, or after a collection, or not at all.
  ghost predicate Went(s: State, g: Layout, roots: seq<Word>, ext: multiset<int>, size: Word, p: int, c: Course,
                       t: State) {
    forall k {:trigger OpenWent(k)} :: OpenWent(k) ==> WentUnfolded(s, g, roots, ext, size, p, c, t)
  }

  ghost predicate OpenWent(k: int) {
    true
  }

  ghost predicate WentUnfolded(s: State, g: Layout, roots: seq<Word>, ext: multiset<int>, size: Word, p: int, c: Course,
                               t: State) {
    (!c.collected ==> p != NIL_POINTER && Served(s, g, c.found, c.end, p, size)) &&
    (c.collected ==>
       Unseen(s, g, c.before, c.laid) && AllExhausted(c.before, c.laid, size, g.frees != []) &&
         Roomy(c.before, c.laid) && Collected(c.before, c.laid, roots, ext, c.after, c.kept, c.relaid) &&
       if p != NIL_POINTER then Served(c.after, c.relaid, c.found, c.end, p, size)
       else Unseen(c.after, c.relaid, t, c.end) && AllExhausted(t, c.end, size, c.relaid.frees != [])) &&
    (p != NIL_POINTER ==>
      t == c.found.(freeWords := if c.found.freeWords >= size then c.found.freeWords - size else c.found.freeWords))
  }

  method AllocateChunk(om: ObjectMemory, size: Word, roots: seq<Word>, activeContext: Word, newProcessWaiting: bool,
                       newProcess: Word, ghost g: Layout, ghost ext: multiset<int>)
    returns (p: Word, ghost c: Course)
    requires om.Valid() && Healthy(om.st, g, ext) && Tiled(om.st, g) && ClassesAreObjects(om.st, g) &&
      NIL_POINTER in g.alloc
    requires 0 <= om.currentSegment < HEAP_SEGMENT_COUNT && HEADER_SIZE <= size
    requires forall k :: 0 <= k < |roots| ==> roots[k] in g.alloc
    requires NIL_POINTER in roots && activeContext in roots && (newProcessWaiting ==> newProcess in roots)
    modifies om`st, om`currentSegment, om`freeWords, om`freeOops, om.mem
    ensures om.Valid() && 0 <= om.currentSegment < HEAP_SEGMENT_COUNT
    ensures Went(old(om.st), g, roots, RegistersCounted(activeContext, newProcessWaiting, newProcess), size, p, c,
      om.st)
  {
    ghost var s := om.st;
    HealthyReady(s, g, ext);
    ghost var laid, kept, relaid, end;
    p, laid := AttemptToAllocateChunk(om, size, g);
    c := Course(false, om.st, laid, {}, om.st, laid, om.st, laid);
    if p == NIL_POINTER {
      ghost var before := om.st;
      UnseenHealthy(s, g, ext, before, laid);
      UnseenReady(s, g, before, laid);
      HealthyReady(before, laid, ext);
      ExhaustedRoomy(before, laid, size, g.frees != []);
      kept, relaid := ReclaimInaccessibleObjects(om, roots, activeContext, newProcessWaiting, newProcess, laid);
      ghost var after := om.st;
      CollectedReady(before, laid, roots, RegistersCounted(activeContext, newProcessWaiting, newProcess), after, kept,
        relaid);
      p, end := AttemptToAllocateChunk(om, size, relaid);
      c := Course(true, before, laid, kept, after, relaid, om.st, end);
    }
    if p != NIL_POINTER && om.freeWords >= size {
      om.freeWords := om.freeWords - size;
      om.st := om.st.(freeWords := om.freeWords);
    }
  }

  lemma {:induction false} HealthyReady(s: State, g: Layout, ext: multiset<int>)
    requires Healthy(s, g, ext)
    ensures LaidOut(s, g) && Closed(s, g.alloc, NO_HOLE) && Exact(s, g.alloc, NO_HOLE, ext) && Shaped(s)
  {
    assert OpenHealthy(0);
  }

  // After the collection the search can be made again.
  lemma {:induction false} CollectedReady(s: State, g: Layout, roots: seq<Word>, ext: multiset<int>, t: State,
                                          M: set<int>, h: Layout)
    requires Collected(s, g, roots, ext, t, M, h) && Roomy(s, g) && Tiled(s, g) && ClassesAreObjects(s, g) &&
      LaidOut(s, g)
    ensures Healthy(t, h, ext) && LaidOut(t, h) && Tiled(t, h) && ClassesAreObjects(t, h) && NIL_POINTER in h.alloc &&
      h.alloc == M
  {
    CollectedHealthy(s, g, roots, ext, t, M, h);
    forall p | p in h.alloc
      ensures ClassOf(t, p) != NON_POINTER
    {
      assert Sized(s, p, g.len[p]) by {
        assert OpenLayout(0);
      }
      assert WordOf(t, p, 1) == WordOf(s, p, 1);
      assert ClassOf(t, p) == WordOf(t, p, 1) && ClassOf(s, p) == WordOf(s, p, 1);
    }
  }

  // What can be reached

  // The objects of A point to the same objects in s and t.
  ghost predicate SameEdges(s: State, t: State, A: set<int>) {
    forall p, q {:trigger Edge(s, p, q)} {:trigger Edge(t, p, q)} :: p in A ==> (Edge(s, p, q) <==> Edge(t, p, q))
  }

  lemma {:induction false} WalkSame(s: State, t: State, A: set<int>, path: seq<int>)
    requires SameEdges(s, t, A) && Closed(s, A, NO_HOLE) && path != [] && path[0] in A
    ensures Walk(s, path) <==> Walk(t, path)
    ensures Walk(s, path) ==> path[|path| - 1] in A
  {
    var n := |path| - 1;
    if n > 0 {
      WalkSame(s, t, A, path[..n]);
      if Walk(s, path[..n]) {
        assert Edge(s, path[n - 1], path[n]) <==> Edge(t, path[n - 1], path[n]);
        if Edge(s, path[n - 1], path[n]) {
          var i :| PointsTo(s, path[n - 1], i, path[n]);
        }
      }
    }
  }

  lemma {:induction false} AccessibleSame(s: State, t: State, A: set<int>, roots: seq<Word>, p: int)
    requires SameEdges(s, t, A) && Closed(s, A, NO_HOLE) && forall k :: 0 <= k < |roots| ==> roots[k] in A
    ensures Accessible(s, roots, p) <==> Accessible(t, roots, p)
  {
    if Accessible(s, roots, p) {
      var path :| Walk(s, path) && path[0] in roots && path[|path| - 1] == p;
      WalkSame(s, t, A, path);
    }
    if Accessible(t, roots, p) {
      var path :| Walk(t, path) && path[0] in roots && path[|path| - 1] == p;
      WalkSame(s, t, A, path);
    }
  }

  // What is kept, wherever it has moved, points where it pointed.
  lemma {:induction false} KeptEdge(s: State, g: Layout, t: State, p: int, q: int)
    requires LaidOut(s, g) && p in g.alloc && Kept(s, g, t, p)
    ensures Edge(s, p, q) <==> Edge(t, p, q)
  {
    assert Sized(s, p, g.len[p]) && Placed(s, p, g.len[p]) by {
      assert OpenLayout(0);
    }
    SameSize(s, t, p, g.len[p]);
    if Edge(s, p, q) {
      var i :| PointsTo(s, p, i, q);
      assert PointsTo(t, p, i, q);
    }
    if Edge(t, p, q) {
      var i :| PointsTo(t, p, i, q);
      assert PointsTo(s, p, i, q);
    }
  }

  lemma {:induction false} KeptAccessible(s: State, g: Layout, t: State, roots: seq<Word>, p: int)
    requires LaidOut(s, g) && Closed(s, g.alloc, NO_HOLE) && AllKept(s, g, t)
    requires forall k :: 0 <= k < |roots| ==> roots[k] in g.alloc
    ensures Accessible(s, roots, p) <==> Accessible(t, roots, p)
  {
    forall q, r | q in g.alloc
      ensures Edge(s, q, r) <==> Edge(t, q, r)
    {
      KeptEdge(s, g, t, q, r);
    }
    AccessibleSame(s, t, g.alloc, roots, p);
  }

  // The new object

  // The objects of M are what they were.
  ghost predicate SomeKept(s: State, g: Layout, t: State, M: set<int>) {
    M <= g.alloc && forall q {:trigger q in M} :: q in M ==>
      t.E(q) == s.E(q).(location := t.E(q).location, count := t.E(q).count) && SizeOf(t, q) == SizeOf(s, q) &&
      forall i {:trigger WordOf(t, q, i)} :: 0 <= i < SizeOf(s, q) ==> WordOf(t, q, i) == WordOf(s, q, i)
  }

  // The new object after a collection: of what there was, exactly what can be reached is left; and
  // every count is right, but that the class of the new object is not counted for it.
  ghost predicate BornAfterCollection(s: State, g: Layout, roots: seq<Word>, ext: multiset<int>, t: State, h: Layout,
                                      M: set<int>, p: int, size: Word, odd: Bit, pointer: Bit, class_: Word) {
    (forall q {:trigger Accessible(s, roots, q)} :: Accessible(s, roots, q) <==> q in M) && SomeKept(s, g, t, M) &&
    h.alloc == M + {p} && p !in M && t.E(p).count == 0 && t.E(p).odd == odd && t.E(p).pointer == pointer &&
      SizeOf(t, p) == size && ClassOf(t, p) == class_ &&
    (forall i {:trigger WordOf(t, p, i)} :: HEADER_SIZE <= i < size ==>
      WordOf(t, p, i) == if pointer == 0 then 0 else NIL_POINTER) &&
    LaidOut(t, h) && Tiled(t, h) && Closed(t, h.alloc, NO_HOLE) && Exact(t, h.alloc, {(p, 1)}, ext) &&
    NilStuck(t, M) && Sticks(s, M, t, ext)
  }

  lemma {:induction false} MadeRefsBut(t: State, h: Layout, p: int, size: Word, odd: Bit, pointer: Bit, class_: Word,
                                       u: State, q: int)
    requires NewObject(t, h, p, size, odd, pointer, class_, u) && q != NIL_POINTER
    ensures Refs(u, h.alloc + {p}, {(p, 1)}, q) == Refs(t, h.alloc, NO_HOLE, q)
    ensures Refs(u, h.alloc + {p}, NO_HOLE, q) == Refs(t, h.alloc, NO_HOLE, q) + (if q == class_ then 1 else 0)
  {
    MadeRefs(t, h, p, size, odd, pointer, class_, u, q);
    assert p !in h.alloc by {
      HandParts(t, h, p);
    }
    var before := Holders(t, Places(t, h.alloc) - NO_HOLE, q);
    var after := Holders(u, Places(u, h.alloc + {p}) - {(p, 1)}, q);
    forall r, i
      ensures (r, i) in after <==> (r, i) in before
    {
      MadeHolds(t, h, p, size, odd, pointer, class_, u, q, r, i);
    }
    assert after == before;
  }

  lemma {:induction false} MadeNearlyExact(t: State, h: Layout, p: int, size: Word, odd: Bit, pointer: Bit,
                                           class_: Word, u: State, ext: multiset<int>)
    requires NewObject(t, h, p, size, odd, pointer, class_, u)
    requires Closed(t, h.alloc, NO_HOLE) && Exact(t, h.alloc, NO_HOLE, ext) && class_ in h.alloc &&
      NilStuck(t, h.alloc) && RegistersIn(ext, h.alloc)
    ensures Closed(u, h.alloc + {p}, NO_HOLE) && Exact(u, h.alloc + {p}, {(p, 1)}, ext)
  {
    HandParts(t, h, p);
    MadeItself(t, h, p, size, odd, pointer, class_, u);
    forall r, i, q | r in h.alloc + {p} && PointsTo(u, r, i, q)
      ensures q in h.alloc + {p}
    {
      if r != p {
        MadeShape(t, h, p, size, odd, pointer, class_, u, r);
        assert WordOf(u, r, i) == WordOf(t, r, i);
        assert PointsTo(t, r, i, q);
      } else {
        assert ClassOf(u, p) == WordOf(u, p, 1);
        assert i >= HEADER_SIZE ==> WordOf(u, p, i) == NIL_POINTER;
      }
    }
    forall q | q in h.alloc + {p}
      ensures u.E(q).count == STUCK ||
        (u.E(q).count < STUCK && u.E(q).count == Refs(u, h.alloc + {p}, {(p, 1)}, q) + ext[q])
    {
      assert u.E(q) == if q == p then t.E(p).(odd := odd, pointer := pointer) else t.E(q);
      if q != NIL_POINTER {
        MadeRefsBut(t, h, p, size, odd, pointer, class_, u, q);
        if q == p {
          NoRefs(t, h.alloc, p);
        }
      }
    }
  }

  // What the collection and the search keep of an object.
  lemma {:induction false} KeptThrough(s: State, g: Layout, roots: seq<Word>, ext: multiset<int>, c: Course, size: Word,
                                       odd: Bit, pointer: Bit, class_: Word, p: int, w: State, q: int)
    requires LaidOut(s, g) && AllKept(s, g, c.before) && LaidOut(c.before, c.laid) && c.laid.alloc == g.alloc &&
      LaidOut(c.after, c.relaid)
    requires Collected(c.before, c.laid, roots, ext, c.after, c.kept, c.relaid) &&
      AllCarried(c.after, c.relaid, c.found, c.end) && c.relaid.alloc == c.kept
    requires NewObject(c.found, c.end, p, size, odd, pointer, class_, w) && q in c.kept
    ensures w.E(q) == s.E(q).(location := w.E(q).location, count := w.E(q).count) && SizeOf(w, q) == SizeOf(s, q)
    ensures forall i {:trigger WordOf(w, q, i)} :: 0 <= i < SizeOf(s, q) ==> WordOf(w, q, i) == WordOf(s, q, i)
  {
    KeptSize(s, g, c.before, q);
    CollectedSize(c.before, c.laid, roots, ext, c.after, c.kept, c.relaid, q);
    CarriedShape(c.after, c.relaid, c.found, c.end, q);
    MadeShape(c.found, c.end, p, size, odd, pointer, class_, w, q);
    assert Carried(c.after, c.relaid, c.found, c.end, q);
    forall i | 0 <= i < SizeOf(s, q)
      ensures WordOf(w, q, i) == WordOf(s, q, i)
    {
      assert WordOf(w, q, i) == WordOf(c.found, q, i);
      assert WordOf(c.found, q, i) == WordOf(c.after, q, i);
      assert WordOf(c.after, q, i) == WordOf(c.before, q, i);
      assert WordOf(c.before, q, i) == WordOf(s, q, i);
    }
    assert SizeOf(w, q) == WordOf(w, q, 0) && SizeOf(s, q) == WordOf(s, q, 0);
  }

  lemma {:induction false} KeptSize(s: State, g: Layout, t: State, q: int)
    requires LaidOut(s, g) && AllKept(s, g, t) && q in g.alloc
    ensures q in g.len && HEADER_SIZE <= SizeOf(s, q) <= g.len[q] && SizeOf(t, q) == SizeOf(s, q)
    ensures t.E(q) == s.E(q).(location := t.E(q).location, count := t.E(q).count)
    ensures forall i {:trigger WordOf(t, q, i)} :: 0 <= i < SizeOf(s, q) ==> WordOf(t, q, i) == WordOf(s, q, i)
  {
    assert Sized(s, q, g.len[q]) && q in g.len by {
      assert OpenLayout(0);
    }
    assert Kept(s, g, t, q);
    assert SizeOf(t, q) == WordOf(t, q, 0) && SizeOf(s, q) == WordOf(s, q, 0);
  }

  lemma {:induction false} CollectedSize(s: State, g: Layout, roots: seq<Word>, ext: multiset<int>, t: State,
                                         M: set<int>, h: Layout, q: int)
    requires LaidOut(s, g) && Collected(s, g, roots, ext, t, M, h) && q in M
    ensures SizeOf(t, q) == SizeOf(s, q) && HEADER_SIZE <= SizeOf(s, q) && t.E(q) == s.E(q).(count := t.E(q).count)
    ensures forall i {:trigger WordOf(t, q, i)} :: 0 <= i < SizeOf(s, q) ==> WordOf(t, q, i) == WordOf(s, q, i)
  {
    assert Sized(s, q, g.len[q]) by {
      assert OpenLayout(0);
    }
    assert t.E(q).(count := 0) == s.E(q).(count := 0);
    assert WordOf(t, q, 0) == WordOf(s, q, 0);
    assert SizeOf(t, q) == WordOf(t, q, 0) && SizeOf(s, q) == WordOf(s, q, 0);
  }

  // allocate:odd:pointer:extra:class:, for objects whose pointers follow from the pointer bit.  The
  // registers that a collection counts again are those that are counted before.
  method Allocate(om: ObjectMemory, size: Word, oddBit: Bit, pointerBit: Bit, extraWord: Bit, classPointer: Word,
                  roots: seq<Word>, activeContext: Word, newProcessWaiting: bool, newProcess: Word, ghost g: Layout,
                  ghost ext: multiset<int>)
    returns (p: Word, ghost h: Layout, ghost c: Course)
    requires om.Valid() && Sound(om.st, g, ext) && classPointer in g.alloc && !IsInteger(classPointer)
    requires HEADER_SIZE <= size && size + extraWord < 65536 && extraWord == ExtraWord(size, pointerBit)
    requires pointerBit == 1 || classPointer != CLASS_COMPILED_METHOD
    requires forall k :: 0 <= k < |roots| ==> roots[k] in g.alloc
    requires NIL_POINTER in roots && activeContext in roots && (newProcessWaiting ==> newProcess in roots)
    modifies om`st, om`currentSegment, om`freeWords, om`freeOops, om.mem
    ensures om.Valid()
    ensures !c.collected ==>
      p != NIL_POINTER && h.alloc == g.alloc + {p} && Sound(om.st, h, ext) && AllKept(old(om.st), g, om.st)
    ensures !c.collected ==> Newborn(om.st, g, p, size, oddBit, pointerBit, classPointer)
    ensures !c.collected ==> h == WithObject(c.end, p)
    ensures !c.collected ==>
      Allotted(old(om.st), g, c.found, c.end, p, size, oddBit, pointerBit, classPointer, om.st)
    ensures c.collected && p != NIL_POINTER && !Accessible(old(om.st), roots, classPointer) ==> classPointer !in c.kept
    ensures c.collected && p != NIL_POINTER && Accessible(old(om.st), roots, classPointer) ==>
      BornAfterCollection(old(om.st), g, roots, RegistersCounted(activeContext, newProcessWaiting, newProcess), om.st,
        h, c.kept, p, size, oddBit, pointerBit, classPointer)
    ensures c.collected && p == NIL_POINTER ==> AllExhausted(om.st, c.end, size + extraWord, c.relaid.frees != [])
    ensures p == NIL_POINTER ==> Went(CountedUp(old(om.st), classPointer), g, roots,
      RegistersCounted(activeContext, newProcessWaiting, newProcess), size + extraWord, p, c, om.st)
  {
    ghost var s, t := om.st, CountedUp(om.st, classPointer);
    ghost var counted := RegistersCounted(activeContext, newProcessWaiting, newProcess);
    ClassCounted(s, g, ext, classPointer);
    CountUp(om, classPointer);
    SoundReady(t, g, Register(ext, classPointer));
    SoundHealthy(t, g, Register(ext, classPointer));
    p, c := AllocateChunk(om, size + extraWord, roots, activeContext, newProcessWaiting, newProcess, g,
      Register(ext, classPointer));
    h := c.end;
    if p != NIL_POINTER {
      h := FinishObject(om, p, size, oddBit, pointerBit, classPointer, s, t, g, ext, roots, counted, c);
    } else {
      WentInVain(t, g, roots, counted, size + extraWord, c, om.st);
    }
  }

  lemma {:induction false} WentInVain(s: State, g: Layout, roots: seq<Word>, ext: multiset<int>, size: Word, c: Course,
                                      t: State)
    requires Went(s, g, roots, ext, size, NIL_POINTER, c, t)
    ensures c.collected && AllExhausted(t, c.end, size, c.relaid.frees != [])
  {
    assert OpenWent(0);
  }

  // The chunk found is made an object.
  method FinishObject(om: ObjectMemory, p: Word, size: Word, oddBit: Bit, pointerBit: Bit, classPointer: Word,
                      ghost s: State, ghost t: State, ghost g: Layout, ghost ext: multiset<int>, ghost roots: seq<Word>,
                      ghost counted: multiset<int>, ghost c: Course)
    returns (ghost h: Layout)
    requires om.Valid() && Sound(s, g, ext) && AllKept(s, g, t) && Sound(t, g, Register(ext, classPointer)) &&
      classPointer in g.alloc && !IsInteger(classPointer)
    requires (pointerBit == 1 || classPointer != CLASS_COMPILED_METHOD) && HEADER_SIZE <= size &&
      size + ExtraWord(size, pointerBit) < 65536
    requires forall k :: 0 <= k < |roots| ==> roots[k] in g.alloc
    requires forall q {:trigger counted[q]} :: counted[q] > 0 ==> exists k :: 0 <= k < |roots| && roots[k] == q
    requires p != NIL_POINTER && 0 <= om.currentSegment < HEAP_SEGMENT_COUNT && t == CountedUp(s, classPointer)
    requires Went(t, g, roots, counted, size + ExtraWord(size, pointerBit), p, c, om.st)
    modifies om`st, om`freeOops, om.mem
    ensures om.Valid()
    ensures !c.collected ==> h.alloc == g.alloc + {p} && Sound(om.st, h, ext) && AllKept(s, g, om.st)
    ensures !c.collected ==> Newborn(om.st, g, p, size, oddBit, pointerBit, classPointer)
    ensures !c.collected ==> h == WithObject(c.end, p)
    ensures !c.collected ==>
      Allotted(s, g, c.found, c.end, p, size, oddBit, pointerBit, classPointer, om.st)
    ensures c.collected && !Accessible(s, roots, classPointer) ==> classPointer !in c.kept
    ensures c.collected && Accessible(s, roots, classPointer) ==>
      BornAfterCollection(s, g, roots, counted, om.st, h, c.kept, p, size, oddBit, pointerBit, classPointer)
  {
    ghost var paid := om.st;
    FoundInHand(t, g, roots, counted, size + ExtraWord(size, pointerBit), p, c, paid);
    MakeObject(om, p, size, oddBit, pointerBit, classPointer);
    ghost var made := om.st;
    om.freeOops := om.freeOops - 1;
    om.st := om.st.(freeOops := om.freeOops);
    h := WithObject(c.end, p);
    if c.collected {
      ClassKept(s, t, g, ext, roots, counted, c, size + ExtraWord(size, pointerBit), p, classPointer, paid);
    }
    if c.collected && Accessible(s, roots, classPointer) {
      BornEnds(s, t, g, ext, roots, counted, c, p, size, oddBit, pointerBit, classPointer, paid, made, om.st);
    } else if !c.collected {
      PlainEnds(s, t, g, ext, roots, counted, c, p, size, oddBit, pointerBit, classPointer, paid, made, om.st);
    }
  }

  lemma {:induction false} PlainEnds(s: State, t: State, g: Layout, ext: multiset<int>, roots: seq<Word>,
                                     counted: multiset<int>, c: Course, p: int, size: Word, odd: Bit, pointer: Bit,
                                     class_: Word, paid: State, made: State, w: State)
    requires Sound(s, g, ext) && AllKept(s, g, t) && Sound(t, g, Register(ext, class_)) && class_ in g.alloc &&
      !IsInteger(class_)
    requires (pointer == 1 || class_ != CLASS_COMPILED_METHOD) && HEADER_SIZE <= size &&
      size + ExtraWord(size, pointer) < 65536
    requires !c.collected && p != NIL_POINTER && Went(t, g, roots, counted, size + ExtraWord(size, pointer), p, c, paid)
    requires Made(paid, p, size, odd, pointer, class_, if pointer == 0 then 0 else NIL_POINTER, made) &&
      w == made.(freeOops := made.freeOops - 1)
    requires made.freeWords == paid.freeWords && made.freeOops == paid.freeOops &&
      0 <= w.currentSegment < HEAP_SEGMENT_COUNT && t == CountedUp(s, class_)
    ensures Allotted(s, g, c.found, c.end, p, size, odd, pointer, class_, w)
    ensures WithObject(c.end, p).alloc == g.alloc + {p} && Sound(w, WithObject(c.end, p), ext) && AllKept(s, g, w)
    ensures Newborn(w, g, p, size, odd, pointer, class_)
  {
    assert OpenWent(0);
    SoundReady(t, g, Register(ext, class_));
    EnoughWords(t, g, c.found, c.end, p, size + ExtraWord(size, pointer));
    AllocateEnds(s, t, g, ext, c.found, c.end, p, size, odd, pointer, class_, paid, made, w);
    NowObject(c.found, c.end, p, size, odd, pointer, class_, paid, made, w);
  }

  // The class is kept if it could be reached.
  lemma {:induction false} ClassKept(s: State, t: State, g: Layout, ext: multiset<int>, roots: seq<Word>,
                                     counted: multiset<int>, c: Course, size: Word, p: int, class_: Word, paid: State)
    requires Sound(s, g, ext) && AllKept(s, g, t) && Sound(t, g, Register(ext, class_)) && class_ in g.alloc
    requires c.collected && Went(t, g, roots, counted, size, p, c, paid)
    requires forall k :: 0 <= k < |roots| ==> roots[k] in g.alloc
    ensures class_ in c.kept <==> Accessible(s, roots, class_)
  {
    assert OpenWent(0);
    KeptUnseen(s, g, t, c.before, c.laid);
    SoundReady(s, g, ext);
    SoundHealthy(s, g, ext);
    HealthyReady(s, g, ext);
    KeptAccessible(s, g, c.before, roots, class_);
  }

  lemma {:induction false} SoundHealthy(s: State, g: Layout, ext: multiset<int>)
    requires Sound(s, g, ext)
    ensures Healthy(s, g, ext)
  {
    assert OpenSound(0);
  }

  lemma {:induction false} FoundInHand(s: State, g: Layout, roots: seq<Word>, ext: multiset<int>, size: Word, p: int,
                                       c: Course, t: State)
    requires Went(s, g, roots, ext, size, p, c, t) && p != NIL_POINTER
    ensures InHand(c.found, c.end, p) && p in c.end.len && c.end.len[p] == size &&
      t == c.found.(freeWords := t.freeWords)
    ensures Framed(c.found, c.end) && Placed(c.found, p, size) && Oop(p)
  {
    assert OpenWent(0);
    HandParts(c.found, c.end, p);
  }

  lemma {:induction false} BornEnds(s: State, t: State, g: Layout, ext: multiset<int>, roots: seq<Word>,
                                    counted: multiset<int>, c: Course, p: int, size: Word, odd: Bit, pointer: Bit,
                                    class_: Word, paid: State, made: State, w: State)
    requires Sound(s, g, ext) && AllKept(s, g, t) && Sound(t, g, Register(ext, class_)) && class_ in g.alloc &&
      Accessible(s, roots, class_)
    requires pointer == 1 || class_ != CLASS_COMPILED_METHOD
    requires forall k :: 0 <= k < |roots| ==> roots[k] in g.alloc
    requires forall q {:trigger counted[q]} :: counted[q] > 0 ==> exists k :: 0 <= k < |roots| && roots[k] == q
    requires HEADER_SIZE <= size && size + ExtraWord(size, pointer) < 65536
    requires c.collected && p != NIL_POINTER && Went(t, g, roots, counted, size + ExtraWord(size, pointer), p, c, paid)
    requires Made(paid, p, size, odd, pointer, class_, if pointer == 0 then 0 else NIL_POINTER, made) &&
      w == made.(freeOops := made.freeOops - 1)
    ensures BornAfterCollection(s, g, roots, counted, w, WithObject(c.end, p), c.kept, p, size, odd, pointer, class_)
  {
    assert OpenWent(0);
    NowObject(c.found, c.end, p, size, odd, pointer, class_, paid, made, w);
    SoundReady(s, g, ext);
    SoundHealthy(s, g, ext);
    HealthyReady(s, g, ext);
    CourseReady(s, t, g, ext, roots, counted, c, size + ExtraWord(size, pointer), p, class_);
    forall q
      ensures Accessible(s, roots, q) <==> q in c.kept
    {
      KeptAccessible(s, g, c.before, roots, q);
    }
    MadeLaidOut(c.found, c.end, p, size, odd, pointer, class_, w);
    MadeItself(c.found, c.end, p, size, odd, pointer, class_, w);
    HandParts(c.found, c.end, p);
    RegistersKept(roots, counted, c.before, c.kept);
    MadeNearlyExact(c.found, c.end, p, size, odd, pointer, class_, w, counted);
    forall q | q in c.kept
      ensures w.E(q) == s.E(q).(location := w.E(q).location, count := w.E(q).count) && SizeOf(w, q) == SizeOf(s, q)
      ensures forall i {:trigger WordOf(w, q, i)} :: 0 <= i < SizeOf(s, q) ==> WordOf(w, q, i) == WordOf(s, q, i)
    {
      KeptThrough(s, g, roots, counted, c, size, odd, pointer, class_, p, w, q);
    }
    BornSticks(s, g, roots, counted, c, size, odd, pointer, class_, p, w);
  }

  // The counts are those that the collection gave, and follow from the memory before.
  lemma {:induction false} BornSticks(s: State, g: Layout, roots: seq<Word>, ext: multiset<int>, c: Course, size: Word,
                                      odd: Bit, pointer: Bit, class_: Word, p: int, w: State)
    requires LaidOut(s, g) && AllKept(s, g, c.before) && c.laid.alloc == g.alloc && c.relaid.alloc == c.kept
    requires Collected(c.before, c.laid, roots, ext, c.after, c.kept, c.relaid) &&
      AllCarried(c.after, c.relaid, c.found, c.end)
    requires NewObject(c.found, c.end, p, size, odd, pointer, class_, w)
    ensures NilStuck(w, c.kept) && Sticks(s, c.kept, w, ext)
  {
    HandParts(c.found, c.end, p);
    forall q | q in c.kept
      ensures w.E(q).count == c.after.E(q).count && LastPointer(c.before, q) == LastPointer(s, q)
      ensures forall i :: 1 <= i < LastPointer(s, q) ==> WordOf(c.before, q, i) == WordOf(s, q, i)
    {
      assert Carried(c.after, c.relaid, c.found, c.end, q);
      assert w.E(q) == c.found.E(q);
      KeptPointers(s, g, c.before, q);
    }
    forall q | q in c.kept && q != NIL_POINTER
      ensures w.E(q).count == CountAfter(s, c.kept, ext, q)
    {
      assert c.after.E(q) == c.after.E(q);
      CountAfterSame(s, c.before, c.kept, ext, q);
    }
  }

  lemma {:induction false} KeptPointers(s: State, g: Layout, t: State, q: int)
    requires LaidOut(s, g) && AllKept(s, g, t) && q in g.alloc
    ensures LastPointer(t, q) == LastPointer(s, q)
    ensures forall i {:trigger WordOf(t, q, i)} :: 0 <= i < LastPointer(s, q) ==> WordOf(t, q, i) == WordOf(s, q, i)
  {
    assert Sized(s, q, g.len[q]) && Placed(s, q, g.len[q]) by {
      assert OpenLayout(0);
    }
    assert Kept(s, g, t, q);
    SameSize(s, t, q, g.len[q]);
  }

  // The registers are among the roots, and so are kept.
  lemma {:induction false} RegistersKept(roots: seq<Word>, counted: multiset<int>, s: State, M: set<int>)
    requires forall q {:trigger counted[q]} :: counted[q] > 0 ==> exists k :: 0 <= k < |roots| && roots[k] == q
    requires forall q {:trigger Accessible(s, roots, q)} :: Accessible(s, roots, q) <==> q in M
    ensures RegistersIn(counted, M)
  {
    forall q | counted[q] > 0
      ensures q in M
    {
      var k :| 0 <= k < |roots| && roots[k] == q;
      var path := [q];
      assert Walk(s, path) && path[0] in roots && path[|path| - 1] == q;
      assert Accessible(s, roots, q);
    }
  }

  lemma {:induction false} CourseReady(s: State, t: State, g: Layout, ext: multiset<int>, roots: seq<Word>,
                                       counted: multiset<int>, c: Course, size: Word, p: int, class_: Word)
    requires Sound(s, g, ext) && AllKept(s, g, t) && Sound(t, g, Register(ext, class_)) && HEADER_SIZE <= size &&
      class_ in g.alloc
    requires c.collected && p != NIL_POINTER &&
      Went(t, g, roots, counted, size, p, c,
      c.found.(freeWords := if c.found.freeWords >= size then c.found.freeWords - size else c.found.freeWords))
    requires forall k :: 0 <= k < |roots| ==> roots[k] in g.alloc
    requires Accessible(s, roots, class_)
    ensures AllKept(s, g, c.before) && LaidOut(c.before, c.laid) && c.laid.alloc == g.alloc &&
      LaidOut(c.after, c.relaid) && c.relaid.alloc == c.kept
    ensures AllCarried(c.after, c.relaid, c.found, c.end) && c.end.alloc == c.kept && Tiled(c.found, c.end)
    ensures Closed(c.found, c.end.alloc, NO_HOLE) && Exact(c.found, c.end.alloc, NO_HOLE, counted) &&
      NilStuck(c.found, c.end.alloc) && class_ in c.end.alloc
  {
    assert OpenWent(0);
    SoundReady(t, g, Register(ext, class_));
    KeptUnseen(s, g, t, c.before, c.laid);
    UnseenReady(t, g, c.before, c.laid);
    CollectedReady(c.before, c.laid, roots, counted, c.after, c.kept, c.relaid);
    HealthyReady(c.after, c.relaid, counted);
    CarriedExact(c.after, c.relaid, c.found, c.end, NO_HOLE, counted);
    CarriedShape(c.after, c.relaid, c.found, c.end, NIL_POINTER);
    SoundReady(s, g, ext);
    SoundHealthy(s, g, ext);
    HealthyReady(s, g, ext);
    KeptAccessible(s, g, c.before, roots, class_);
  }

  // The class has lost the reference that was counted for the new object before the collection.  The
  // counts are all right exactly if its count has stuck, be it nil, or referred to from 128 places and
  // registers, or from 127 places that the pass meets before it comes to the class.
  lemma {:induction false} ClassOneShort(s: State, g: Layout, roots: seq<Word>, ext: multiset<int>, t: State, h: Layout,
                                         M: set<int>, p: int, size: Word, odd: Bit, pointer: Bit, class_: Word)
    requires BornAfterCollection(s, g, roots, ext, t, h, M, p, size, odd, pointer, class_) && class_ in M &&
      !IsInteger(class_)
    ensures Exact(t, h.alloc, NO_HOLE, ext) <==>
      class_ == NIL_POINTER || Refs(s, M, NO_HOLE, class_) + ext[class_] >= STUCK ||
        EarlyRefs(s, M, class_) >= STUCK - 1
  {
    assert t.E(class_).count == if class_ == NIL_POINTER then STUCK else CountAfter(s, M, ext, class_);
    forall q | q in h.alloc
      ensures Refs(t, h.alloc, NO_HOLE, q) == Refs(t, h.alloc, {(p, 1)}, q) + (if q == class_ then 1 else 0)
    {
      OneMoreRef(t, h, p, class_, q);
    }
    forall q | q in h.alloc
      ensures t.E(q).count == STUCK || (t.E(q).count < STUCK && t.E(q).count == Refs(t, h.alloc, {(p, 1)}, q) + ext[q])
    {
      assert t.E(q) == t.E(q);
    }
    if Exact(t, h.alloc, NO_HOLE, ext) {
      assert t.E(class_) == t.E(class_);
    }
  }

  lemma {:induction false} OneMoreRef(t: State, h: Layout, p: int, class_: Word, q: int)
    requires LaidOut(t, h) && p in h.alloc && ClassOf(t, p) == class_
    ensures Refs(t, h.alloc, NO_HOLE, q) == Refs(t, h.alloc, {(p, 1)}, q) + (if q == class_ then 1 else 0)
  {
    assert Sized(t, p, h.len[p]) by {
      assert OpenLayout(0);
    }
    var all, but := Holders(t, Places(t, h.alloc) - NO_HOLE, q), Holders(t, Places(t, h.alloc) - {(p, 1)}, q);
    assert ClassOf(t, p) == WordOf(t, p, 1) && (p, 1) in Places(t, h.alloc);
    if q == class_ {
      assert all == but + {(p, 1)};
    } else {
      assert all == but;
    }
  }
}
