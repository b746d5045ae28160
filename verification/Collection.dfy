// The full collection: zero, mark, rectify, and count the interpreter's registers again.
module Collection {
  import opened Words
  import opened Memory
  import opened Traversal
  import opened Marking
  import opened RefCounts
  import opened Layouts
  import opened Freeing
  import opened StorePointers
  import opened Abandoning
  import opened Accounts
  import opened Roots
  import opened Rectify

  // A path along pointers, last step last.
  ghost predicate Walk(s: State, path: seq<int>) {
    path != [] && (|path| > 1 ==> Edge(s, path[|path| - 2], path[|path| - 1]) && Walk(s, path[..|path| - 1]))
  }

  // p can be reached along pointers from a root.
  ghost predicate Accessible(s: State, roots: seq<Word>, p: int) {
    exists path :: Walk(s, path) && path[0] in roots && path[|path| - 1] == p
  }

  // s and t have the same words and, counts apart, the same entries.
  ghost predicate SamePointers(s: State, t: State) {
    t.words == s.words && forall p {:trigger t.E(p)} {:trigger s.E(p)} :: t.E(p).(count := 0) == s.E(p).(count := 0)
  }

  lemma {:induction false} SamePointsTo(s: State, t: State, p: int)
    requires SamePointers(s, t)
    ensures LastPointer(t, p) == LastPointer(s, p) && Space(t, p) == Space(s, p) && forall i ::
      WordOf(t, p, i) == WordOf(s, p, i)
    ensures forall i, q {:trigger PointsTo(t, p, i, q)} {:trigger PointsTo(s, p, i, q)} :: PointsTo(t, p, i, q) <==>
      PointsTo(s, p, i, q)
    ensures forall q {:trigger Edge(t, p, q)} {:trigger Edge(s, p, q)} :: Edge(t, p, q) <==> Edge(s, p, q)
  {
    assert t.E(p).(count := 0) == s.E(p).(count := 0);
    forall q
      ensures Edge(t, p, q) <==> Edge(s, p, q)
    {
      if Edge(t, p, q) {
        var i :| PointsTo(t, p, i, q);
        assert PointsTo(s, p, i, q);
      }
      if Edge(s, p, q) {
        var i :| PointsTo(s, p, i, q);
        assert PointsTo(t, p, i, q);
      }
    }
  }

  // With all counts zero the trails from A are the walks from A.
  lemma {:induction false} WalksAreTrails(s: State, t: State, A: set<int>, path: seq<int>)
    requires SamePointers(s, t) && Heap(t, A) && AllZero(t) && path != [] && path[0] in A
    ensures Walk(s, path) <==> Trail(t, path)
    ensures Walk(s, path) ==> path[|path| - 1] in A
  {
    var n := |path| - 1;
    if n > 0 {
      WalksAreTrails(s, t, A, path[..n]);
      SamePointsTo(s, t, path[n - 1]);
      if Walk(s, path) {
        assert Edge(t, path[n - 1], path[n]);
        var i :| PointsTo(t, path[n - 1], i, path[n]);
      }
      if Trail(t, path) {
        assert Edge(t, path[n - 1], path[n]);
        var i :| PointsTo(t, path[n - 1], i, path[n]);
      }
    }
    assert path[n] in A ==> Oop(path[n]);
    assert Oop(path[n]) ==> t.E(path[n]).count == 0;
  }

  lemma {:induction false} LiveIsAccessible(s: State, t: State, A: set<int>, roots: seq<Word>, p: int)
    requires SamePointers(s, t) && Heap(t, A) && AllZero(t) && forall k :: 0 <= k < |roots| ==> roots[k] in A
    ensures Live(t, roots, p) <==> Accessible(s, roots, p)
  {
    if Live(t, roots, p) {
      var r :| r in roots && Reaches(t, r, p);
      var path :| Trail(t, path) && path[0] == r && path[|path| - 1] == p;
      WalksAreTrails(s, t, A, path);
    }
    if Accessible(s, roots, p) {
      var path :| Walk(s, path) && path[0] in roots && path[|path| - 1] == p;
      WalksAreTrails(s, t, A, path);
      assert Reaches(t, path[0], p);
    }
  }

  // Zeroing the counts.
  lemma {:induction false} ZeroedHeap(s: State, g: Layout, t: State)
    requires LaidOut(s, g) && Closed(s, g.alloc, NO_HOLE) && CountsZeroed(s, t, OBJECT_TABLE_SIZE)
    ensures LaidOut(t, g) && Closed(t, g.alloc, NO_HOLE) && Heap(t, g.alloc) && AllZero(t) && SamePointers(s, t)
  {
    forall p
      ensures t.E(p) == s.E(p).(count := t.E(p).count) && (Oop(p) ==> t.E(p).count == 0)
      ensures forall i :: WordOf(t, p, i) == WordOf(s, p, i)
    {
      assert t.E(p) == if Oop(p) && p < OBJECT_TABLE_SIZE then s.E(p).(count := 0) else s.E(p);
    }
    assert Shaped(t) by {
      assert OpenLayout(0);
    }
    AllEven(s, g);
    CountsKeepLayout(s, t, g);
    forall p, i, q | p in g.alloc && PointsTo(t, p, i, q)
      ensures q in g.alloc
    {
      SamePointsTo(s, t, p);
      assert PointsTo(s, p, i, q);
    }
    LaidOutHeap(t, g);
  }

  // A spare word is the last of a chunk: no word of a size, of a head or of a free chunk.
  lemma {:induction false} NotSpare(s: State, g: Layout, p: int, i: int)
    requires LaidOut(s, g) && p in g.len && 0 <= i < SizeOf(s, p) && SizeOf(s, p) <= g.len[p]
    ensures !IsSpare(s, g.alloc, Address(s.E(p)) + i)
  {
    var a := Address(s.E(p)) + i;
    AllocOops(s, g);
    forall q | q in g.alloc && LastPointer(s, q) >= HUGE_SIZE
      ensures a != Address(s.E(q)) + LastPointer(s, q)
    {
      SpareOfChunk(s, g, q);
      if q != p {
        assert Chunks(s, g) by {
          assert OpenLayout(0);
        }
        ElsewhereInHeap(s, g, q, LastPointer(s, q), p, i);
      }
    }
  }

  lemma {:induction false} SpareOfChunk(s: State, g: Layout, q: int)
    requires LaidOut(s, g) && q in g.alloc && LastPointer(s, q) >= HUGE_SIZE
    ensures q in g.len && LastPointer(s, q) == SizeOf(s, q) < g.len[q]
  {
    assert q in g.len && Sized(s, q, g.len[q]) by {
      assert OpenLayout(0);
    }
  }

  lemma {:induction false} HeadNotSpare(s: State, g: Layout, a: int)
    requires LaidOut(s, g) && IsHead(a)
    ensures !IsSpare(s, g.alloc, a)
  {
    assert Chunks(s, g) by {
      assert OpenLayout(0);
    }
    forall q | q in g.alloc && LastPointer(s, q) >= HUGE_SIZE
      ensures a != Address(s.E(q)) + LastPointer(s, q)
    {
      SpareOfChunk(s, g, q);
      HeadOutside(s, g, q, LastPointer(s, q), a);
    }
  }

  // After the marking.
  lemma {:induction false} MarkedReady(s: State, g: Layout, roots: seq<Word>, t: State, M: set<int>)
    requires LaidOut(s, g) && Closed(s, g.alloc, NO_HOLE) && Heap(s, g.alloc) && AllZero(s) &&
      Colored(s, g.alloc, roots, |roots|, t, M)
    ensures MarksSet(t, g, M)
    ensures forall p {:trigger t.E(p)} :: t.E(p) == s.E(p).(count := t.E(p).count)
    ensures forall p, i {:trigger WordOf(t, p, i)} :: p in g.len && 0 <= i < SizeOf(s, p) ==>
      WordOf(t, p, i) == WordOf(s, p, i)
  {
    forall p
      ensures t.E(p) == s.E(p).(count := t.E(p).count) && (Oop(p) ==> t.E(p).count == if p in M then 1 else 0)
    {
      assert s.E(p) == s.E(p);
      assert t.E(p) == if p in M then s.E(p).(count := 1) else s.E(p);
      assert Oop(p) ==> s.E(p).count == 0;
    }
    AllEven(s, g);
    AllocOops(s, g);
    forall p, i | p in g.len && 0 <= i < SizeOf(s, p)
      ensures WordOf(t, p, i) == WordOf(s, p, i)
    {
      SizeInChunk(s, g, p);
      NotSpare(s, g, p, i);
      assert At(t.words, Address(s.E(p)) + i) == At(s.words, Address(s.E(p)) + i);
    }
    forall a | IsHead(a)
      ensures At(t.words, a) == At(s.words, a)
    {
      HeadNotSpare(s, g, a);
    }
    assert Shaped(t) by {
      assert OpenLayout(0);
    }
    CountsKeepLayout(s, t, g);
    MarkedClosed(s, g, roots, t, M);
  }

  lemma {:induction false} SizeInChunk(s: State, g: Layout, p: int)
    requires LaidOut(s, g) && p in g.len
    ensures SizeOf(s, p) <= g.len[p]
  {
    if p in g.alloc {
      assert Sized(s, p, g.len[p]) by {
        assert OpenLayout(0);
      }
    } else {
      ListedSize(s, g, p);
    }
  }

  lemma {:induction false} MarkedClosed(s: State, g: Layout, roots: seq<Word>, t: State, M: set<int>)
    requires LaidOut(s, g) && Heap(s, g.alloc) && AllZero(s) && Colored(s, g.alloc, roots, |roots|, t, M)
    requires forall p {:trigger t.E(p)} :: t.E(p) == s.E(p).(count := t.E(p).count)
    ensures Closed(t, M, NO_HOLE)
  {
    ColoredHeap(s, g.alloc, t);
    forall p, i, q | p in M && PointsTo(t, p, i, q)
      ensures q in M
    {
      assert PointsTo(s, p, i, q);
      assert Scanned(s, M, p, 1);
      assert q in g.alloc && Oop(q) && s.E(q).count == 0;
      assert Marking.Covered(s, M, q);
    }
  }

  // Audit

  ghost function NoObject(t: State, to: int): set<int> {
    set p | 2 <= p < to && Oop(p) && (t.E(p).free == 1 || t.E(p).count == 0)
  }

  method AuditFreeOops(om: ObjectMemory) returns (count: int)
    requires om.Valid()
    ensures count == |NoObject(om.st, OBJECT_TABLE_SIZE)|
  {
    count := 0;
    var p := 2;
    assert NoObject(om.st, 2) == {};
    while p < OBJECT_TABLE_SIZE
      invariant 2 <= p <= OBJECT_TABLE_SIZE && p % 2 == 0 && count == |NoObject(om.st, p)|
    {
      var free := om.FreeBitOf(p);
      var references := om.CountBitsOf(p);
      if !(free == 0 && references != 0) {
        count := count + 1;
        assert NoObject(om.st, p + 2) == NoObject(om.st, p) + {p};
      } else {
        assert NoObject(om.st, p + 2) == NoObject(om.st, p);
      }
      p := p + 2;
    }
  }

  // From the pass over the table to the end

  // Counts of kept objects may change without harm to the layout, either way.
  lemma {:induction false} CountsLayout(t: State, u: State, M: set<int>, h: Layout)
    requires LaidOut(t, h) && h.alloc == M && CountsOnly(M, t, u)
    ensures LaidOut(u, h)
  {
    forall p
      ensures u.E(p) == t.E(p).(count := u.E(p).count) && (forall i :: WordOf(u, p, i) == WordOf(t, p, i))
    {
      assert u.E(p) == t.E(p).(count := u.E(p).count);
    }
    forall p | p in h.len && p !in h.alloc
      ensures u.E(p).count == 0
    {
      ListedSize(t, h, p);
      assert u.E(p) == t.E(p);
    }
    assert Shaped(u) by {
      assert OpenLayout(0);
    }
    CountsKeepLayout(t, u, h);
  }

  lemma {:induction false} CountsBack(M: set<int>, t: State, u: State)
    requires CountsOnly(M, t, u)
    ensures CountsOnly(M, u, t)
  {
    forall q
      ensures t.E(q) == u.E(q).(count := t.E(q).count) && (q !in M ==> t.E(q) == u.E(q))
    {
      assert u.E(q) == t.E(q).(count := u.E(q).count);
    }
  }

  lemma {:induction false} FreshStays(s: State, g: Layout, M: set<int>, t: State, h: Layout, u: State)
    requires Freshened(s, g, M, t, h) && CountsOnly(M, t, u)
    ensures Freshened(s, g, M, u, h)
  {
    CountsBack(M, t, u);
    if Roomy(s, g) {
      CountsLayout(t, u, M, h);
    } else if Tiled(s, g) {
      forall h': Layout | h'.alloc == M
        ensures !LaidOut(u, h')
      {
        if LaidOut(u, h') {
          CountsLayout(u, t, M, h');
        }
      }
    }
  }

  // One more step after the pass: only counts of kept objects change.
  ghost predicate Ending(s: State, g: Layout, M: set<int>, t: State, h: Layout, ext: multiset<int>) {
    forall k {:trigger OpenPass(k)} :: OpenPass(k) ==> EndingUnfolded(s, g, M, t, h, ext)
  }

  ghost predicate EndingUnfolded(s: State, g: Layout, M: set<int>, t: State, h: Layout, ext: multiset<int>) {
    MarksSet(s, g, M) && LiveKept(s, g, M, t) && Exact(t, M, NO_HOLE, ext) && Sticks(s, M, t, ext) &&
    Closed(t, M, NO_HOLE) && Freshened(s, g, M, t, h) &&
    Shaped(t) && (forall q {:trigger q in g.len} :: q in g.len && q !in M ==> t.E(q).count == 0)
  }

  lemma {:induction false} EndingOn(s: State, g: Layout, M: set<int>, t: State, h: Layout, ext: multiset<int>, u: State,
                                    ext': multiset<int>)
    requires Ending(s, g, M, t, h, ext) && CountsOnly(M, t, u) && Exact(u, M, NO_HOLE, ext') && Sticks(s, M, u, ext')
    ensures Ending(s, g, M, u, h, ext')
  {
    assert EndingUnfolded(s, g, M, t, h, ext) by {
      assert OpenPass(0);
    }
    FreshStays(s, g, M, t, h, u);
    KeptStays(s, g, M, t, u);
    StaysClosed(g, M, t, u);
    assert EndingUnfolded(s, g, M, u, h, ext');
  }

  lemma {:induction false} StaysClosed(g: Layout, M: set<int>, t: State, u: State)
    requires Closed(t, M, NO_HOLE) && CountsOnly(M, t, u) && Shaped(t)
    requires forall q {:trigger q in g.len} :: q in g.len && q !in M ==> t.E(q).count == 0
    ensures Closed(u, M, NO_HOLE) && Shaped(u)
    ensures forall q {:trigger q in g.len} :: q in g.len && q !in M ==> u.E(q).count == 0
  {
    forall p, i, q | p in M && PointsTo(u, p, i, q)
      ensures q in M
    {
      assert u.E(p) == t.E(p).(count := u.E(p).count);
      assert PointsTo(t, p, i, q);
    }
    forall q | q in g.len && q !in M
      ensures u.E(q).count == 0
    {
      assert u.E(q) == t.E(q);
    }
  }

  lemma {:induction false} KeptStays(s: State, g: Layout, M: set<int>, t: State, u: State)
    requires LiveKept(s, g, M, t) && CountsOnly(M, t, u)
    ensures LiveKept(s, g, M, u)
  {
    forall q
      ensures u.E(q) == s.E(q).(count := u.E(q).count)
    {
      assert t.E(q) == s.E(q).(count := t.E(q).count);
      assert u.E(q) == t.E(q).(count := u.E(q).count);
    }
    CountsLive(s, g, M, t, u);
  }

  lemma {:induction false} SameRefs(t: State, M: set<int>, u: State, q: int)
    requires CountsOnly(M, t, u)
    ensures Refs(u, M, NO_HOLE, q) == Refs(t, M, NO_HOLE, q)
  {
    forall p | p in M
      ensures LastPointer(u, p) == LastPointer(t, p) && forall i :: WordOf(u, p, i) == WordOf(t, p, i)
    {
      assert u.E(p) == t.E(p).(count := u.E(p).count);
    }
    RefsSame(t, u, M, NO_HOLE, q);
  }

  // nil is stuck for good.
  lemma {:induction false} EndingNil(s: State, g: Layout, M: set<int>, t: State, h: Layout, ext: multiset<int>,
                                     u: State)
    requires Ending(s, g, M, t, h, ext) && NIL_POINTER in M &&
      u == PutEntry(t, NIL_POINTER, t.E(NIL_POINTER).(count := STUCK))
    ensures Ending(s, g, M, u, h, ext) && NilStuck(u, M)
  {
    EntriesAfterPut(t, NIL_POINTER, t.E(NIL_POINTER).(count := STUCK));
    assert Exact(t, M, NO_HOLE, ext) && Sticks(s, M, t, ext) && |t.ot| == OBJECT_TABLE_SIZE by {
      assert OpenPass(0);
    }
    assert CountsOnly(M, t, u);
    forall q | q in M
      ensures u.E(q).count == STUCK || (u.E(q).count < STUCK && u.E(q).count == Refs(u, M, NO_HOLE, q) + ext[q])
      ensures q != NIL_POINTER ==> u.E(q).count == CountAfter(s, M, ext, q)
    {
      SameRefs(t, M, u, q);
      assert t.E(q) == t.E(q);
    }
    EndingOn(s, g, M, t, h, ext, u, ext);
  }

  // A register is counted.
  lemma {:induction false} EndingCounts(s: State, g: Layout, M: set<int>, t: State, h: Layout, ext: multiset<int>,
                                        v: int)
    requires Ending(s, g, M, t, h, ext) && v in M
    ensures Oop(v) && Ending(s, g, M, CountedUp(t, v), h, Register(ext, v))
    ensures NilStuck(t, M) ==> NilStuck(CountedUp(t, v), M)
    ensures CountsOnly(M, t, CountedUp(t, v))
  {
    var u := CountedUp(t, v);
    assert Exact(t, M, NO_HOLE, ext) && Sticks(s, M, t, ext) && |t.ot| == OBJECT_TABLE_SIZE && Oop(v) by {
      assert OpenPass(0);
      AllocOops(s, g);
    }
    forall q
      ensures u.E(q) == if q == v then Raised(t.E(q)) else t.E(q)
    {
      CountUpSame(t, v, q);
    }
    assert CountsOnly(M, t, u);
    forall q | q in M
      ensures u.E(q).count == STUCK ||
        (u.E(q).count < STUCK && u.E(q).count == Refs(u, M, NO_HOLE, q) + Register(ext, v)[q])
      ensures q != NIL_POINTER ==> u.E(q).count == CountAfter(s, M, Register(ext, v), q)
    {
      SameRefs(t, M, u, q);
      assert t.E(q) == t.E(q);
    }
    EndingOn(s, g, M, t, h, ext, u, Register(ext, v));
  }

  lemma {:induction false} EndingRegisters(s: State, g: Layout, M: set<int>, t: State, h: Layout, ext: multiset<int>,
                                           n: int)
    requires Ending(s, g, M, t, h, ext)
    ensures Ending(s, g, M, t.(freeOops := n), h, ext) && (NilStuck(t, M) ==> NilStuck(t.(freeOops := n), M))
  {
    var u := t.(freeOops := n);
    assert forall q :: u.E(q) == t.E(q);
    assert Exact(t, M, NO_HOLE, ext) && Sticks(s, M, t, ext) by {
      assert OpenPass(0);
    }
    forall q | q in M
      ensures u.E(q).count == STUCK || (u.E(q).count < STUCK && u.E(q).count == Refs(u, M, NO_HOLE, q) + ext[q])
      ensures q != NIL_POINTER ==> u.E(q).count == CountAfter(s, M, ext, q)
    {
      SameRefs(t, M, u, q);
      assert t.E(q) == t.E(q);
    }
    EndingOn(s, g, M, t, h, ext, u, ext);
  }

  // The kept objects that nothing but a register refers to.
  ghost function OnlyInRegisters(t: State, M: set<int>): set<int> {
    set p | p in M && t.E(p).count < STUCK && Refs(t, M, NO_HOLE, p) == 0
  }

  lemma {:induction false} Audited(s: State, g: Layout, M: set<int>, t: State, h: Layout)
    requires Ending(s, g, M, t, h, multiset{})
    ensures |NoObject(t, OBJECT_TABLE_SIZE)| + |M| == OOP_COUNT + |OnlyInRegisters(t, M)|
  {
    assert EndingUnfolded(s, g, M, t, h, multiset{}) by {
      assert OpenPass(0);
    }
    EvenToSize(OOP_COUNT);
    var without, held := NoObject(t, OBJECT_TABLE_SIZE), M - OnlyInRegisters(t, M);
    forall p
      ensures Splits(without, held, EvenTo(OOP_COUNT), p)
    {
      AuditedEntry(s, g, M, t, p);
    }
    SizeOfSplit(without, held, EvenTo(OOP_COUNT));
    WithoutSome(M, OnlyInRegisters(t, M));
  }

  lemma {:induction false} WithoutSome(M: set<int>, some: set<int>)
    requires some <= M
    ensures |M - some| + |some| == |M|
  {
    assert M == (M - some) + some;
  }

  lemma {:induction false} AuditedEntry(s: State, g: Layout, M: set<int>, t: State, p: int)
    requires MarksSet(s, g, M) && LiveKept(s, g, M, t) && Exact(t, M, NO_HOLE, multiset{})
    requires forall q {:trigger q in g.len} :: q in g.len && q !in M ==> t.E(q).count == 0
    ensures Splits(NoObject(t, OBJECT_TABLE_SIZE), M - OnlyInRegisters(t, M), EvenTo(OOP_COUNT), p)
  {
    AllocOops(s, g);
    if Oop(p) {
      assert t.E(p) == s.E(p).(count := t.E(p).count);
      EntryOnce(s, g, p);
      assert p in g.len <==> s.E(p).free == 0 by {
        assert OpenLayout(0);
        if p in g.len {
          ChunkSpace(s, g, p);
        }
      }
      assert p in M ==> (p in OnlyInRegisters(t, M) <==> t.E(p).count == 0);
    }
  }

  // What a collection leaves: exactly what can be reached from the roots, with its words; counts
  // exact for the registers, and stuck where the references say; and the rest on the free lists,
  // unless a free chunk was stale.
  ghost predicate Collected(s: State, g: Layout, roots: seq<Word>, ext: multiset<int>, t: State, M: set<int>,
                            h: Layout) {
    M <= g.alloc && (forall p {:trigger Accessible(s, roots, p)} :: Accessible(s, roots, p) <==> p in M) &&
    (forall p {:trigger t.E(p)} :: t.E(p).(count := 0) == s.E(p).(count := 0)) &&
    (forall p, i {:trigger WordOf(t, p, i)} :: p in M && 0 <= i < SizeOf(s, p) ==>
      WordOf(t, p, i) == WordOf(s, p, i)) &&
    Closed(t, M, NO_HOLE) && Exact(t, M, NO_HOLE, ext) && NilStuck(t, M) && Sticks(s, M, t, ext) &&
    Freshened(s, g, M, t, h)
  }

  lemma {:induction false} EndsCollected(s: State, s0: State, g: Layout, roots: seq<Word>, s1: State, M: set<int>,
                                         t: State, h: Layout, ext: multiset<int>)
    requires LaidOut(s, g) && Closed(s, g.alloc, NO_HOLE) && CountsZeroed(s, s0, OBJECT_TABLE_SIZE)
    requires Colored(s0, g.alloc, roots, |roots|, s1, M) && s1.freeWords == s.freeWords && forall k ::
      0 <= k < |roots| ==> roots[k] in g.alloc
    requires Ending(s1, g, M, t, h, ext) && NilStuck(t, M)
    ensures Collected(s, g, roots, ext, t, M, h)
  {
    ZeroedHeap(s, g, s0);
    MarkedReady(s0, g, roots, s1, M);
    assert EndingUnfolded(s1, g, M, t, h, ext) by {
      assert OpenPass(0);
    }
    forall p
      ensures Accessible(s, roots, p) <==> p in M
    {
      LiveIsAccessible(s, s0, g.alloc, roots, p);
      ColoredIsLive(s0, g.alloc, roots, s1, M, p);
    }
    forall p
      ensures t.E(p).(count := 0) == s.E(p).(count := 0) && s1.E(p).(count := 0) == s.E(p).(count := 0)
    {
      assert t.E(p) == s1.E(p).(count := t.E(p).count);
      assert s1.E(p) == s0.E(p).(count := s1.E(p).count);
      assert s0.E(p).(count := 0) == s.E(p).(count := 0);
    }
    AllocOops(s, g);
    forall p, i | p in M && 0 <= i < SizeOf(s, p)
      ensures WordOf(t, p, i) == WordOf(s, p, i)
    {
      SamePointsTo(s, s0, p);
      SizeInChunk(s, g, p);
      assert SizeOf(s0, p) == WordOf(s0, p, 0) && SizeOf(s, p) == WordOf(s, p, 0);
      assert WordOf(s1, p, i) == WordOf(s0, p, i);
      assert WordOf(t, p, i) == WordOf(s1, p, i);
    }
    StaleSame(s, s1, g, M, t, h);
    forall p | p in M
      ensures LastPointer(s1, p) == LastPointer(s, p)
      ensures forall i :: 1 <= i < LastPointer(s, p) ==> WordOf(s1, p, i) == WordOf(s, p, i)
    {
      MarkedPointers(s, s0, g, roots, s1, M, p);
    }
    SticksSame(s, s1, M, t, ext);
  }

  // Marking leaves the pointers of an object alone.
  lemma {:induction false} MarkedPointers(s: State, s0: State, g: Layout, roots: seq<Word>, s1: State, M: set<int>,
                                          p: int)
    requires LaidOut(s, g) && Closed(s, g.alloc, NO_HOLE) && CountsZeroed(s, s0, OBJECT_TABLE_SIZE)
    requires Colored(s0, g.alloc, roots, |roots|, s1, M) && M <= g.alloc && p in M
    ensures LastPointer(s1, p) == LastPointer(s, p)
    ensures forall i {:trigger WordOf(s1, p, i)} :: 0 <= i < SizeOf(s, p) ==> WordOf(s1, p, i) == WordOf(s, p, i)
    ensures LastPointer(s, p) <= SizeOf(s, p)
  {
    ZeroedHeap(s, g, s0);
    MarkedReady(s0, g, roots, s1, M);
    AllocOops(s, g);
    SamePointsTo(s, s0, p);
    SizeInChunk(s, g, p);
    assert Sized(s, p, g.len[p]) by {
      assert OpenLayout(0);
    }
    assert SizeOf(s0, p) == WordOf(s0, p, 0) && SizeOf(s, p) == WordOf(s, p, 0);
    assert s1.E(p) == s0.E(p).(count := s1.E(p).count) && s0.E(p).(count := 0) == s.E(p).(count := 0);
    QuietShape(s, s1, p, g.len[p]);
  }

  // The count that a collection gives depends on words only.
  lemma {:induction false} SticksSame(s: State, s1: State, M: set<int>, t: State, ext: multiset<int>)
    requires Sticks(s1, M, t, ext)
    requires forall q {:trigger q in M} :: q in M ==> LastPointer(s1, q) == LastPointer(s, q)
    requires forall q, i {:trigger WordOf(s1, q, i)} :: q in M && 1 <= i < LastPointer(s, q) ==>
      WordOf(s1, q, i) == WordOf(s, q, i)
    ensures Sticks(s, M, t, ext)
  {
    forall q | q in M && q != NIL_POINTER
      ensures t.E(q).count == CountAfter(s, M, ext, q)
    {
      CountAfterSame(s, s1, M, ext, q);
      assert t.E(q) == t.E(q);
    }
  }

  lemma {:induction false} CountAfterSame(s: State, s1: State, M: set<int>, ext: multiset<int>, q: int)
    requires forall q {:trigger q in M} :: q in M ==> LastPointer(s1, q) == LastPointer(s, q)
    requires forall q, i {:trigger WordOf(s1, q, i)} :: q in M && 1 <= i < LastPointer(s, q) ==>
      WordOf(s1, q, i) == WordOf(s, q, i)
    ensures CountAfter(s1, M, ext, q) == CountAfter(s, M, ext, q)
  {
    RefsSame(s, s1, M, NO_HOLE, q);
    assert PlacesTo(s1, M, q) == PlacesTo(s, M, q);
    assert Holders(s1, PlacesTo(s1, M, q), q) == Holders(s, PlacesTo(s, M, q), q);
  }

  lemma {:induction false} StaleSame(s: State, s1: State, g: Layout, M: set<int>, t: State, h: Layout)
    requires Freshened(s1, g, M, t, h) && s1.freeWords == s.freeWords
    requires forall p {:trigger s1.E(p)} :: s1.E(p).(count := 0) == s.E(p).(count := 0)
    ensures Freshened(s, g, M, t, h)
  {
    forall p
      ensures Stale(s, g, p) <==> Stale(s1, g, p)
      ensures s1.E(p).location == s.E(p).location && s1.E(p).segment == s.E(p).segment
    {
      assert s1.E(p).(count := 0) == s.E(p).(count := 0);
    }
    assert Grown(s, g) == Grown(s1, g);
    RoomySame(s, s1, g);
    RoomySame(s1, s, g);
    if Tiled(s, g) {
      TiledSame(s, g, s1, g);
    }
  }

  lemma {:induction false} RoomySame(s: State, t: State, g: Layout)
    requires forall p {:trigger Stale(t, g, p)} :: Stale(t, g, p) ==> Stale(s, g, p)
    requires forall p {:trigger t.E(p)} :: t.E(p).location == s.E(p).location
    ensures Roomy(s, g) ==> Roomy(t, g)
  {
    if Roomy(s, g) {
      forall p | Stale(t, g, p)
        ensures t.E(p).location + g.len[p] == HEAP_SPACE_STOP
      {
        assert Stale(s, g, p);
      }
    }
  }

  // The interpreter's registers, counted again after the pass.
  method CollectionCompleted(om: ObjectMemory, activeContext: Word, newProcessWaiting: bool, newProcess: Word,
                             ghost s: State, ghost g: Layout, ghost M: set<int>, ghost h: Layout)
    requires om.Valid() && Ending(s, g, M, om.st, h, multiset{}) && NilStuck(om.st, M)
    requires activeContext in M && (newProcessWaiting ==> newProcess in M)
    modifies om`st, om.mem
    ensures om.Valid() && NilStuck(om.st, M)
    ensures Ending(s, g, M, om.st, h,
      multiset{activeContext as int} + if newProcessWaiting then multiset{newProcess as int} else multiset{})
    ensures OnlyInRegisters(om.st, M) == OnlyInRegisters(old(om.st), M) && om.st.freeOops == old(om.st.freeOops)
  {
    ghost var t := om.st;
    EndingCounts(s, g, M, om.st, h, multiset{}, activeContext);
    StillOnly(s, g, M, om.st, h, multiset{}, activeContext);
    assert InTable(activeContext);
    CountUp(om, activeContext);
    ghost var u := om.st;
    ghost var ext := Register(multiset{}, activeContext);
    assert ext == multiset{activeContext as int};
    if newProcessWaiting {
      EndingCounts(s, g, M, u, h, ext, newProcess);
      StillOnly(s, g, M, u, h, ext, newProcess);
      CountUp(om, newProcess);
      assert Register(ext, newProcess) == multiset{activeContext as int} + multiset{newProcess as int};
    } else {
      assert ext + multiset{} == ext;
    }
  }

  // Counting a register makes no object referred to by a field.
  lemma {:induction false} StillOnly(s: State, g: Layout, M: set<int>, t: State, h: Layout, ext: multiset<int>, v: int)
    requires Ending(s, g, M, t, h, ext) && v in M && forall p :: ext[p] <= 1
    ensures OnlyInRegisters(CountedUp(t, v), M) == OnlyInRegisters(t, M)
  {
    EndingCounts(s, g, M, t, h, ext, v);
    assert Exact(t, M, NO_HOLE, ext) by {
      assert OpenPass(0);
    }
    forall p
      ensures p in OnlyInRegisters(CountedUp(t, v), M) <==> p in OnlyInRegisters(t, M)
    {
      SameRefs(t, M, CountedUp(t, v), p);
      CountUpSame(t, v, p);
      assert t.E(p) == t.E(p);
    }
  }

  // rectifyCountsAndDeallocateGarbage, up to the interpreter's registers.
  method RectifyCountsAndDeallocateGarbage(om: ObjectMemory, ghost s: State, ghost g: Layout, ghost M: set<int>)
    returns (ghost h: Layout)
    requires om.Valid() && om.st == s && MarksSet(s, g, M) && NIL_POINTER in M
    modifies om`st, om`freeWords, om`freeOops, om.mem
    ensures om.Valid() && Ending(s, g, M, om.st, h, multiset{}) && NilStuck(om.st, M)
    ensures om.st.freeOops + |M| == OOP_COUNT + |OnlyInRegisters(om.st, M)|
  {
    h := RectifyCounts(om, s, g, M);
    ghost var t := om.st;
    PassEnds(s, g, M, t, h);
    assert EndingUnfolded(s, g, M, t, h, multiset{});
    EndingNil(s, g, M, t, h, multiset{}, PutEntry(t, NIL_POINTER, t.E(NIL_POINTER).(count := STUCK)));
    om.CountBitsPut(NIL_POINTER, STUCK);
    ghost var u := om.st;
    Audited(s, g, M, u, h);
    var count := AuditFreeOops(om);
    om.freeOops := count;
    om.st := om.st.(freeOops := count);
    EndingRegisters(s, g, M, u, h, multiset{}, count);
    SameOnly(u, M, om.st);
  }

  lemma {:induction false} SameOnly(t: State, M: set<int>, u: State)
    requires u == t.(freeOops := u.freeOops)
    ensures OnlyInRegisters(u, M) == OnlyInRegisters(t, M)
  {
    assert forall q :: u.E(q) == t.E(q);
    forall q
      ensures q in OnlyInRegisters(u, M) <==> q in OnlyInRegisters(t, M)
    {
      SameRefs(t, M, u, q);
    }
  }

  // The registers that are counted after a collection.
  function RegistersCounted(activeContext: Word, newProcessWaiting: bool, newProcess: Word): multiset<int> {
    multiset{activeContext as int} + if newProcessWaiting then multiset{newProcess as int} else multiset{}
  }

  // reclaimInaccessibleObjects.  The roots are the special objects, the Smalltalk dictionary and the
  // registers of the interpreter.
  method ReclaimInaccessibleObjects(om: ObjectMemory, roots: seq<Word>, activeContext: Word, newProcessWaiting: bool,
                                    newProcess: Word, ghost g: Layout)
    returns (ghost M: set<int>, ghost h: Layout)
    requires om.Valid() && LaidOut(om.st, g) && Closed(om.st, g.alloc, NO_HOLE)
    requires forall k :: 0 <= k < |roots| ==> roots[k] in g.alloc
    requires NIL_POINTER in roots && activeContext in roots && (newProcessWaiting ==> newProcess in roots)
    modifies om`st, om`freeWords, om`freeOops, om.mem
    ensures om.Valid() &&
      Collected(old(om.st), g, roots, RegistersCounted(activeContext, newProcessWaiting, newProcess), om.st, M, h)
    ensures om.st.freeOops + |M| == OOP_COUNT + |OnlyInRegisters(om.st, M)|
  {
    ghost var s := om.st;
    ZeroReferenceCounts(om);
    ghost var s0 := om.st;
    ZeroedHeap(s, g, s0);
    M := MarkAccessibleObjects(om, roots, g.alloc);
    ghost var s1 := om.st;
    MarkedReady(s0, g, roots, s1, M);
    RootsMarked(s0, g.alloc, roots, s1, M);
    h := RectifyCountsAndDeallocateGarbage(om, s1, g, M);
    ghost var u := om.st;
    CollectionCompleted(om, activeContext, newProcessWaiting, newProcess, s1, g, M, h);
    EndsCollected(s, s0, g, roots, s1, M, om.st, h, RegistersCounted(activeContext, newProcessWaiting, newProcess));
  }

  lemma {:induction false} RootsMarked(s: State, A: set<int>, roots: seq<Word>, t: State, M: set<int>)
    requires Colored(s, A, roots, |roots|, t, M)
    ensures forall r: Word :: r in roots ==> r in M
  {
    forall r: Word | r in roots
      ensures r in M
    {
      var k :| 0 <= k < |roots| && roots[k] == r;
      assert roots[k] in M;
    }
  }

  // A collection leaves a memory that is laid out, exactly if every stale chunk had the spare word
  // of its segment to grow into.
  lemma {:induction false} CollectionFits(s: State, g: Layout, roots: seq<Word>, ext: multiset<int>, t: State,
                                          M: set<int>, h: Layout)
    requires Collected(s, g, roots, ext, t, M, h) && Tiled(s, g)
    ensures (exists h': Layout :: h'.alloc == M && LaidOut(t, h')) <==> Roomy(s, g)
  {
    assert Roomy(s, g) ==> h.alloc == M && LaidOut(t, h);
  }

  // It is then healthy and tiled.
  lemma {:induction false} CollectedHealthy(s: State, g: Layout, roots: seq<Word>, ext: multiset<int>, t: State,
                                            M: set<int>, h: Layout)
    requires Collected(s, g, roots, ext, t, M, h) && Roomy(s, g) && Tiled(s, g)
    ensures Healthy(t, h, ext) && Tiled(t, h) && h.alloc == M && h.len == Grown(s, g).len
  {
    forall p
      ensures t.E(p) == s.E(p).(count := t.E(p).count)
    {
      assert t.E(p).(count := 0) == s.E(p).(count := 0);
    }
    forall segment, w | 0 <= segment < HEAP_SEGMENT_COUNT && 0 <= w < HEAP_SPACE_STOP
      ensures InChunk(t, h, segment, w)
    {
      assert InChunk(s, g, segment, w);
      var p :| p in g.len && s.E(p).segment == segment && s.E(p).location <= w < s.E(p).location + g.len[p];
      assert p in h.len && g.len[p] <= h.len[p] && t.E(p) == s.E(p).(count := t.E(p).count);
    }
    assert Shaped(t) by {
      assert OpenLayout(0);
    }
  }

  lemma {:induction false} TotalUnion(len: map<int, nat>, A: set<int>, B: set<int>)
    requires A <= len.Keys && B <= len.Keys && A !! B
    ensures TotalLength(len, A + B) == TotalLength(len, A) + TotalLength(len, B)
    decreases |B|
  {
    if B == {} {
      assert A + B == A;
    } else {
      var p := Pick(B);
      TotalUnion(len, A, B - {p});
      assert A + B - {p} == A + (B - {p});
      TotalWithout(len, A + B, p);
    }
  }

  // The old free chunks are counted free a second time, each stale one with a word more: freeWords
  // is right again exactly if there were none.
  lemma {:induction false} FreeWordsAfterCollection(s: State, g: Layout, roots: seq<Word>, ext: multiset<int>, t: State,
                                                    M: set<int>, h: Layout)
    requires LaidOut(s, g) && Accounted(s, g) && Collected(s, g, roots, ext, t, M, h)
    ensures g.alloc <= g.len.Keys && M <= g.len.Keys
    ensures t.freeWords + TotalLength(g.len, M) ==
      HEAP_ROOM + TotalLength(g.len, g.len.Keys - g.alloc) + |StaleChunks(s, g)|
    ensures t.freeWords + TotalLength(g.len, M) == HEAP_ROOM <==> g.len.Keys == g.alloc
  {
    assert g.alloc <= g.len.Keys && M <= g.alloc;
    GrownTotals(s, g, M, g.len.Keys - g.alloc, g.alloc - M, Grown(s, g).len);
    SomeLength(s, g, g.len.Keys - g.alloc);
    assert g.len.Keys == g.alloc <==> g.len.Keys - g.alloc == {};
  }

  lemma {:induction false} GrownTotals(s: State, g: Layout, M: set<int>, free: set<int>, garbage: set<int>,
                                       len: map<int, nat>)
    requires M <= g.alloc <= g.len.Keys && free == g.len.Keys - g.alloc && garbage == g.alloc - M &&
      len == Grown(s, g).len
    ensures TotalLength(len, g.len.Keys - M) ==
      TotalLength(g.len, garbage) + TotalLength(g.len, free) + |StaleChunks(s, g)|
    ensures TotalLength(g.len, g.alloc) == TotalLength(g.len, M) + TotalLength(g.len, garbage)
    ensures StaleChunks(s, g) <= free
  {
    TotalsOfCollection(g, M, len);
    GrownTotal(g, free, StaleChunks(s, g), len);
    SameTotal(g.len, len, garbage);
    assert StaleChunks(s, g) <= free;
    assert free * StaleChunks(s, g) == StaleChunks(s, g);
  }

  ghost function StaleChunks(s: State, g: Layout): set<int> {
    set p | p in g.len && Stale(s, g, p)
  }

  lemma {:induction false} TotalsOfCollection(g: Layout, M: set<int>, len: map<int, nat>)
    requires M <= g.alloc <= g.len.Keys == len.Keys
    ensures TotalLength(len, g.len.Keys - M) == TotalLength(len, g.alloc - M) + TotalLength(len, g.len.Keys - g.alloc)
    ensures TotalLength(g.len, g.alloc) == TotalLength(g.len, M) + TotalLength(g.len, g.alloc - M)
  {
    var free, garbage := g.len.Keys - g.alloc, g.alloc - M;
    assert g.len.Keys - M == garbage + free;
    TotalUnion(len, garbage, free);
    assert g.alloc == M + garbage;
    TotalUnion(g.len, M, garbage);
  }

  lemma {:induction false} SameTotal(len: map<int, nat>, len': map<int, nat>, A: set<int>)
    requires A <= len.Keys && A <= len'.Keys && forall p {:trigger p in A} :: p in A ==> len'[p] == len[p]
    ensures TotalLength(len', A) == TotalLength(len, A)
    decreases |A|
  {
    if A != {} {
      var p := Pick(A);
      TotalWithout(len, A, p);
      TotalWithout(len', A, p);
      SameTotal(len, len', A - {p});
    }
  }

  lemma {:induction false} GrownTotal(g: Layout, A: set<int>, stale: set<int>, len: map<int, nat>)
    requires A <= g.len.Keys == len.Keys && forall p {:trigger len[p]} :: p in len ==>
      len[p] == if p in stale then g.len[p] + 1 else g.len[p]
    ensures TotalLength(len, A) == TotalLength(g.len, A) + |A * stale|
    decreases |A|
  {
    if A != {} {
      var p := Pick(A);
      TotalWithout(g.len, A, p);
      TotalWithout(len, A, p);
      GrownTotal(g, A - {p}, stale, len);
      OneOfBoth(A, stale, p);
    } else {
      assert A * stale == {};
    }
  }

  lemma {:induction false} OneOfBoth(A: set<int>, stale: set<int>, p: int)
    requires p in A
    ensures |A * stale| == |(A - {p}) * stale| + (if p in stale then 1 else 0)
  {
    if p in stale {
      assert A * stale == (A - {p}) * stale + {p};
    } else {
      assert A * stale == (A - {p}) * stale;
    }
  }

  lemma {:induction false} SomeLength(s: State, g: Layout, A: set<int>)
    requires LaidOut(s, g) && A <= g.len.Keys
    ensures TotalLength(g.len, A) == 0 <==> A == {}
  {
    if A != {} {
      var p := Pick(A);
      TotalWithout(g.len, A, p);
      ChunkSpace(s, g, p);
    }
  }
}
