// The first half of a full collection: the counts are zeroed, and everything that can be reached
// from a root is marked.
module Roots {
  import opened Words
  import opened Memory
  import opened Traversal
  import opened Marking
  import opened Layouts
  import opened Allocation
  import opened Abandoning

  // Zeroing

  // The counts of the entries below `to` are zero.
  ghost predicate CountsZeroed(s: State, t: State, to: int) {
    t.words == s.words && SameSizes(s, t) && t.freeHead == s.freeHead &&
    forall p {:trigger t.E(p)} :: t.E(p) == if Oop(p) && p < to then s.E(p).(count := 0) else s.E(p)
  }

  method ZeroReferenceCounts(om: ObjectMemory)
    requires om.Valid()
    modifies om`st, om.mem
    ensures om.Valid() && CountsZeroed(old(om.st), om.st, OBJECT_TABLE_SIZE)
  {
    var p := 2;
    while p <= OBJECT_TABLE_SIZE - 2
      invariant om.Valid() && 2 <= p <= OBJECT_TABLE_SIZE && p % 2 == 0
      invariant CountsZeroed(old(om.st), om.st, p)
      decreases OBJECT_TABLE_SIZE - p
    {
      ghost var t := om.st;
      om.CountBitsPut(p, 0);
      ZeroOne(old(om.st), t, p, om.st);
      p := p + 2;
    }
  }

  lemma {:induction false} ZeroOne(s: State, t: State, p: int, u: State)
    requires CountsZeroed(s, t, p) && Oop(p) && p < |t.ot| && u == PutEntry(t, p, t.E(p).(count := 0))
    ensures CountsZeroed(s, u, p + 2)
  {
    EntriesAfterPut(t, p, t.E(p).(count := 0));
    assert t.E(p) == s.E(p);
  }

  // Changing only counts, and words beyond the sizes, keeps the layout.
  lemma {:induction false} CountsKeepLayout(s: State, t: State, g: Layout)
    requires LaidOut(s, g) && Shaped(t) && t.freeHead == s.freeHead
    requires forall p {:trigger t.E(p)} :: t.E(p) == s.E(p).(count := t.E(p).count)
    requires forall p {:trigger p in g.len} :: p in g.len && p !in g.alloc ==> t.E(p).count == 0
    requires forall a {:trigger IsHead(a)} :: IsHead(a) ==> At(t.words, a) == At(s.words, a)
    requires forall p, i {:trigger WordOf(t, p, i)} :: p in g.len && 0 <= i < SizeOf(s, p) ==>
      WordOf(t, p, i) == WordOf(s, p, i)
    ensures LaidOut(t, g)
  {
    forall p | p in g.alloc
      ensures p in g.len && Sized(t, p, g.len[p])
    {
      assert p in g.len && Sized(s, p, g.len[p]) by {
        assert OpenLayout(0);
      }
      assert t.E(p) == s.E(p).(count := t.E(p).count);
      QuietShape(s, t, p, g.len[p]);
    }
    forall p | p in g.len && p !in g.alloc
      ensures SizeOf(t, p) == SizeOf(s, p) && ClassOf(t, p) == ClassOf(s, p)
    {
      ListedSize(s, g, p);
      assert t.E(p) == s.E(p).(count := t.E(p).count);
      assert WordOf(t, p, 0) == WordOf(s, p, 0) && WordOf(t, p, 1) == WordOf(s, p, 1);
    }
    CountsKeepLists(s, t, g);
    assert OpenLayout(0);
    assert forall q :: t.E(q).(count := 0) == s.E(q).(count := 0);
    SameChunks(s, t, g, g);
    SameFrees(s, t, g.frees);
    assert forall p :: Oop(p) && t.E(p).free == 0 ==> s.E(p).free == 0;
  }

  lemma {:induction false} CountsKeepLists(s: State, t: State, g: Layout)
    requires LaidOut(s, g)
    requires forall p {:trigger t.E(p)} :: t.E(p) == s.E(p).(count := t.E(p).count)
    requires forall p {:trigger p in g.len} :: p in g.len && p !in g.alloc ==>
      t.E(p).count == 0 && SizeOf(t, p) == SizeOf(s, p) && ClassOf(t, p) == ClassOf(s, p)
    requires forall a {:trigger IsHead(a)} :: IsHead(a) ==> At(t.words, a) == At(s.words, a)
    ensures Lists(t, g)
  {
    assert Lists(s, g) by {
      assert OpenLayout(0);
    }
    forall a, i | a in g.lists && 0 <= i < |g.lists[a]|
      ensures OnList(t, g, a, g.lists[a][i]) && ClassOf(t, g.lists[a][i]) == ClassOf(s, g.lists[a][i])
    {
      var q := g.lists[a][i];
      ListMember(s, g, a, i);
      assert q in g.len && t.E(q) == s.E(q).(count := t.E(q).count);
    }
    forall a | a in g.lists
      ensures Linked(t, a, g.lists[a])
    {
      assert Linked(s, a, g.lists[a]) && IsHead(a);
      SameLinked(s, t, a, g.lists[a]);
    }
  }

  // Marking from all the roots

  ghost predicate AllZero(s: State) {
    forall p {:trigger s.E(p)} :: Oop(p) ==> s.E(p).count == 0
  }

  // p can be reached from a root.
  ghost predicate Live(s: State, roots: seq<Word>, p: int) {
    exists r :: r in roots && Reaches(s, r, p)
  }

  // The objects of M are marked, and M is closed.
  ghost predicate Colored(s: State, A: set<int>, roots: seq<Word>, n: int, t: State, M: set<int>) {
    M <= A && 0 <= n <= |roots| && SameSizes(s, t) && t.freeHead == s.freeHead && SameButSpares(s, A, t.words) &&
    (forall p {:trigger t.E(p)} :: t.E(p) == if p in M then s.E(p).(count := 1) else s.E(p)) &&
    (forall p {:trigger Scanned(s, M, p, 1)} :: p in M ==> Scanned(s, M, p, 1)) &&
    (forall p {:trigger Live(s, roots, p)} :: p in M ==> Live(s, roots, p)) &&
    (forall k {:trigger roots[k]} :: 0 <= k < n ==> roots[k] in M)
  }

  // What is marked reads as before, but for spare words.
  lemma {:induction false} ColoredReads(s: State, A: set<int>, t: State, p: int)
    requires Heap(s, A) && SameButSpares(s, A, t.words) && p in A && t.E(p) == s.E(p).(count := t.E(p).count)
    ensures forall i {:trigger WordOf(t, p, i)} :: 0 <= i < SizeOf(s, p) ==> WordOf(t, p, i) == WordOf(s, p, i)
    ensures LastPointer(t, p) == LastPointer(s, p) && Space(t, p) == Space(s, p) && SizeOf(t, p) == SizeOf(s, p) &&
      Block(s, p)
  {
    assert Block(s, p);
    SparesKeepIntact(s, A, t.words, p);
    forall i | 0 <= i < SizeOf(s, p)
      ensures WordOf(t, p, i) == WordOf(s, p, i)
    {
      assert Chunk(t.words, s.E(p), i) == WordOf(s, p, i);
    }
    assert SizeOf(t, p) == WordOf(t, p, 0) && ClassOf(t, p) == WordOf(t, p, 1);
  }

  lemma {:induction false} ColoredHeap(s: State, A: set<int>, t: State)
    requires Heap(s, A) && SameButSpares(s, A, t.words) && |t.ot| == |s.ot|
    requires forall p {:trigger t.E(p)} :: p in A ==> t.E(p) == s.E(p).(count := t.E(p).count)
    ensures Heap(t, A)
    ensures forall p, i, q {:trigger PointsTo(t, p, i, q)} {:trigger PointsTo(s, p, i, q)} :: p in A ==>
      (PointsTo(t, p, i, q) <==> PointsTo(s, p, i, q))
  {
    forall p | p in A
      ensures t.E(p) == s.E(p).(count := t.E(p).count) && Block(s, p) && Block(t, p)
      ensures LastPointer(t, p) == LastPointer(s, p) <= SizeOf(s, p) && Space(t, p) == Space(s, p)
      ensures forall i {:trigger WordOf(t, p, i)} :: 0 <= i < SizeOf(s, p) ==> WordOf(t, p, i) == WordOf(s, p, i)
    {
      assert t.E(p) == t.E(p);
      ColoredReads(s, A, t, p);
    }
    forall p, q | p in A && q in A && p != q
      ensures Apart(t, p, q)
    {
      assert Apart(s, p, q);
    }
    forall p, i, q | p in A
      ensures PointsTo(t, p, i, q) <==> PointsTo(s, p, i, q)
    {
    }
  }

  // A trail from an object of A stays in A.
  lemma {:induction false} TrailInside(s: State, A: set<int>, path: seq<int>)
    requires Heap(s, A) && Trail(s, path) && path[0] in A
    ensures path[|path| - 1] in A
  {
    if |path| > 1 {
      var n := |path| - 1;
      TrailInside(s, A, path[..n]);
      assert Edge(s, path[n - 1], path[n]);
      var i :| PointsTo(s, path[n - 1], i, path[n]);
    }
  }

  // A trail through what is unmarked now is a trail through what was unmarked to begin with.
  lemma {:induction false} TrailBefore(s: State, A: set<int>, t: State, path: seq<int>)
    requires Heap(s, A) && Heap(t, A) && AllZero(s) && Trail(t, path) && path[0] in A
    requires forall p, i, q {:trigger PointsTo(t, p, i, q)} {:trigger PointsTo(s, p, i, q)} :: p in A ==>
      (PointsTo(t, p, i, q) <==> PointsTo(s, p, i, q))
    ensures Trail(s, path)
  {
    var n := |path| - 1;
    TrailInside(t, A, path);
    assert Oop(path[n]) && s.E(path[n]).count == 0;
    if n > 0 {
      TrailBefore(s, A, t, path[..n]);
      TrailInside(t, A, path[..n]);
      assert Edge(t, path[n - 1], path[n]);
      var i :| PointsTo(t, path[n - 1], i, path[n]);
      assert PointsTo(s, path[n - 1], i, path[n]);
      assert Edge(s, path[n - 1], path[n]);
    }
  }

  lemma {:induction false} ReachedBefore(s: State, A: set<int>, t: State, root: int, p: int)
    requires Heap(s, A) && Heap(t, A) && AllZero(s) && root in A && Reaches(t, root, p)
    requires forall p, i, q {:trigger PointsTo(t, p, i, q)} {:trigger PointsTo(s, p, i, q)} :: p in A ==>
      (PointsTo(t, p, i, q) <==> PointsTo(s, p, i, q))
    ensures Reaches(s, root, p) && p in A && t.E(p).count == 0
  {
    var path :| Trail(t, path) && path[0] == root && path[|path| - 1] == p;
    TrailBefore(s, A, t, path);
    TrailInside(t, A, path);
  }

  ghost function WithReached(t: State, A: set<int>, root: int, M: set<int>): set<int> {
    set p | p in A && (p in M || Reaches(t, root, p))
  }

  // Marking from one more root.
  lemma {:induction false} OneMoreRoot(s: State, A: set<int>, roots: seq<Word>, n: int, t: State, M: set<int>, u: State)
    requires Heap(s, A) && AllZero(s) && Colored(s, A, roots, n, t, M) && n < |roots| && roots[n] in A
    requires Heap(t, A) && Marked(t, A, roots[n], u)
    requires forall p, i, q {:trigger PointsTo(t, p, i, q)} {:trigger PointsTo(s, p, i, q)} :: p in A ==>
      (PointsTo(t, p, i, q) <==> PointsTo(s, p, i, q))
    ensures Colored(s, A, roots, n + 1, u, WithReached(t, A, roots[n], M))
  {
    var root, M' := roots[n], WithReached(t, A, roots[n], M);
    forall p | Reaches(t, root, p)
      ensures Reaches(s, root, p) && p in A && t.E(p).count == 0
    {
      ReachedBefore(s, A, t, root, p);
    }
    forall p
      ensures u.E(p) == if p in M' then s.E(p).(count := 1) else s.E(p)
    {
      assert t.E(p) == if p in M then s.E(p).(count := 1) else s.E(p);
      assert u.E(p) == if Reaches(t, root, p) then t.E(p).(count := 1) else t.E(p);
    }
    forall p | p in M'
      ensures Scanned(s, M', p, 1)
    {
      forall i, q | 1 <= i && PointsTo(s, p, i, q)
        ensures Covered(s, M', q)
      {
        StillClosed(s, A, roots, n, t, M, p, i, q);
      }
    }
    forall p | p in M'
      ensures Live(s, roots, p)
    {
      if p !in M {
        assert root in roots;
      }
    }
    RootMarked(t, root);
    assert root in M' by {
      assert t.E(root) == if root in M then s.E(root).(count := 1) else s.E(root);
      assert Oop(root);
    }
    SparesAgain(s, A, t, u);
  }

  lemma {:induction false} RootMarked(t: State, root: int)
    ensures t.E(root).count == 0 ==> Reaches(t, root, root)
  {
    if t.E(root).count == 0 {
      ReachesItself(t, root);
    }
  }

  lemma {:induction false} StillClosed(s: State, A: set<int>, roots: seq<Word>, n: int, t: State, M: set<int>, p: int,
                                       i: int, q: int)
    requires Heap(s, A) && Heap(t, A) && AllZero(s) && Colored(s, A, roots, n, t, M) && n < |roots| && roots[n] in A
    requires forall p, i, q {:trigger PointsTo(t, p, i, q)} {:trigger PointsTo(s, p, i, q)} :: p in A ==>
      (PointsTo(t, p, i, q) <==> PointsTo(s, p, i, q))
    requires p in WithReached(t, A, roots[n], M) && 1 <= i && PointsTo(s, p, i, q)
    ensures Covered(s, WithReached(t, A, roots[n], M), q)
  {
    assert q in A && Oop(q);
    if p in M {
      assert Scanned(s, M, p, 1);
      assert Covered(s, M, q);
      assert Unmarked(s, q);
    } else if t.E(q).count == 0 {
      assert PointsTo(t, p, i, q);
      assert Edge(t, p, q);
      ReachesNext(t, roots[n], p, q);
    } else {
      assert t.E(q) == if q in M then s.E(q).(count := 1) else s.E(q);
    }
  }

  lemma {:induction false} SparesAgain(s: State, A: set<int>, t: State, u: State)
    requires Heap(s, A) && SameButSpares(s, A, t.words) && SameButSpares(t, A, u.words)
    requires forall p {:trigger t.E(p)} :: p in A ==> t.E(p) == s.E(p).(count := t.E(p).count)
    ensures SameButSpares(s, A, u.words)
  {
    forall a
      ensures At(u.words, a) == At(s.words, a) || IsSpare(s, A, a)
    {
      if At(u.words, a) != At(t.words, a) {
        assert IsSpare(t, A, a);
        var p :| p in A && LastPointer(t, p) >= HUGE_SIZE && a == Address(t.E(p)) + LastPointer(t, p);
        assert t.E(p) == s.E(p).(count := t.E(p).count);
        ColoredReads(s, A, t, p);
      }
    }
  }

  // Mark from every root.
  method MarkAccessibleObjects(om: ObjectMemory, roots: seq<Word>, ghost A: set<int>) returns (ghost M: set<int>)
    requires om.Valid() && Heap(om.st, A) && AllZero(om.st) && forall k :: 0 <= k < |roots| ==> roots[k] in A
    modifies om`st, om.mem
    ensures om.Valid() && Colored(old(om.st), A, roots, |roots|, om.st, M)
    ensures om.st.freeWords == old(om.st.freeWords) && om.st.freeOops == old(om.st.freeOops)
  {
    ghost var s := om.st;
    M := {};
    for n := 0 to |roots|
      invariant om.Valid() && Colored(s, A, roots, n, om.st, M)
    {
      ghost var t := om.st;
      ColoredCounts(s, A, roots, n, t, M);
      ColoredHeap(s, A, t);
      MarkObjectsAccessibleFrom(om, roots[n], A);
      OneMoreRoot(s, A, roots, n, t, M, om.st);
      M := WithReached(t, A, roots[n], M);
    }
  }

  lemma {:induction false} ColoredCounts(s: State, A: set<int>, roots: seq<Word>, n: int, t: State, M: set<int>)
    requires Colored(s, A, roots, n, t, M)
    ensures |t.ot| == |s.ot| && forall p {:trigger t.E(p)} :: p in A ==> t.E(p) == s.E(p).(count := t.E(p).count)
  {
  }

  // What is marked in the end is exactly what can be reached from the roots.
  lemma {:induction false} ColoredIsLive(s: State, A: set<int>, roots: seq<Word>, t: State, M: set<int>, p: int)
    requires Colored(s, A, roots, |roots|, t, M)
    ensures p in M <==> Live(s, roots, p)
  {
    if Live(s, roots, p) {
      var r :| r in roots && Reaches(s, r, p);
      var k :| 0 <= k < |roots| && roots[k] == r;
      assert roots[k] in M;
      assert forall q :: q in M ==> Scanned(s, M, q, 1);
      ClosedHoldsReached(s, M, r);
    }
    assert p in M ==> Live(s, roots, p);
  }
}
