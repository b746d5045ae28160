// What becomes of a count over a run of the memory.
module RunCounts {
  import opened Words
  import opened Memory
  import opened RefCounts
  import opened Layouts
  import opened Freeing
  import opened StorePointers
  import opened Compaction
  import opened ChunkAllocation
  import opened Accounts
  import opened ObjectAllocation
  import opened MemoryRuns

  // The references to q, from fields, classes and registers.
  ghost function Total(x: Config, q: int): nat {
    Refs(x.s, x.g.alloc, NO_HOLE, q) + x.ext[q]
  }

  // The references that an operation makes to q,
  function Gain(a: Operation, q: int): nat {
    match a
    case Refer(v) => if v == q then 1 else 0
    case Release(_) => 0
    case Store(_, _, v) => if v == q then 1 else 0
    case Compact(_) => 0
    case Allocate(_, _, _, _, class_) => if class_ == q then 1 else 0
  }

  // those of the objects that it frees,
  ghost function HeldByFreed(x: Config, y: Config, q: int): nat {
    Refs(x.s, x.g.alloc - y.g.alloc, NO_HOLE, q)
  }

  // and with these all that it loses.
  ghost function Loss(x: Config, a: Operation, y: Config, q: int): nat {
    HeldByFreed(x, y, q) +
    match a
    case Release(p) => if p == q then 1 else 0
    case Store(p, i, _) => if WordOf(x.s, p, i) == q then 1 else 0
    case _ => 0
  }

  lemma {:induction false} RefsSplit(s: State, A: set<int>, B: set<int>, q: int)
    requires B <= A
    ensures Refs(s, A, NO_HOLE, q) == Refs(s, B, NO_HOLE, q) + Refs(s, A - B, NO_HOLE, q)
  {
    var all, some, rest := Holders(s, Places(s, A) - NO_HOLE, q), Holders(s, Places(s, B) - NO_HOLE, q),
      Holders(s, Places(s, A - B) - NO_HOLE, q);
    assert all == some + rest && some * rest == {};
  }

  lemma {:induction false} NoneHeld(s: State, q: int)
    ensures Refs(s, {}, NO_HOLE, q) == 0
  {
    assert Holders(s, Places(s, {}) - NO_HOLE, q) == {};
  }

  // The pointers of an object that remains are where they were.
  lemma {:induction false} PointersRemain(x: Config, a: Operation, y: Config, p: int)
    requires SoundAt(x) && Remains(x, a, y, p) && p in x.g.alloc && (a.Store? ==> PointerField(x.s, a.p, a.i))
    ensures LastPointer(y.s, p) == LastPointer(x.s, p) <= SizeOf(x.s, p)
  {
    SoundReady(x.s, x.g, x.ext);
    assert Sized(x.s, p, x.g.len[p]) by {
      assert OpenLayout(0);
    }
    assert WordOf(y.s, p, 1) == WordOf(x.s, p, 1) && ClassOf(x.s, p) == WordOf(x.s, p, 1) &&
      ClassOf(y.s, p) == WordOf(y.s, p, 1);
    if x.s.E(p).pointer == 0 && HEADER_SIZE < SizeOf(x.s, p) {
      assert WordOf(y.s, p, HEADER_SIZE) == WordOf(x.s, p, HEADER_SIZE);
    }
  }

  // What an operation other than a store leaves of the references from the objects of A.
  lemma {:induction false} RefsRemain(x: Config, a: Operation, y: Config, A: set<int>, q: int)
    requires SoundAt(x) && Makes(x, a, y) && !a.Store? && A <= x.g.alloc && A <= y.g.alloc
    ensures Refs(y.s, A, NO_HOLE, q) == Refs(x.s, A, NO_HOLE, q)
  {
    forall p | p in A
      ensures LastPointer(y.s, p) == LastPointer(x.s, p)
      ensures forall i :: 1 <= i < LastPointer(x.s, p) ==> WordOf(y.s, p, i) == WordOf(x.s, p, i)
    {
      MakesRemains(x, a, y, p);
      PointersRemain(x, a, y, p);
    }
    RefsSame(x.s, y.s, A, NO_HOLE, q);
  }

  // With a store, the place counts for the new word, and no more for the old.
  lemma {:induction false} RefsAfterStore(x: Config, a: Operation, y: Config, q: int)
    requires SoundAt(x) && Makes(x, a, y) && a.Store?
    ensures Refs(y.s, y.g.alloc, NO_HOLE, q) + (if WordOf(x.s, a.p, a.i) == q then 1 else 0) ==
      Refs(x.s, y.g.alloc, NO_HOLE, q) + (if a.v == q then 1 else 0)
  {
    var A, place := y.g.alloc, (a.p, a.i);
    assert A <= x.g.alloc && a.p in A;
    forall p | p in A
      ensures LastPointer(y.s, p) == LastPointer(x.s, p)
      ensures forall i :: 1 <= i < LastPointer(x.s, p) ==> WordOf(y.s, p, i) == Written(a, p, i, WordOf(x.s, p, i))
    {
      MakesRemains(x, a, y, p);
      PointersRemain(x, a, y, p);
    }
    assert Places(y.s, A) == Places(x.s, A) && place in Places(x.s, A);
    RefsAtHole(x.s, A, place, q);
    RefsAtHole(y.s, A, place, q);
    assert Holders(y.s, Places(y.s, A) - {place}, q) == Holders(x.s, Places(x.s, A) - {place}, q);
  }

  lemma {:induction false} ReferTotal(x: Config, v: int, y: Config, q: int)
    requires SoundAt(x) && Makes(x, Refer(v), y) && q in x.g.alloc
    ensures Total(y, q) + Loss(x, Refer(v), y, q) == Total(x, q) + Gain(Refer(v), q)
  {
    RefsRemain(x, Refer(v), y, x.g.alloc, q);
    assert x.g.alloc - y.g.alloc == {};
    NoneHeld(x.s, q);
    SoundReady(x.s, x.g, x.ext);
    AllocEven(x.s, x.g, q);
  }

  lemma {:induction false} AllocEven(s: State, g: Layout, q: int)
    requires LaidOut(s, g) && q in g.alloc
    ensures Oop(q) && !IsInteger(q)
  {
    assert OpenLayout(0);
    assert q in g.len && Placed(s, q, g.len[q]);
  }

  lemma {:induction false} ReleaseTotal(x: Config, p: int, y: Config, q: int)
    requires SoundAt(x) && Makes(x, Release(p), y)
    ensures Total(y, q) + Loss(x, Release(p), y, q) == Total(x, q) + Gain(Release(p), q)
  {
    var order :| Freed(x.s, x.g, Drop(y.ext, NO_HOLE, {}), y.s, y.g, order);
    assert y.g.alloc <= x.g.alloc by {
      assert OpenFreed(0);
    }
    RefsSplit(x.s, x.g.alloc, y.g.alloc, q);
    RefsRemain(x, Release(p), y, y.g.alloc, q);
  }

  lemma {:induction false} StoreTotal(x: Config, p: int, i: int, v: int, y: Config, q: int)
    requires SoundAt(x) && Makes(x, Store(p, i, v), y)
    ensures Total(y, q) + Loss(x, Store(p, i, v), y, q) == Total(x, q) + Gain(Store(p, i, v), q)
  {
    assert y.g.alloc <= x.g.alloc;
    RefsSplit(x.s, x.g.alloc, y.g.alloc, q);
    RefsAfterStore(x, Store(p, i, v), y, q);
  }

  lemma {:induction false} CompactTotal(x: Config, segment: int, y: Config, q: int)
    requires SoundAt(x) && Makes(x, Compact(segment), y)
    ensures Total(y, q) + Loss(x, Compact(segment), y, q) == Total(x, q) + Gain(Compact(segment), q)
  {
    assert y.g.alloc == x.g.alloc by {
      assert OpenSweep(0);
    }
    RefsRemain(x, Compact(segment), y, x.g.alloc, q);
    assert x.g.alloc - y.g.alloc == {};
    NoneHeld(x.s, q);
  }

  lemma {:induction false} AllocateTotal(x: Config, a: Operation, y: Config, q: int)
    requires SoundAt(x) && a.Allocate? && Makes(x, a, y) && q != NIL_POINTER
    ensures Total(y, q) + Loss(x, a, y, q) == Total(x, q) + Gain(a, q)
  {
    var u, h :| Allotted(x.s, x.g, u, h, a.p, a.size, a.odd, a.pointer, a.class_, y.s) && y.g == WithObject(h, a.p);
    assert h.alloc == x.g.alloc;
    MadeRefs(u, h, a.p, a.size, a.odd, a.pointer, a.class_, y.s, q);
    CarriedRefs(x, a.class_, u, h, q);
    assert x.g.alloc - y.g.alloc == {};
    NoneHeld(x.s, q);
  }

  lemma {:induction false} CarriedRefs(x: Config, class_: int, u: State, h: Layout, q: int)
    requires SoundAt(x) && class_ in x.g.alloc && !IsInteger(class_) && AllCarried(CountedUp(x.s, class_), x.g, u, h)
    ensures Refs(u, h.alloc, NO_HOLE, q) == Refs(x.s, x.g.alloc, NO_HOLE, q)
  {
    var t := CountedUp(x.s, class_);
    SoundCountUp(x.s, x.g, x.ext, class_);
    SoundReady(t, x.g, Register(x.ext, class_));
    forall p | p in x.g.alloc
      ensures LastPointer(u, p) == LastPointer(x.s, p)
      ensures forall i :: 1 <= i < LastPointer(x.s, p) ==> WordOf(u, p, i) == WordOf(x.s, p, i)
    {
      CountUpSame(x.s, class_, p);
      CarriedShape(t, x.g, u, h, p);
    }
    RefsSame(x.s, u, x.g.alloc, NO_HOLE, q);
  }

  // References are made and lost, and otherwise they stay.
  lemma {:induction false} MakesTotal(x: Config, a: Operation, y: Config, q: int)
    requires SoundAt(x) && Makes(x, a, y) && q in x.g.alloc && q != NIL_POINTER
    ensures Total(y, q) + Loss(x, a, y, q) == Total(x, q) + Gain(a, q)
  {
    match a
    case Refer(v) => ReferTotal(x, v, y, q);
    case Release(p) => ReleaseTotal(x, p, y, q);
    case Store(p, i, v) => StoreTotal(x, p, i, v, y, q);
    case Compact(segment) => CompactTotal(x, segment, y, q);
    case Allocate(_, _, _, _, _) => AllocateTotal(x, a, y, q);
  }

  // What a count can come to with one operation.
  lemma {:induction false} MakesBound(x: Config, a: Operation, y: Config, q: int)
    requires SoundAt(x) && Makes(x, a, y) && q in x.g.alloc && q in y.g.alloc
    ensures y.s.E(q).count <= Min(x.s.E(q).count + Gain(a, q), STUCK)
    ensures x.s.E(q).count + Gain(a, q) >= STUCK ==> y.s.E(q).count == STUCK
  {
    SoundReady(x.s, x.g, x.ext);
    AllocEven(x.s, x.g, q);
    CountAtMost(x, q);
    match a
    case Refer(v) => CountUpSame(x.s, v, q);
    case Release(p) =>
      var order :| Freed(x.s, x.g, Drop(y.ext, NO_HOLE, {}), y.s, y.g, order);
      assert OpenFreed(0);
    case Store(p, i, v) =>
      CountUpSame(x.s, v, q);
      assert y.s.E(q) == y.s.E(q);
    case Compact(segment) =>
      assert OpenSweep(0);
      assert y.s.E(q) == y.s.E(q);
    case Allocate(_, _, _, _, _) => AllocateBound(x, a, y, q);
  }

  lemma {:induction false} AllocateBound(x: Config, a: Operation, y: Config, q: int)
    requires SoundAt(x) && a.Allocate? && Makes(x, a, y) && q in x.g.alloc
    ensures y.s.E(q).count == CountedUp(x.s, a.class_).E(q).count
    ensures CountedUp(x.s, a.class_).E(q).count == if q == a.class_ then Raised(x.s.E(q)).count else x.s.E(q).count
  {
    var u, h :| Allotted(x.s, x.g, u, h, a.p, a.size, a.odd, a.pointer, a.class_, y.s) && y.g == WithObject(h, a.p);
    SoundReady(x.s, x.g, x.ext);
    AllocEven(x.s, x.g, q);
    CountAtMost(x, q);
    CountUpSame(x.s, a.class_, q);
    NewCount(CountedUp(x.s, a.class_), x.g, u, h, a, y.s, q);
  }

  // The new object leaves the counts of the others alone.
  lemma {:induction false} NewCount(t: State, g: Layout, u: State, h: Layout, a: Operation, w: State, q: int)
    requires a.Allocate? && AllCarried(t, g, u, h) && q in g.alloc
    requires NewObject(u, h, a.p, a.size, a.odd, a.pointer, a.class_, w)
    ensures w.E(q).count == t.E(q).count
  {
    HandParts(u, h, a.p);
    assert Carried(t, g, u, h, q);
    assert q != a.p && w.E(q) == u.E(q);
  }

  lemma {:induction false} CountAtMost(x: Config, q: int)
    requires SoundAt(x) && q in x.g.alloc
    ensures Shaped(x.s) && x.s.E(q).count <= STUCK && (x.s.E(q).count < STUCK ==> x.s.E(q).count == Total(x, q))
  {
    assert OpenSound(0) && OpenHealthy(0);
    assert x.s.E(q) == x.s.E(q);
  }

  // With one operation a count follows the references, unless it sticks.
  lemma {:induction false} MakesCount(x: Config, a: Operation, y: Config, q: int)
    requires SoundAt(x) && Makes(x, a, y) && q in x.g.alloc && q in y.g.alloc
    ensures y.s.E(q).count ==
      if x.s.E(q).count == STUCK || Total(x, q) + Gain(a, q) >= STUCK then STUCK else Total(y, q)
  {
    MakesBound(x, a, y, q);
    MakesSound(x, a, y);
    CountAtMost(x, q);
    CountAtMost(y, q);
  }

  // There were, or were about to be, 128 references to q at once.
  ghost predicate Filled(run: seq<Config>, operations: seq<Operation>, n: nat, q: int)
    requires n <= |operations| < |run|
  {
    exists k :: 0 <= k < n && Total(run[k], q) + Gain(operations[k], q) >= STUCK
  }

  // Over every run, the count of an object that stays allocated is its references, until there are 128
  // at once; from then on it is stuck.
  lemma {:induction false} CountFollows(run: seq<Config>, operations: seq<Operation>, n: nat, q: int)
    requires Run(run, operations) && n < |run| && forall k {:trigger run[k]} :: 0 <= k <= n ==> q in run[k].g.alloc
    ensures run[n].s.E(q).count ==
      if run[0].s.E(q).count == STUCK || Filled(run, operations, n, q) then STUCK else Total(run[n], q)
  {
    if n == 0 {
      CountAtMost(run[0], q);
    } else {
      var k := n - 1;
      CountFollows(run, operations, k, q);
      assert q in run[k].g.alloc && q in run[n].g.alloc;
      StepCount(run, operations, k, q);
      FilledNext(run, operations, k, q);
    }
  }

  lemma {:induction false} StepCount(run: seq<Config>, operations: seq<Operation>, k: nat, q: int)
    requires Run(run, operations) && k < |operations| && q in run[k].g.alloc && q in run[k + 1].g.alloc
    ensures run[k + 1].s.E(q).count ==
      if run[k].s.E(q).count == STUCK || Total(run[k], q) + Gain(operations[k], q) >= STUCK then STUCK
      else Total(run[k + 1], q)
  {
    RunStaysSound(run, operations, k);
    assert Makes(run[k], operations[k], run[k + 1]);
    MakesCount(run[k], operations[k], run[k + 1], q);
  }

  lemma {:induction false} FilledNext(run: seq<Config>, operations: seq<Operation>, k: nat, q: int)
    requires k < |operations| < |run|
    ensures Filled(run, operations, k + 1, q) <==>
      Filled(run, operations, k, q) || Total(run[k], q) + Gain(operations[k], q) >= STUCK
  {
  }
}
