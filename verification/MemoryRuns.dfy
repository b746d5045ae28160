// Runs of the memory between collections.
module MemoryRuns {
  import opened Words
  import opened Memory
  import opened Traversal
  import opened RefCounts
  import opened Layouts
  import opened Freeing
  import opened StorePointers
  import opened Compaction
  import opened Accounts
  import opened ObjectAllocation
  import opened Soundness
  import CollectingAllocation

  // A memory, its layout, and the registers that are counted.
  datatype Config = Config(s: State, g: Layout, ext: multiset<int>)

  datatype Operation =
    | Refer(v: int)
    | Release(p: int)
    | Store(p: int, i: int, v: int)
    | Compact(segment: int)
    | Allocate(p: int, size: Word, odd: Bit, pointer: Bit, class_: Word)

  // Each operation, as its contract has it.
  ghost predicate Makes(x: Config, a: Operation, y: Config) {
    match a
    case Refer(v) => (IsInteger(v) || v in x.g.alloc) && y == Config(CountedUp(x.s, v), x.g, Register(x.ext, v))
    case Release(p) =>
      x.ext[p] > 0 && y.ext == x.ext - multiset{p} &&
      exists order :: Freed(x.s, x.g, Drop(y.ext, NO_HOLE, {}), y.s, y.g, order)
    case Store(p, i, v) =>
      p in x.g.alloc && PointerField(x.s, p, i) && y.ext == x.ext && Balanced(x.s, x.g, y.s, y.g) &&
      RegistersKept(x.g, y.g, x.ext) && CountsDrop(CountedUp(x.s, v), y.s, y.g.alloc) &&
      exists order :: Stored(x.s, x.g, x.ext, y.s, y.g, order, p, i, v)
    case Compact(segment) => y.ext == x.ext && Compacted(x.s, x.g, segment, y.s, y.g)
    case Allocate(p, size, odd, pointer, class_) =>
      y.ext == x.ext && class_ in x.g.alloc && !IsInteger(class_) &&
      exists u, h :: Allotted(x.s, x.g, u, h, p, size, odd, pointer, class_, y.s) && y.g == WithObject(h, p)
  }

  ghost predicate SoundAt(x: Config) {
    Sound(x.s, x.g, x.ext)
  }

  ghost predicate Run(run: seq<Config>, operations: seq<Operation>) {
    |run| == |operations| + 1 && SoundAt(run[0]) && forall k {:trigger operations[k]} :: 0 <= k < |operations| ==>
      Makes(run[k], operations[k], run[k + 1])
  }

  lemma {:induction false} MakesSound(x: Config, a: Operation, y: Config)
    requires SoundAt(x) && Makes(x, a, y)
    ensures SoundAt(y)
  {
    match a
    case Refer(v) => SoundCountUp(x.s, x.g, x.ext, v);
    case Release(p) =>
      var order :| Freed(x.s, x.g, Drop(y.ext, NO_HOLE, {}), y.s, y.g, order);
      SoundFreed(x.s, x.g, x.ext, Drop(y.ext, NO_HOLE, {}), y.s, y.g, order);
    case Store(p, i, v) =>
      var order :| Stored(x.s, x.g, x.ext, y.s, y.g, order, p, i, v);
      SoundStored(x.s, x.g, x.ext, y.s, y.g, order, p, i, v);
    case Compact(segment) => SoundCompacted(x.s, x.g, x.ext, segment, y.s, y.g);
    case Allocate(p, size, odd, pointer, class_) =>
      var u, h :| Allotted(x.s, x.g, u, h, p, size, odd, pointer, class_, y.s) && y.g == WithObject(h, p);
      SoundCountUp(x.s, x.g, x.ext, class_);
      SoundRegisters(x.s, x.g, x.ext);
      AllocatedSound(CountedUp(x.s, class_), x.g, x.ext, u, h, p, size, odd, pointer, class_, y.s);
  }

  // The memory is sound all along.
  lemma {:induction false} RunStaysSound(run: seq<Config>, operations: seq<Operation>, n: nat)
    requires Run(run, operations) && n < |run|
    ensures SoundAt(run[n])
  {
    if n > 0 {
      var k := n - 1;
      RunStaysSound(run, operations, k);
      assert Makes(run[k], operations[k], run[k + 1]);
      MakesSound(run[k], operations[k], run[n]);
    }
  }

  // What a register or an object refers to is allocated, at any time.
  lemma {:induction false} NeverDangling(run: seq<Config>, operations: seq<Operation>, n: nat, q: int, i: int, p: int)
    requires Run(run, operations) && n < |run|
    requires run[n].ext[p] > 0 || (q in run[n].g.alloc && PointsTo(run[n].s, q, i, p))
    ensures p in run[n].g.alloc
  {
    RunStaysSound(run, operations, n);
    assert OpenSound(0) && OpenHealthy(0);
  }

  // What one operation leaves of p, which is still allocated.
  ghost predicate Remains(x: Config, a: Operation, y: Config, p: int) {
    SizeOf(y.s, p) == SizeOf(x.s, p) && y.s.E(p) == x.s.E(p).(location := y.s.E(p).location, count := y.s.E(p).count) &&
    forall i {:trigger WordOf(y.s, p, i)} :: 0 <= i < SizeOf(x.s, p) ==>
      WordOf(y.s, p, i) == Written(a, p, i, WordOf(x.s, p, i))
  }

  function Written(a: Operation, p: int, i: int, w: int): int {
    if a.Store? && a.p == p && a.i == i then a.v else w
  }

  lemma {:induction false} AllocSize(x: Config, p: int)
    requires SoundAt(x) && p in x.g.alloc
    ensures p in x.g.len && HEADER_SIZE <= SizeOf(x.s, p) <= x.g.len[p] && SizeOf(x.s, p) == WordOf(x.s, p, 0)
  {
    SoundReady(x.s, x.g, x.ext);
    assert Sized(x.s, p, x.g.len[p]) by {
      assert OpenLayout(0);
    }
  }

  lemma {:induction false} ReleaseRemains(x: Config, a: Operation, y: Config, p: int, d: Drop, order: seq<int>)
    requires SoundAt(x) && p in x.g.alloc && p in y.g.alloc && Freed(x.s, x.g, d, y.s, y.g, order) && !a.Store?
    ensures Remains(x, a, y, p)
  {
    AllocSize(x, p);
    assert OpenFreed(0);
    assert WordOf(y.s, p, 0) == WordOf(x.s, p, 0);
  }

  lemma {:induction false} StoreRemains(x: Config, a: Operation, y: Config, p: int, order: seq<int>)
    requires SoundAt(x) && p in x.g.alloc && p in y.g.alloc && a.Store? && HEADER_SIZE <= a.i
    requires Stored(x.s, x.g, x.ext, y.s, y.g, order, a.p, a.i, a.v) && Balanced(x.s, x.g, y.s, y.g)
    ensures Remains(x, a, y, p)
  {
    AllocSize(x, p);
    assert WordOf(y.s, p, 0) == WordOf(x.s, p, 0);
    assert y.s.E(p) == x.s.E(p).(count := y.s.E(p).count);
  }

  lemma {:induction false} CompactRemains(x: Config, a: Operation, y: Config, p: int, segment: int)
    requires SoundAt(x) && p in x.g.alloc && Compacted(x.s, x.g, segment, y.s, y.g) && !a.Store?
    ensures Remains(x, a, y, p)
  {
    AllocSize(x, p);
    assert OpenSweep(0);
    assert Carried(x.s, x.g, y.s, y.g, p) by {
      assert y.s.E(p) == y.s.E(p);
    }
    assert WordOf(y.s, p, 0) == WordOf(x.s, p, 0);
  }

  lemma {:induction false} AllocateRemains(x: Config, a: Operation, y: Config, p: int, u: State, h: Layout)
    requires SoundAt(x) && p in x.g.alloc && a.Allocate? && a.class_ as int in x.g.alloc && !IsInteger(a.class_)
    requires Allotted(x.s, x.g, u, h, a.p, a.size, a.odd, a.pointer, a.class_, y.s)
    ensures Remains(x, a, y, p)
  {
    var t := CountedUp(x.s, a.class_);
    ClassCounted(x.s, x.g, x.ext, a.class_);
    KeptOn(x.s, x.g, t, u, h, y.s, a.p, a.size, a.odd, a.pointer, a.class_);
    AllocSize(x, p);
    assert Kept(x.s, x.g, y.s, p);
    assert WordOf(y.s, p, 0) == WordOf(x.s, p, 0);
  }

  lemma {:induction false} MakesRemains(x: Config, a: Operation, y: Config, p: int)
    requires SoundAt(x) && Makes(x, a, y) && p in x.g.alloc && p in y.g.alloc
    ensures Remains(x, a, y, p)
  {
    match a
    case Refer(v) => CountUpSame(x.s, v, p);
    case Release(r) =>
      var order :| Freed(x.s, x.g, Drop(y.ext, NO_HOLE, {}), y.s, y.g, order);
      ReleaseRemains(x, a, y, p, Drop(y.ext, NO_HOLE, {}), order);
    case Store(r, i, v) =>
      var order :| Stored(x.s, x.g, x.ext, y.s, y.g, order, r, i, v);
      StoreRemains(x, a, y, p, order);
    case Compact(segment) => CompactRemains(x, a, y, p, segment);
    case Allocate(r, size, odd, pointer, class_) =>
      var u, h :| Allotted(x.s, x.g, u, h, r, size, odd, pointer, class_, y.s) && y.g == WithObject(h, r);
      AllocateRemains(x, a, y, p, u, h);
  }

  // What was stored last, of the first n operations, in field i of p; or w, if nothing was.
  function LastStored(operations: seq<Operation>, n: nat, p: int, i: int, w: int): int
    requires n <= |operations|
    decreases operations, n
  {
    if n == 0 then w else Written(operations[n - 1], p, i, LastStored(operations, n - 1, p, i, w))
  }

  // Moved or not, an object that stays allocated has the word that was stored last in each field.
  lemma {:induction false} FetchesLastStored(run: seq<Config>, operations: seq<Operation>, n: nat, p: int, i: int)
    requires Run(run, operations) && n < |run| && (forall k {:trigger run[k]} :: 0 <= k <= n ==> p in run[k].g.alloc)
    requires 0 <= i < SizeOf(run[0].s, p)
    ensures SizeOf(run[n].s, p) == SizeOf(run[0].s, p)
    ensures WordOf(run[n].s, p, i) == LastStored(operations, n, p, i, WordOf(run[0].s, p, i))
    ensures run[n].s.E(p) == run[0].s.E(p).(location := run[n].s.E(p).location, count := run[n].s.E(p).count)
  {
    if n > 0 {
      var k := n - 1;
      FetchesLastStored(run, operations, k, p, i);
      StepRemains(run, operations, k, p);
    }
  }

  lemma {:induction false} StepRemains(run: seq<Config>, operations: seq<Operation>, k: nat, p: int)
    requires Run(run, operations) && k < |operations| && p in run[k].g.alloc && p in run[k + 1].g.alloc
    ensures Remains(run[k], operations[k], run[k + 1], p)
  {
    RunStaysSound(run, operations, k);
    assert Makes(run[k], operations[k], run[k + 1]);
    MakesRemains(run[k], operations[k], run[k + 1], p);
  }

  // Every step of a run is what the operation does

  method Refers(om: ObjectMemory, v: Word, ghost x: Config) returns (ghost y: Config)
    requires om.Valid() && om.st == x.s && SoundAt(x) && (IsInteger(v) || v in x.g.alloc)
    modifies om`st, om.mem
    ensures om.Valid() && om.st == y.s && Makes(x, Refer(v), y)
  {
    IncreaseReferencesTo(om, v, x.g, x.ext);
    y := Config(om.st, x.g, Register(x.ext, v));
  }

  method Releases(om: ObjectMemory, p: Word, ghost x: Config) returns (ghost y: Config)
    requires om.Valid() && om.st == x.s && SoundAt(x) && !IsInteger(p) && x.ext[p] > 0
    modifies om`st, om`freeWords, om`freeOops, om.mem
    ensures om.Valid() && om.st == y.s && Makes(x, Release(p), y)
  {
    ghost var g', order := DecreaseReferencesTo(om, p, x.g, x.ext);
    y := Config(om.st, g', x.ext - multiset{p});
  }

  method Stores(om: ObjectMemory, p: Word, fieldIndex: nat, v: Word, ghost x: Config, ghost keep: set<int>)
    returns (ghost y: Config)
    requires om.Valid() && om.st == x.s && SoundAt(x) && p in x.g.alloc && (IsInteger(v) || v in x.g.alloc)
    requires PointerField(x.s, p, HEADER_SIZE + fieldIndex)
    requires KeptWithout(x.s, x.g, x.ext, p, HEADER_SIZE + fieldIndex, keep)
    modifies om`st, om`freeWords, om`freeOops, om.mem
    ensures om.Valid() && om.st == y.s && Makes(x, Store(p, HEADER_SIZE + fieldIndex, v), y) && keep <= y.g.alloc
  {
    CollectingAllocation.SoundHealthy(x.s, x.g, x.ext);
    ghost var g', order := StorePointer(om, fieldIndex, p, v, x.g, x.ext, keep);
    y := Config(om.st, g', x.ext);
  }

  method Compacts(om: ObjectMemory, ghost x: Config) returns (ghost y: Config)
    requires om.Valid() && om.st == x.s && SoundAt(x)
    modifies om`st, om.mem
    ensures om.Valid() && om.st == y.s && Makes(x, Compact(om.currentSegment), y)
  {
    SoundReady(x.s, x.g, x.ext);
    ghost var g' := CompactCurrentSegment(om, x.g);
    y := Config(om.st, g', x.ext);
  }

  // An allocation is a step unless it collects.
  method Allocates(om: ObjectMemory, size: Word, oddBit: Bit, pointerBit: Bit, extraWord: Bit, classPointer: Word,
                   roots: seq<Word>, activeContext: Word, newProcessWaiting: bool, newProcess: Word, ghost x: Config)
    returns (p: Word, ghost y: Config, ghost collected: bool)
    requires om.Valid() && om.st == x.s && SoundAt(x) && classPointer in x.g.alloc && !IsInteger(classPointer)
    requires HEADER_SIZE <= size && size + extraWord < 65536 && extraWord == ExtraWord(size, pointerBit)
    requires pointerBit == 1 || classPointer != CLASS_COMPILED_METHOD
    requires forall k :: 0 <= k < |roots| ==> roots[k] in x.g.alloc
    requires NIL_POINTER in roots && activeContext in roots && (newProcessWaiting ==> newProcess in roots)
    modifies om`st, om`currentSegment, om`freeWords, om`freeOops, om.mem
    ensures om.Valid() && om.st == y.s
    ensures !collected ==> Makes(x, Allocate(p, size, oddBit, pointerBit, classPointer), y)
  {
    ghost var h, c;
    p, h, c := CollectingAllocation.Allocate(om, size, oddBit, pointerBit, extraWord, classPointer, roots,
      activeContext, newProcessWaiting, newProcess, x.g, x.ext);
    collected := c.collected;
    y := Config(om.st, h, x.ext);
  }
}
