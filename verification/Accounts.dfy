// The free-word and free-entry counters against the layout.
module Accounts {
  import opened Words
  import opened Memory
  import opened RefCounts
  import opened Layouts
  import opened Freeing
  import opened StorePointers
  import opened Abandoning
  import opened Compaction
  import opened ChunkAllocation

  const HEAP_ROOM := HEAP_SEGMENT_COUNT * (HEAP_SPACE_STOP + 1)
  const OOP_COUNT := OBJECT_TABLE_SIZE / 2 - 1

  // What is not allocated is free: the words of all segments, and the entries of the table.
  ghost predicate Accounted(s: State, g: Layout) {
    g.alloc <= g.len.Keys && s.freeWords + TotalLength(g.len, g.alloc) == HEAP_ROOM &&
      s.freeOops + |g.alloc| == OOP_COUNT
  }

  predicate Between(low: int, x: int, high: int) {
    low <= x < high
  }

  ghost function Range(low: int, high: int): set<int> {
    set x | low <= x < high && Between(low, x, high)
  }

  lemma {:induction false} RangeSize(low: int, high: int)
    requires low <= high
    ensures |Range(low, high)| == high - low
    decreases high - low
  {
    if low < high {
      RangeSize(low, high - 1);
      assert Range(low, high) == Range(low, high - 1) + {high - 1};
    } else {
      assert Range(low, high) == {};
    }
  }

  ghost predicate Splits(a: set<int>, b: set<int>, c: set<int>, x: int) {
    (x in c <==> x in a || x in b) && !(x in a && x in b)
  }

  lemma {:induction false} SizeOfSplit(a: set<int>, b: set<int>, c: set<int>)
    requires forall x :: Splits(a, b, c, x)
    ensures |c| == |a| + |b|
  {
    forall x: int
      ensures x in c <==> x in a + b
      ensures x !in a * b
    {
      assert Splits(a, b, c, x);
    }
    assert c == a + b && a * b == {};
  }

  // The object space of all segments laid end to end: where p's chunk starts there.
  ghost function Base(s: State, p: int): int {
    s.E(p).segment * (HEAP_SPACE_STOP + 1) + s.E(p).location
  }

  ghost predicate Covers(s: State, g: Layout, p: int, x: int) {
    p in g.len && Base(s, p) <= x < Base(s, p) + g.len[p]
  }

  ghost function Cells(s: State, g: Layout, A: set<int>): set<int> {
    set x | 0 <= x < HEAP_ROOM && InCells(s, g, A, x)
  }

  ghost predicate InCells(s: State, g: Layout, A: set<int>, x: int) {
    exists p :: p in A && Covers(s, g, p, x)
  }

  lemma {:induction false} CoversOnce(s: State, g: Layout, p: int, q: int, x: int)
    requires Chunks(s, g) && Covers(s, g, p, x) && Covers(s, g, q, x)
    ensures p == q && 0 <= x < HEAP_ROOM
  {
    assert Placed(s, p, g.len[p]) && Placed(s, q, g.len[q]);
    assert p == q || Separate(s, p, g.len[p], q, g.len[q]);
  }

  lemma {:induction false} CellOfOne(s: State, g: Layout, A: set<int>, p: int, x: int)
    requires Chunks(s, g) && A <= g.len.Keys && p in A
    ensures Splits(Cells(s, g, A - {p}), Range(Base(s, p), Base(s, p) + g.len[p]), Cells(s, g, A), x)
  {
    if Covers(s, g, p, x) {
      CoversOnce(s, g, p, p, x);
      forall q | q in A && Covers(s, g, q, x)
        ensures q == p
      {
        CoversOnce(s, g, p, q, x);
      }
      assert Between(Base(s, p), x, Base(s, p) + g.len[p]);
      assert InCells(s, g, A, x);
    }
  }

  // Disjoint chunks take up as many cells as their lengths sum to.
  lemma {:induction false} CellsCounted(s: State, g: Layout, A: set<int>)
    requires Chunks(s, g) && A <= g.len.Keys
    ensures |Cells(s, g, A)| == TotalLength(g.len, A)
    decreases |A|
  {
    if A == {} {
      assert Cells(s, g, A) == {};
    } else {
      var p := Pick(A);
      var own := Range(Base(s, p), Base(s, p) + g.len[p]);
      CellsCounted(s, g, A - {p});
      RangeSize(Base(s, p), Base(s, p) + g.len[p]);
      var others, all := Cells(s, g, A - {p}), Cells(s, g, A);
      forall x
        ensures Splits(others, own, all, x)
      {
        CellOfOne(s, g, A, p, x);
      }
      SizeOfSplit(others, own, all);
    }
  }

  // Any chunks fit the room there is.
  lemma {:induction false} ChunksFit(s: State, g: Layout, A: set<int>)
    requires Chunks(s, g) && A <= g.len.Keys
    ensures TotalLength(g.len, A) <= HEAP_ROOM
  {
    CellsCounted(s, g, A);
    RangeSize(0, HEAP_ROOM);
    SubsetSize(Cells(s, g, A), Range(0, HEAP_ROOM));
  }

  lemma {:induction false} TotalSame(len: map<int, nat>, len': map<int, nat>, A: set<int>)
    requires A <= len.Keys && A <= len'.Keys && forall p {:trigger p in A} :: p in A ==> len'[p] == len[p]
    ensures TotalLength(len', A) == TotalLength(len, A)
    decreases |A|
  {
    if A != {} {
      TotalSame(len, len', A - {Pick(A)});
    }
  }

  ghost function EvenTo(n: nat): set<int> {
    set p | 2 <= p < 2 * n + 2 && p % 2 == 0
  }

  lemma {:induction false} EvenToSize(n: nat)
    ensures |EvenTo(n)| == n
  {
    if n > 0 {
      EvenToSize(n - 1);
      assert EvenTo(n) == EvenTo(n - 1) + {2 * n};
    } else {
      assert EvenTo(0) == {};
    }
  }

  lemma {:induction false} ElementsSize(order: seq<int>)
    requires forall i, j :: 0 <= i < j < |order| ==> order[i] != order[j]
    ensures |Elements(order)| == |order|
    decreases |order|
  {
    if order != [] {
      var n := |order| - 1;
      ElementsSize(order[..n]);
      assert order == order[..n] + [order[n]];
      assert Elements(order) == Elements(order[..n]) + {order[n]};
    }
  }

  lemma {:induction false} EntryOnce(s: State, g: Layout, p: int)
    requires LaidOut(s, g)
    ensures Oop(p) <==> p in g.frees || p in g.len
    ensures !(p in g.frees && p in g.len)
  {
    assert OpenLayout(0);
    if p in g.len {
      assert Placed(s, p, g.len[p]);
    }
    if p in g.frees {
      var i :| 0 <= i < |g.frees| && g.frees[i] == p;
      assert Oop(g.frees[i]);
    }
  }

  // Every entry of the table is on the free-pointer list or has a chunk.
  lemma {:induction false} EntriesCounted(s: State, g: Layout)
    requires LaidOut(s, g)
    ensures |g.frees| + |g.len.Keys| == OOP_COUNT
  {
    assert |Elements(g.frees)| == |g.frees| by {
      assert OpenLayout(0);
      ElementsSize(g.frees);
    }
    EvenToSize(OOP_COUNT);
    forall p
      ensures Splits(Elements(g.frees), g.len.Keys, EvenTo(OOP_COUNT), p)
    {
      EntryOnce(s, g, p);
    }
    SizeOfSplit(Elements(g.frees), g.len.Keys, EvenTo(OOP_COUNT));
  }

  // freeOops is the number of free entries and free chunks.
  lemma {:induction false} FreeOopsCounted(s: State, g: Layout)
    requires LaidOut(s, g) && Accounted(s, g)
    ensures s.freeOops == |g.frees| + |g.len.Keys - g.alloc|
  {
    EntriesCounted(s, g);
    assert g.len.Keys == g.alloc + (g.len.Keys - g.alloc);
  }

  // freeWords is the room that no allocated object's chunk covers.
  lemma {:induction false} FreeWordsCounted(s: State, g: Layout)
    requires LaidOut(s, g) && Accounted(s, g)
    ensures s.freeWords == |Range(0, HEAP_ROOM) - Cells(s, g, g.alloc)|
  {
    assert Chunks(s, g) by {
      assert OpenLayout(0);
    }
    CellsCounted(s, g, g.alloc);
    RangeSize(0, HEAP_ROOM);
    assert Range(0, HEAP_ROOM) == Cells(s, g, g.alloc) + (Range(0, HEAP_ROOM) - Cells(s, g, g.alloc));
  }

  // Compaction leaves the accounts alone.
  lemma {:induction false} CarriedAccounted(s: State, g: Layout, t: State, h: Layout)
    requires Accounted(s, g) && AllCarried(s, g, t, h) && h.alloc <= h.len.Keys
    ensures Accounted(t, h)
  {
    forall p | p in g.alloc
      ensures h.len[p] == g.len[p]
    {
      assert Carried(s, g, t, h, p);
    }
    TotalSame(g.len, h.len, g.alloc);
  }

  // nil is allocated, and its count is stuck.
  ghost predicate NilStuck(s: State, A: set<int>) {
    NIL_POINTER in A && s.E(NIL_POINTER).count == STUCK
  }

  ghost predicate RegistersIn(ext: multiset<int>, A: set<int>) {
    forall q {:trigger ext[q]} :: ext[q] > 0 ==> q in A
  }

  // What every operation keeps: counts exact for the registers `ext`, the segments tiled, the lists
  // and the counters right.
  ghost predicate Sound(s: State, g: Layout, ext: multiset<int>) {
    forall k {:trigger OpenSound(k)} :: OpenSound(k) ==>
      Healthy(s, g, ext) && Tiled(s, g) && Accounted(s, g) && ClassesAreObjects(s, g) && NilStuck(s, g.alloc) &&
      RegistersIn(ext, g.alloc) && 0 <= s.currentSegment < HEAP_SEGMENT_COUNT
  }

  ghost predicate OpenSound(k: int) {
    true
  }

  lemma {:induction false} SoundReady(s: State, g: Layout, ext: multiset<int>)
    requires Sound(s, g, ext)
    ensures LaidOut(s, g) && Tiled(s, g) && ClassesAreObjects(s, g) && NIL_POINTER in g.alloc && Accounted(s, g)
    ensures 0 <= s.currentSegment < HEAP_SEGMENT_COUNT
  {
    assert OpenSound(0) && OpenHealthy(0);
  }

  lemma {:induction false} SoundRegisters(s: State, g: Layout, ext: multiset<int>)
    requires Sound(s, g, ext)
    ensures RegistersIn(ext, g.alloc)
  {
    assert OpenSound(0);
  }

  // Tiling is about entries and lengths only.
  lemma {:induction false} TiledSame(s: State, g: Layout, t: State, g': Layout)
    requires Tiled(s, g) && g'.len == g.len && forall p {:trigger t.E(p)} :: t.E(p) == s.E(p).(count := t.E(p).count)
    ensures Tiled(t, g')
  {
    forall segment, w | 0 <= segment < HEAP_SEGMENT_COUNT && 0 <= w < HEAP_SPACE_STOP
      ensures InChunk(t, g', segment, w)
    {
      assert InChunk(s, g, segment, w);
      var p :| p in g.len && s.E(p).segment == segment && s.E(p).location <= w < s.E(p).location + g.len[p];
      assert t.E(p) == s.E(p).(count := t.E(p).count);
    }
  }

  // A reference put in a register.
  lemma {:induction false} SoundCountUp(s: State, g: Layout, ext: multiset<int>, v: int)
    requires Sound(s, g, ext) && (IsInteger(v) || v in g.alloc)
    ensures Sound(CountedUp(s, v), g, Register(ext, v))
  {
    assert OpenSound(0) && OpenHealthy(0);
    var t := CountedUp(s, v);
    CountUpKeeps(s, g, ext, v);
    forall q
      ensures t.E(q) == s.E(q).(count := t.E(q).count) && (s.E(q).count == STUCK ==> t.E(q).count == STUCK) &&
        ClassOf(t, q) == ClassOf(s, q)
    {
      CountUpSame(s, v, q);
      assert ClassOf(t, q) == WordOf(t, q, 1);
    }
    TiledSame(s, g, t, g);
    assert Shaped(t);
    assert Healthy(t, g, Register(ext, v));
  }

  // Compaction.
  lemma {:induction false} SoundUnseen(s: State, g: Layout, ext: multiset<int>, t: State, h: Layout)
    requires Sound(s, g, ext) && Unseen(s, g, t, h) && 0 <= t.currentSegment < HEAP_SEGMENT_COUNT
    ensures Sound(t, h, ext) && h.alloc == g.alloc
  {
    SoundReady(s, g, ext);
    UnseenReady(s, g, t, h);
    assert OpenSound(0) && OpenUnseen(0);
    UnseenHealthy(s, g, ext, t, h);
    assert h.alloc <= h.len.Keys by {
      AllocOops(t, h);
    }
    CarriedAccounted(s, g, t, h);
    assert Carried(s, g, t, h, NIL_POINTER);
  }
}
