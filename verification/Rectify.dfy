// Rectifying the counts after the marking, and putting the garbage on the free lists.
module Rectify {
  import opened Words
  import opened Memory
  import opened Traversal
  import opened RefCounts
  import opened Layouts
  import opened Freeing
  import opened StorePointers
  import opened Allocation
  import opened Abandoning
  import opened Compaction

  // A free chunk whose pointer bit is still set from the large object it was.
  ghost predicate Stale(s: State, g: Layout, p: int) {
    p in g.len && p !in g.alloc && s.E(p).pointer == 1 && g.len[p] >= HUGE_SIZE
  }

  // Every stale chunk ends where only the spare word of its segment follows.
  ghost predicate Roomy(s: State, g: Layout) {
    forall p {:trigger Stale(s, g, p)} :: Stale(s, g, p) ==> s.E(p).location + g.len[p] == HEAP_SPACE_STOP
  }

  // The chunks of g, with the lengths that deallocating gives them.
  ghost function Grown(s: State, g: Layout): Layout {
    g.(len := map p | p in g.len :: if Stale(s, g, p) then g.len[p] + 1 else g.len[p])
  }

  lemma {:induction false} GrownChunks(s: State, g: Layout)
    requires LaidOut(s, g) && Roomy(s, g)
    ensures Chunks(s, Grown(s, g)) && Shaped(s)
  {
    var g' := Grown(s, g);
    assert Chunks(s, g) && Shaped(s) by {
      assert OpenLayout(0);
    }
    forall p | p in g'.len
      ensures Placed(s, p, g'.len[p])
    {
      assert Placed(s, p, g.len[p]);
    }
    forall p, q | p in g'.len && q in g'.len && p != q
      ensures Separate(s, p, g'.len[p], q, g'.len[q])
    {
      GrownSeparate(s, g, p, q);
    }
  }

  lemma {:induction false} GrownSeparate(s: State, g: Layout, p: int, q: int)
    requires Chunks(s, g) && Roomy(s, g) && p in g.len && q in g.len && p != q
    ensures Separate(s, p, Grown(s, g).len[p], q, Grown(s, g).len[q])
  {
    assert Placed(s, p, g.len[p]) && Placed(s, q, g.len[q]) && Separate(s, p, g.len[p], q, g.len[q]);
  }

  // Deallocating what is free already gives it its own size, unless it is stale: then its size
  // grows by a word that belongs to the next chunk.
  lemma {:induction false} FreedTwice(s: State, g: Layout, p: int)
    requires LaidOut(s, g) && p in g.len && p !in g.alloc
    ensures SizeOf(Deallocated(s, p), p) == g.len[p] <==> !Stale(s, g, p)
    ensures Stale(s, g, p) ==> SizeOf(Deallocated(s, p), p) == g.len[p] + 1
  {
    ChunkSpace(s, g, p);
    assert Shaped(s) && Chunks(s, g) by {
      assert OpenLayout(0);
    }
    DeallocatedWords(s, g, p);
  }

  lemma {:induction false} ChunkSpace(s: State, g: Layout, p: int)
    requires LaidOut(s, g) && p in g.len
    ensures Oop(p) && Placed(s, p, g.len[p]) && HEADER_SIZE <= Space(s, p) < 65536
    ensures Space(s, p) == if Stale(s, g, p) then g.len[p] + 1 else g.len[p]
  {
    assert Placed(s, p, g.len[p]) by {
      assert OpenLayout(0);
    }
    if p in g.alloc {
      assert Sized(s, p, g.len[p]) by {
        assert OpenLayout(0);
      }
    } else {
      ListedSize(s, g, p);
    }
  }

  // Freeing a large pointer object leaves a stale chunk.
  lemma {:induction false} FreeingLeavesStale(s: State, g: Layout, p: int)
    requires LaidOut(s, g) && p in g.alloc && s.E(p).count == 0
    ensures HeadFor(Space(s, p), s.E(p).segment) in g.lists
    ensures Stale(Deallocated(s, p), WithoutObject(s, g, p), p) <==> s.E(p).pointer == 1 && SizeOf(s, p) >= HUGE_SIZE
  {
    DeallocateLaidOut(s, g, p);
    AllocOops(s, g);
    assert Sized(s, p, g.len[p]) by {
      assert OpenLayout(0);
    }
    assert Deallocated(s, p).E(p) == s.E(p);
  }

  // Resetting the lists

  // The lists before (segment, size) are reset.
  ghost predicate ResetTo(s: State, t: State, segment: int, size: int) {
    SameSizes(s, t) && t.ot == s.ot && t.freeHead == s.freeHead &&
    forall a {:trigger At(t.words, a)} :: At(t.words, a) ==
      if IsHead(a) && (a / 65536 < segment || (a / 65536 == segment && ListSize(a) < size)) then NON_POINTER
        else At(s.words, a)
  }

  lemma {:induction false} ResetOne(s: State, t: State, segment: int, size: int, u: State)
    requires ResetTo(s, t, segment, size) && 0 <= segment < HEAP_SEGMENT_COUNT && HEADER_SIZE <= size <= BIG_SIZE &&
      |s.words| == HEAP_WORDS
    requires u == PutWord(t, HeadAddress(size, segment), NON_POINTER)
    ensures ResetTo(s, u, segment, size + 1)
  {
    var h := HeadAddress(size, segment);
    forall a
      ensures At(u.words, a) ==
        if IsHead(a) && (a / 65536 < segment || (a / 65536 == segment && ListSize(a) < size + 1)) then NON_POINTER
          else At(s.words, a)
    {
      if a != h {
        PutElsewhere(t.words, h, NON_POINTER, a);
        assert At(t.words, a) == At(u.words, a);
      }
    }
  }

  lemma {:induction false} ResetSegment(s: State, t: State, segment: int)
    requires ResetTo(s, t, segment, BIG_SIZE + 1)
    ensures ResetTo(s, t, segment + 1, HEADER_SIZE)
  {
  }

  method ResetFreeChunkLists(om: ObjectMemory)
    requires om.Valid()
    modifies om`st, om.mem
    ensures om.Valid() && ResetTo(old(om.st), om.st, HEAP_SEGMENT_COUNT, HEADER_SIZE)
  {
    ghost var s := om.st;
    for segment := 0 to HEAP_SEGMENT_COUNT
      invariant om.Valid() && ResetTo(s, om.st, segment, HEADER_SIZE)
    {
      for size := HEADER_SIZE to BIG_SIZE + 1
        invariant om.Valid() && ResetTo(s, om.st, segment, size)
      {
        ghost var t := om.st;
        om.HeadOfFreeChunkListPut(size, segment, NON_POINTER);
        ResetOne(s, t, segment, size, om.st);
      }
      ResetSegment(s, om.st, segment);
    }
  }

  // The tally of references

  // The places of the objects of M below `to`.
  ghost function PlacesTo(s: State, M: set<int>, to: int): set<(int, int)> {
    set q, i | q in M && q < to && 1 <= i < LastPointer(s, q) :: (q, i)
  }

  // The references to q that the pass meets before it comes to q itself.
  ghost function EarlyRefs(s: State, M: set<int>, q: int): nat {
    |Holders(s, PlacesTo(s, M, q), q)|
  }

  // What so many references make of a count: the mark counts as one until the pass has taken it off,
  // and what has stuck by then stays.
  function Tally(refs: nat, early: nat, passed: bool): int {
    if !passed then Min(refs + 1, STUCK) else if early >= STUCK - 1 then STUCK else Min(refs, STUCK)
  }

  // Every count of M tells its references from the places R, with the mark from `from` on.
  ghost predicate Tallied(s: State, M: set<int>, t: State, R: set<(int, int)>, from: int) {
    forall q {:trigger t.E(q)} :: q in M ==> t.E(q).count == Tally(|Holders(s, R, q)|, EarlyRefs(s, M, q), q < from)
  }

  // Counting the next place.
  lemma {:induction false} TallyPlace(s: State, M: set<int>, t: State, R: set<(int, int)>, from: int, x: (int, int))
    requires Tallied(s, M, t, R, from) && x !in R
    requires IsInteger(WordOf(s, x.0, x.1)) || (WordOf(s, x.0, x.1) in M && 0 <= WordOf(s, x.0, x.1) < |t.ot|)
    requires forall q {:trigger q in M} :: q in M ==> Oop(q)
    ensures Tallied(s, M, CountedUp(t, WordOf(s, x.0, x.1)), R + {x}, from)
  {
    var v := WordOf(s, x.0, x.1);
    var u := CountedUp(t, v);
    assert R + {x} - {x} == R;
    forall q | q in M
      ensures u.E(q).count == Tally(|Holders(s, R + {x}, q)|, EarlyRefs(s, M, q), q < from)
    {
      HoldersWithout(s, R + {x}, x, q);
      CountUpSame(t, v, q);
      assert t.E(q) == t.E(q);
    }
  }

  // Taking the mark off.
  lemma {:induction false} TallyMark(s: State, M: set<int>, t: State, R: set<(int, int)>, from: int, u: State)
    requires Tallied(s, M, t, R, from) && from % 2 == 0 && R == PlacesTo(s, M, from)
    requires forall q {:trigger q in M} :: q in M ==> Oop(q)
    requires forall q {:trigger u.E(q)} ::
      u.E(q) == if q == from && t.E(q).count < STUCK && q in M then t.E(q).(count := AsByte(t.E(q).count - 1))
        else t.E(q)
    ensures Tallied(s, M, u, R, from + 2)
  {
    forall q | q in M
      ensures u.E(q).count == Tally(|Holders(s, R, q)|, EarlyRefs(s, M, q), q < from + 2)
    {
      assert t.E(q) == t.E(q);
    }
  }

  // An entry that is not to be kept.
  lemma {:induction false} TallySkip(s: State, M: set<int>, t: State, R: set<(int, int)>, p: int, u: State)
    requires Tallied(s, M, t, R, p) && p !in M && Oop(p) && u.ot == t.ot && forall q {:trigger q in M} :: q in M ==>
      Oop(q)
    ensures Tallied(s, M, u, R, p + 2)
  {
    forall q | q in M
      ensures u.E(q).count == Tally(|Holders(s, R, q)|, EarlyRefs(s, M, q), q < p + 2)
    {
      assert t.E(q) == u.E(q);
    }
  }

  function AsByte(n: int): Byte {
    if 0 <= n < 256 then n else 0
  }

  // The pass over the table

  // The objects to keep are those of M, and they point only to each other.
  ghost predicate MarksSet(s: State, g: Layout, M: set<int>) {
    LaidOut(s, g) && M <= g.alloc && Closed(s, M, NO_HOLE) &&
    forall q {:trigger s.E(q)} :: q in g.len ==> s.E(q).count == if q in M then 1 else 0
  }

  // The chunks not given to a list yet: those kept, and those from `from` on.
  ghost function Unlisted(g: Layout, M: set<int>, from: int): set<int> {
    set q | q in g.len && (q in M || q >= from)
  }

  ghost function DeadTo(g: Layout, M: set<int>, from: int): set<int> {
    set q | q in g.len && q !in M && q < from
  }

  // The pass has reached entry `from`, and has counted the places R; s is the memory after the marking.
  ghost predicate Passing(s: State, g: Layout, M: set<int>, from: int, t: State, h: Layout, R: set<(int, int)>) {
    forall k {:trigger OpenPass(k)} :: OpenPass(k) ==> PassingUnfolded(s, g, M, from, t, h, R)
  }

  ghost predicate OpenPass(k: int) {
    true
  }

  ghost predicate PassingUnfolded(s: State, g: Layout, M: set<int>, from: int, t: State, h: Layout,
                                  R: set<(int, int)>) {
    |t.words| == |s.words| && |t.ot| == |s.ot| && t.freeHead == s.freeHead && t.currentSegment == s.currentSegment &&
    (forall q {:trigger t.E(q)} :: t.E(q) == s.E(q).(count := t.E(q).count)) &&
    Tallied(s, M, t, R, from) &&
    DeadSizes(s, g, M, from, t) && LiveWords(s, g, M, t) &&
    t.freeWords == s.freeWords + TotalLength(Grown(s, g).len, DeadTo(g, M, from)) &&
    (Roomy(s, g) ==> Listing(s, g, M, from, t, h))
  }

  // The sizes of the unmarked chunks passed are those that deallocate puts.
  ghost predicate DeadSizes(s: State, g: Layout, M: set<int>, from: int, t: State) {
    forall q {:trigger q in g.len} :: q in g.len && q !in M ==>
      t.E(q).count == 0 && SizeOf(t, q) == if q < from then AsWord(Space(s, q)) else SizeOf(s, q)
  }

  ghost predicate LiveWords(s: State, g: Layout, M: set<int>, t: State) {
    forall q, i {:trigger WordOf(t, q, i)} :: q in M && 0 <= i < LenOf(g, q) ==> WordOf(t, q, i) == WordOf(s, q, i)
  }

  // u is t but for counts of kept objects.
  ghost predicate CountsOnly(M: set<int>, t: State, u: State) {
    u.words == t.words && |u.ot| == |t.ot| && u.freeHead == t.freeHead && u.currentSegment == t.currentSegment &&
      u.freeWords == t.freeWords &&
    forall q {:trigger u.E(q)} :: u.E(q) == t.E(q).(count := u.E(q).count) && (q !in M ==> u.E(q) == t.E(q))
  }

  lemma {:induction false} CountsDead(s: State, g: Layout, M: set<int>, from: int, from': int, t: State, u: State)
    requires DeadSizes(s, g, M, from, t) && CountsOnly(M, t, u)
    requires forall q {:trigger q in g.len} :: q in g.len && q !in M ==> (q < from <==> q < from')
    ensures DeadSizes(s, g, M, from', u)
  {
    forall q | q in g.len && q !in M
      ensures u.E(q).count == 0 && SizeOf(u, q) == if q < from' then AsWord(Space(s, q)) else SizeOf(s, q)
    {
      assert u.E(q) == t.E(q);
    }
  }

  lemma {:induction false} CountsLive(s: State, g: Layout, M: set<int>, t: State, u: State)
    requires LiveWords(s, g, M, t) && CountsOnly(M, t, u)
    ensures LiveWords(s, g, M, u)
  {
    forall q, i | q in M && 0 <= i < LenOf(g, q)
      ensures WordOf(u, q, i) == WordOf(s, q, i)
    {
      assert WordOf(t, q, i) == WordOf(s, q, i);
      assert u.E(q) == t.E(q).(count := u.E(q).count);
    }
  }

  lemma {:induction false} CountsListing(s: State, g: Layout, M: set<int>, from: int, from': int, t: State, h: Layout,
                                         u: State)
    requires Listing(s, g, M, from, t, h) && CountsOnly(M, t, u) && M <= g.alloc <= g.len.Keys
    requires forall q {:trigger q in g.len} :: q in g.len && q !in M ==> (q < from <==> q < from')
    ensures Listing(s, g, M, from', u, h)
  {
    ListsSame(t, u, h);
    assert Unlisted(g, M, from) == Unlisted(g, M, from');
  }

  lemma {:induction false} CountsPass(s: State, g: Layout, M: set<int>, from: int, from': int, t: State, h: Layout,
                                      R: set<(int, int)>, u: State, R': set<(int, int)>)
    requires MarksSet(s, g, M) && Passing(s, g, M, from, t, h, R) && CountsOnly(M, t, u) && Tallied(s, M, u, R', from')
    requires forall q {:trigger q in g.len} :: q in g.len && q !in M ==> (q < from <==> q < from')
    ensures Passing(s, g, M, from', u, h, R')
  {
    assert OpenPass(0);
    forall q
      ensures u.E(q) == s.E(q).(count := u.E(q).count)
    {
      assert t.E(q) == s.E(q).(count := t.E(q).count);
      assert u.E(q) == t.E(q).(count := u.E(q).count);
    }
    CountsDead(s, g, M, from, from', t, u);
    CountsLive(s, g, M, t, u);
    assert DeadTo(g, M, from) == DeadTo(g, M, from');
    if Roomy(s, g) {
      AllocOops(s, g);
      CountsListing(s, g, M, from, from', t, h, u);
    }
  }

  ghost predicate Listing(s: State, g: Layout, M: set<int>, from: int, t: State, h: Layout) {
    h == Grown(s, g).(alloc := Unlisted(g, M, from), lists := h.lists) && Lists(t, h) && AllListed(h, {})
  }

  // No chunk is on a list.
  ghost function EmptyLists(g: Layout): Layout {
    g.(alloc := g.len.Keys, lists := map a | a in g.lists :: [])
  }

  lemma {:induction false} PassBegins(s: State, g: Layout, M: set<int>, t: State)
    requires MarksSet(s, g, M) && ResetTo(s, t, HEAP_SEGMENT_COUNT, HEADER_SIZE)
    ensures Passing(s, g, M, 2, t, EmptyLists(Grown(s, g)), {})
  {
    forall q, i | q in g.len && 0 <= i < g.len[q]
      ensures WordOf(t, q, i) == WordOf(s, q, i)
    {
      PlacedAt(s, g, q, i);
    }
    forall q | q in g.len
      ensures s.E(q).count == (if q in M then 1 else 0) && Oop(q) && SizeOf(t, q) == SizeOf(s, q)
    {
      assert s.E(q) == s.E(q);
      ChunkSpace(s, g, q);
      assert WordOf(t, q, 0) == WordOf(s, q, 0);
    }
    assert forall q :: t.E(q) == s.E(q);
    assert M <= g.len.Keys by {
      AllocOops(s, g);
    }
    assert Holders(s, {}, 0) == {};
    assert forall q :: Holders(s, {}, q) == {};
    assert Unlisted(g, M, 2) == g.len.Keys && DeadTo(g, M, 2) == {};
    ResetLinked(s, g, t);
  }

  lemma {:induction false} ResetLinked(s: State, g: Layout, t: State)
    requires LaidOut(s, g) && ResetTo(s, t, HEAP_SEGMENT_COUNT, HEADER_SIZE)
    ensures Lists(t, EmptyLists(Grown(s, g))) && AllListed(EmptyLists(Grown(s, g)), {})
  {
    assert OpenLayout(0);
    forall a | a in g.lists
      ensures Linked(t, a, [])
    {
      assert IsHead(a);
    }
  }

  // What the pass reads of entry p.
  lemma {:induction false} PassReads(s: State, g: Layout, M: set<int>, t: State, h: Layout, R: set<(int, int)>, p: int)
    requires MarksSet(s, g, M) && Passing(s, g, M, p, t, h, R) && Oop(p)
    ensures t.E(p).free == 0 <==> p in g.len
    ensures p in g.len ==> (t.E(p).count == 0 <==> p !in M) && InHeap(t.E(p), 2) && t.E(p).location <= HEAP_SPACE_STOP
    ensures p in g.len && p !in M ==> Space(t, p) == Space(s, p) && HEADER_SIZE <= Space(s, p) < 65536
    ensures p in M ==> p in g.len && t.E(p).count <= STUCK
  {
    assert t.E(p) == s.E(p).(count := t.E(p).count) && Tallied(s, M, t, R, p) && DeadSizes(s, g, M, p, t) by {
      assert OpenPass(0);
    }
    AllocOops(s, g);
    assert s.E(p).free == 0 <==> p in g.len by {
      assert OpenLayout(0);
      if p in g.len {
        assert Placed(s, p, g.len[p]);
      }
    }
    if p in g.len {
      ChunkSpace(s, g, p);
      assert p !in M ==> SizeOf(t, p) == SizeOf(s, p);
    }
  }

  lemma {:induction false} PassPointers(s: State, g: Layout, M: set<int>, from: int, t: State, h: Layout,
                                        R: set<(int, int)>, p: int)
    requires MarksSet(s, g, M) && Passing(s, g, M, from, t, h, R) && p in M
    ensures p in g.len && LastPointer(t, p) == LastPointer(s, p) <= g.len[p] &&
      t.E(p).location + g.len[p] <= SEGMENT_SIZE && InHeap(t.E(p), 2)
    ensures forall i {:trigger WordOf(t, p, i)} :: 0 <= i < g.len[p] ==> WordOf(t, p, i) == WordOf(s, p, i)
  {
    assert t.E(p) == s.E(p).(count := t.E(p).count) && LiveWords(s, g, M, t) by {
      assert OpenPass(0);
    }
    AllocOops(s, g);
    ChunkSpace(s, g, p);
    assert Sized(s, p, g.len[p]) by {
      assert OpenLayout(0);
    }
    assert LenOf(g, p) == g.len[p];
    forall i | 0 <= i < g.len[p]
      ensures WordOf(t, p, i) == WordOf(s, p, i)
    {
    }
    SameSize(s, t, p, g.len[p]);
  }

  lemma {:induction false} ClosedPoints(s: State, M: set<int>, p: int, i: int)
    requires Closed(s, M, NO_HOLE) && p in M && 1 <= i < LastPointer(s, p)
    ensures IsInteger(WordOf(s, p, i)) || WordOf(s, p, i) in M
  {
    var v := WordOf(s, p, i);
    if !IsInteger(v) {
      assert PointsTo(s, p, i, v);
    }
  }

  // Counting one place of p.
  lemma {:induction false} PassCounts(s: State, g: Layout, M: set<int>, from: int, t: State, h: Layout,
                                      R: set<(int, int)>, p: int, i: int)
    requires MarksSet(s, g, M) && Passing(s, g, M, from, t, h, R) && p in M && 1 <= i < LastPointer(s, p) &&
      (p, i) !in R
    ensures Passing(s, g, M, from, CountedUp(t, WordOf(s, p, i)), h, R + {(p, i)})
    ensures !IsInteger(WordOf(s, p, i)) ==> InTable(WordOf(s, p, i))
  {
    var v := WordOf(s, p, i);
    var u := CountedUp(t, v);
    ClosedPoints(s, M, p, i);
    AllocOops(s, g);
    assert |t.ot| == OBJECT_TABLE_SIZE && Tallied(s, M, t, R, from) by {
      assert OpenLayout(0) && OpenPass(0);
    }
    TallyPlace(s, M, t, R, from, (p, i));
    forall q
      ensures u.E(q) == t.E(q).(count := u.E(q).count) && (q !in M ==> u.E(q) == t.E(q))
    {
      CountUpSame(t, v, q);
    }
    CountsPass(s, g, M, from, from, t, h, R, u, R + {(p, i)});
  }

  // The lists are about entries but for counts that are not zero, heads, sizes and classes.
  lemma {:induction false} ListsSame(t: State, u: State, h: Layout)
    requires Lists(t, h) && u.words == t.words
    requires forall q {:trigger u.E(q)} ::
      u.E(q) == t.E(q).(count := u.E(q).count) && (q !in h.alloc && q in h.len ==> u.E(q) == t.E(q))
    ensures Lists(u, h)
  {
    forall a, i | a in h.lists && 0 <= i < |h.lists[a]|
      ensures OnList(u, h, a, h.lists[a][i]) && ClassOf(u, h.lists[a][i]) == ClassOf(t, h.lists[a][i])
    {
      assert OnList(t, h, a, h.lists[a][i]);
      assert u.E(h.lists[a][i]) == t.E(h.lists[a][i]);
    }
    forall a | a in h.lists
      ensures Linked(u, a, h.lists[a])
    {
      SameLinked(t, u, a, h.lists[a]);
    }
  }

  // What deallocating p leaves of the other chunks.
  lemma {:induction false} PassDeallocates(s: State, g: Layout, M: set<int>, t: State, h: Layout, R: set<(int, int)>,
                                           p: int, u: State)
    requires MarksSet(s, g, M) && Passing(s, g, M, p, t, h, R) && Oop(p) && p in g.len && p !in M
    requires u == Deallocated(t.(freeWords := t.freeWords + Space(t, p)), p)
    ensures SizeOf(u, p) == Space(s, p) && Space(t, p) == Space(s, p) && |u.words| == |t.words| &&
      HeadFor(Space(t, p), t.E(p).segment) in g.lists
    ensures forall q, i {:trigger WordOf(u, q, i)} :: q in g.len && q != p && 0 <= i < g.len[q] ==>
      WordOf(u, q, i) == WordOf(t, q, i)
    ensures Chunks(t, g) && Shaped(t)
  {
    PassReads(s, g, M, t, h, R, p);
    var t1 := t.(freeWords := t.freeWords + Space(t, p));
    assert Shaped(t) && (forall q {:trigger t.E(q)} :: t.E(q) == s.E(q).(count := t.E(q).count)) by {
      assert OpenPass(0) && OpenLayout(0);
    }
    assert forall q :: t1.E(q) == t.E(q);
    assert Chunks(s, g) by {
      assert OpenLayout(0);
    }
    forall q
      ensures t.E(q).(count := 0) == s.E(q).(count := 0)
    {
      assert t.E(q) == s.E(q).(count := t.E(q).count);
    }
    SameChunks(s, t, g, g);
    SameChunks(s, t1, g, g);
    assert Space(t1, p) == Space(t, p);
    DeallocatedWords(t1, g, p);
    HeadForIsHead(Space(t, p), t.E(p).segment);
    assert IsHead(HeadFor(Space(t, p), t.E(p).segment));
    assert OpenLayout(0);
  }

  lemma {:induction false} OneMoreDead(g: Layout, M: set<int>, p: int, len: map<int, nat>)
    requires p in g.len && p !in M && len.Keys == g.len.Keys && forall q {:trigger q in g.len} :: q in g.len ==> Oop(q)
    ensures Unlisted(g, M, p) - {p} == Unlisted(g, M, p + 2) && p in Unlisted(g, M, p)
    ensures TotalLength(len, DeadTo(g, M, p + 2)) == len[p] + TotalLength(len, DeadTo(g, M, p))
  {
    assert DeadTo(g, M, p + 2) - {p} == DeadTo(g, M, p);
    TotalWithout(len, DeadTo(g, M, p + 2), p);
  }

  // The list that p goes to.
  lemma {:induction false} PassPushes(t: State, g: Layout, h: Layout, p: int, t1: State)
    requires Shaped(t) && Chunks(t, g) && h.len == g.len && h.alloc <= g.len.Keys && Lists(t, h) && AllListed(h, {})
    requires p in h.alloc && Space(t, p) == g.len[p] && t.E(p).count == 0 && t1 == t.(freeWords := t1.freeWords)
    ensures HeadFor(Space(t, p), t.E(p).segment) in h.lists
    ensures Lists(Deallocated(t1, p), WithoutObject(t, h, p)) && AllListed(WithoutObject(t, h, p), {})
  {
    assert Placed(t, p, g.len[p]);
    assert forall q :: t1.E(q) == t.E(q);
    ListsSame(t, t1, h);
    SameChunks(t, t1, g, h);
    HeadForIsHead(Space(t, p), t.E(p).segment);
    assert IsHead(HeadFor(Space(t, p), t.E(p).segment));
    assert Space(t1, p) == Space(t, p);
    DeallocateKeepsLists(t1, h, p);
    assert WithoutObject(t1, h, p) == WithoutObject(t, h, p);
  }

  lemma {:induction false} PassLists(s: State, g: Layout, M: set<int>, t: State, h: Layout, R: set<(int, int)>, p: int,
                                     u: State)
    requires MarksSet(s, g, M) && Passing(s, g, M, p, t, h, R) && Oop(p) && p in g.len && p !in M && Roomy(s, g)
    requires u == Deallocated(t.(freeWords := t.freeWords + Space(t, p)), p)
    ensures HeadFor(Space(t, p), t.E(p).segment) in h.lists
    ensures Listing(s, g, M, p + 2, u, WithoutObject(t, h, p))
  {
    var g' := Grown(s, g);
    PassDeallocates(s, g, M, t, h, R, p, u);
    PassReads(s, g, M, t, h, R, p);
    ChunkSpace(s, g, p);
    GrownChunks(s, g);
    assert Listing(s, g, M, p, t, h) && forall q {:trigger t.E(q)} :: t.E(q) == s.E(q).(count := t.E(q).count) by {
      assert OpenPass(0);
    }
    forall q
      ensures t.E(q).(count := 0) == s.E(q).(count := 0)
    {
      assert t.E(q) == s.E(q).(count := t.E(q).count);
    }
    SameChunks(s, t, g', g');
    AllEven(s, g);
    OneMoreDead(g, M, p, g'.len);
    PassPushes(t, g', h, p, t.(freeWords := t.freeWords + Space(t, p)));
  }

  lemma {:induction false} AllEven(s: State, g: Layout)
    requires LaidOut(s, g)
    ensures forall q {:trigger q in g.len} :: q in g.len ==> Oop(q)
  {
    forall q | q in g.len
      ensures Oop(q)
    {
      ChunkSpace(s, g, q);
    }
  }

  // An unmarked chunk goes to its list.
  lemma {:induction false} PassFrees(s: State, g: Layout, M: set<int>, t: State, h: Layout, R: set<(int, int)>, p: int,
                                     u: State)
    returns (h': Layout)
    requires MarksSet(s, g, M) && Passing(s, g, M, p, t, h, R) && Oop(p) && p in g.len && p !in M
    requires u == Deallocated(t.(freeWords := t.freeWords + Space(t, p)), p)
    ensures Passing(s, g, M, p + 2, u, h', R)
  {
    PassDeallocates(s, g, M, t, h, R, p, u);
    h' := h;
    if Roomy(s, g) {
      PassLists(s, g, M, t, h, R, p, u);
      h' := WithoutObject(t, h, p);
    }
    AllEven(s, g);
    AllocOops(s, g);
    ChunkSpace(s, g, p);
    OneMoreDead(g, M, p, Grown(s, g).len);
    FreedSizes(s, g, M, t, h, R, p, u);
    FreedEntries(s, g, M, t, h, R, p, u);
    assert OpenPass(0);
  }

  lemma {:induction false} FreedEntries(s: State, g: Layout, M: set<int>, t: State, h: Layout, R: set<(int, int)>,
                                        p: int, u: State)
    requires MarksSet(s, g, M) && Passing(s, g, M, p, t, h, R) && Oop(p) && p !in M && u.ot == t.ot
    ensures forall q {:trigger u.E(q)} :: u.E(q) == s.E(q).(count := u.E(q).count)
    ensures Tallied(s, M, u, R, p + 2)
  {
    AllocOops(s, g);
    assert OpenPass(0);
    forall q
      ensures u.E(q) == s.E(q).(count := u.E(q).count)
    {
      assert t.E(q) == s.E(q).(count := t.E(q).count);
    }
    TallySkip(s, M, t, R, p, u);
  }

  lemma {:induction false} FreedSizes(s: State, g: Layout, M: set<int>, t: State, h: Layout, R: set<(int, int)>, p: int,
                                      u: State)
    requires MarksSet(s, g, M) && Passing(s, g, M, p, t, h, R) && Oop(p) && p in g.len && p !in M
    requires u == Deallocated(t.(freeWords := t.freeWords + Space(t, p)), p)
    ensures DeadSizes(s, g, M, p + 2, u) && LiveWords(s, g, M, u)
  {
    PassDeallocates(s, g, M, t, h, R, p, u);
    AllEven(s, g);
    AllocOops(s, g);
    ChunkSpace(s, g, p);
    assert DeadSizes(s, g, M, p, t) && LiveWords(s, g, M, t) by {
      assert OpenPass(0);
    }
    forall q | q in g.len
      ensures u.E(q) == t.E(q) && 2 <= g.len[q]
    {
      ChunkSpace(s, g, q);
    }
    FreedDead(s, g, M, t, p, u);
    FreedLive(s, g, M, t, p, u);
  }

  lemma {:induction false} FreedDead(s: State, g: Layout, M: set<int>, t: State, p: int, u: State)
    requires DeadSizes(s, g, M, p, t) && SizeOf(u, p) == AsWord(Space(s, p)) && Oop(p)
    requires forall q {:trigger q in g.len} :: q in g.len ==> u.E(q) == t.E(q) && 2 <= g.len[q] && Oop(q)
    requires forall q, i {:trigger WordOf(u, q, i)} :: q in g.len && q != p && 0 <= i < g.len[q] ==>
      WordOf(u, q, i) == WordOf(t, q, i)
    ensures DeadSizes(s, g, M, p + 2, u)
  {
    forall q | q in g.len && q !in M
      ensures u.E(q).count == 0 && SizeOf(u, q) == if q < p + 2 then AsWord(Space(s, q)) else SizeOf(s, q)
    {
      if q != p {
        assert WordOf(u, q, 0) == WordOf(t, q, 0);
      }
    }
  }

  lemma {:induction false} FreedLive(s: State, g: Layout, M: set<int>, t: State, p: int, u: State)
    requires LiveWords(s, g, M, t) && p !in M && M <= g.len.Keys
    requires forall q, i {:trigger WordOf(u, q, i)} :: q in g.len && q != p && 0 <= i < g.len[q] ==>
      WordOf(u, q, i) == WordOf(t, q, i)
    ensures LiveWords(s, g, M, u)
  {
    forall q, i | q in M && 0 <= i < LenOf(g, q)
      ensures WordOf(u, q, i) == WordOf(s, q, i)
    {
      assert WordOf(u, q, i) == WordOf(t, q, i);
      assert WordOf(t, q, i) == WordOf(s, q, i);
    }
  }

  // An entry that is free.
  lemma {:induction false} PassSkips(s: State, g: Layout, M: set<int>, t: State, h: Layout, R: set<(int, int)>, p: int)
    requires MarksSet(s, g, M) && Passing(s, g, M, p, t, h, R) && Oop(p) && p !in g.len
    ensures Passing(s, g, M, p + 2, t, h, R)
  {
    AllEven(s, g);
    AllocOops(s, g);
    assert Tallied(s, M, t, R, p) by {
      assert OpenPass(0);
    }
    TallySkip(s, M, t, R, p, t);
    CountsPass(s, g, M, p, p + 2, t, h, R, t, R);
  }

  // The mark of a kept object comes off.
  lemma {:induction false} PassUnmarks(s: State, g: Layout, M: set<int>, t: State, h: Layout, R: set<(int, int)>,
                                       p: int, u: State, e: Entry)
    requires MarksSet(s, g, M) && Passing(s, g, M, p, t, h, R) && Oop(p) && p in M && R == PlacesTo(s, M, p)
    requires e == (if t.E(p).count < STUCK then t.E(p).(count := AsByte(t.E(p).count - 1)) else t.E(p)) &&
      u == (if t.E(p).count < STUCK then PutEntry(t, p, e) else t)
    ensures Passing(s, g, M, p + 2, u, h, R)
  {
    AllEven(s, g);
    AllocOops(s, g);
    assert |t.ot| == OBJECT_TABLE_SIZE && Tallied(s, M, t, R, p) by {
      assert OpenLayout(0) && OpenPass(0);
    }
    UnmarkTallies(s, M, t, R, p, u, e);
    CountsPass(s, g, M, p, p + 2, t, h, R, u, R);
  }

  lemma {:induction false} UnmarkTallies(s: State, M: set<int>, t: State, R: set<(int, int)>, p: int, u: State,
                                         e: Entry)
    requires Tallied(s, M, t, R, p) && R == PlacesTo(s, M, p) && Oop(p) && p in M && |t.ot| == OBJECT_TABLE_SIZE
    requires forall q {:trigger q in M} :: q in M ==> Oop(q)
    requires e == (if t.E(p).count < STUCK then t.E(p).(count := AsByte(t.E(p).count - 1)) else t.E(p)) &&
      u == (if t.E(p).count < STUCK then PutEntry(t, p, e) else t)
    ensures Tallied(s, M, u, R, p + 2) && CountsOnly(M, t, u)
  {
    EntriesAfterPut(t, p, e);
    forall q
      ensures u.E(q) == if q == p then e else t.E(q)
    {
    }
    TallyMark(s, M, t, R, p, u);
  }

  // Entry p: an unmarked chunk.
  method RectifyGarbage(om: ObjectMemory, p: Word, ghost s: State, ghost g: Layout, ghost M: set<int>, ghost h: Layout,
                        ghost R: set<(int, int)>)
    returns (ghost h': Layout)
    requires om.Valid() && MarksSet(s, g, M) && Passing(s, g, M, p, om.st, h, R) && Oop(p) && p in g.len && p !in M
    modifies om`st, om`freeWords, om.mem
    ensures om.Valid() && Passing(s, g, M, p + 2, om.st, h', R)
  {
    ghost var t := om.st;
    PassReads(s, g, M, t, h, R, p);
    var space := om.SpaceOccupiedBy(p);
    om.freeWords := om.freeWords + space;
    om.st := om.st.(freeWords := om.freeWords);
    Deallocate(om, p);
    h' := PassFrees(s, g, M, t, h, R, p, om.st);
  }

  // The places of p before index i, and those of the objects before it.
  ghost function PlacesBefore(s: State, M: set<int>, p: int, i: int): set<(int, int)> {
    PlacesTo(s, M, p) + set j | 1 <= j < i && j < LastPointer(s, p) :: (p, j)
  }

  lemma {:induction false} NextPlace(s: State, M: set<int>, p: int, i: int)
    requires p in M && 1 <= i < LastPointer(s, p)
    ensures (p, i) !in PlacesBefore(s, M, p, i) && PlacesBefore(s, M, p, i) + {(p, i)} == PlacesBefore(s, M, p, i + 1)
  {
  }

  lemma {:induction false} FirstPlace(s: State, M: set<int>, p: int)
    ensures PlacesBefore(s, M, p, 1) == PlacesTo(s, M, p)
  {
  }

  lemma {:induction false} LastPlace(s: State, M: set<int>, p: int)
    requires Oop(p) && forall q {:trigger q in M} :: q in M ==> Oop(q)
    ensures p in M ==> PlacesBefore(s, M, p, LastPointer(s, p)) == PlacesTo(s, M, p + 2)
    ensures p !in M ==> PlacesTo(s, M, p) == PlacesTo(s, M, p + 2)
  {
  }

  // The pointers of p below index i have been counted.
  ghost predicate CountedTo(s: State, g: Layout, M: set<int>, p: int, i: int, t: State, h: Layout) {
    forall k {:trigger OpenPass(k)} :: OpenPass(k) ==>
      MarksSet(s, g, M) && Passing(s, g, M, p + 2, t, h, PlacesBefore(s, M, p, i))
  }

  // The next pointer of p, and what counting it leaves.
  lemma {:induction false} CountNext(s: State, g: Layout, M: set<int>, p: int, i: int, t: State, h: Layout)
    requires CountedTo(s, g, M, p, i, t, h) && p in M && 1 <= i < LastPointer(s, p)
    ensures Oop(p) && InHeap(t.E(p), i) && var v := WordOf(t, p, i);
      (!IsInteger(v) ==> InTable(v)) && CountedTo(s, g, M, p, i + 1, CountedUp(t, v), h)
  {
    assert OpenPass(0);
    AllocOops(s, g);
    PassPointers(s, g, M, p + 2, t, h, PlacesBefore(s, M, p, i), p);
    NextPlace(s, M, p, i);
    assert WordOf(t, p, i) == WordOf(s, p, i);
    PassCounts(s, g, M, p + 2, t, h, PlacesBefore(s, M, p, i), p, i);
  }

  lemma {:induction false} CountFirst(s: State, g: Layout, M: set<int>, p: int, t: State, h: Layout)
    requires MarksSet(s, g, M) && Passing(s, g, M, p + 2, t, h, PlacesTo(s, M, p)) && p in M
    ensures CountedTo(s, g, M, p, 1, t, h) && Oop(p) && LastPointer(t, p) == LastPointer(s, p) && InHeap(t.E(p), 2)
  {
    FirstPlace(s, M, p);
    AllocOops(s, g);
    PassPointers(s, g, M, p + 2, t, h, PlacesTo(s, M, p), p);
  }

  lemma {:induction false} CountLast(s: State, g: Layout, M: set<int>, p: int, i: int, t: State, h: Layout)
    requires CountedTo(s, g, M, p, i, t, h) && p in M && LastPointer(s, p) <= i
    ensures Passing(s, g, M, p + 2, t, h, PlacesTo(s, M, p + 2))
  {
    assert OpenPass(0);
    AllocOops(s, g);
    LastPlaceFrom(s, M, p, i);
  }

  // Counts up what p's pointers hold.
  method CountFields(om: ObjectMemory, p: Word, ghost s: State, ghost g: Layout, ghost M: set<int>, ghost h: Layout)
    requires om.Valid() && CountedTo(s, g, M, p, 1, om.st, h) && Oop(p) && p in M
    requires LastPointer(om.st, p) == LastPointer(s, p) && InHeap(om.st.E(p), 2)
    modifies om`st, om.mem
    ensures om.Valid() && Passing(s, g, M, p + 2, om.st, h, PlacesTo(s, M, p + 2))
  {
    var size: int := om.LastPointerOf(p);
    var limit := size - 1;
    var offset := 1;
    while offset <= limit
      invariant om.Valid() && 1 <= offset && CountedTo(s, g, M, p, offset, om.st, h)
    {
      CountNext(s, g, M, p, offset, om.st, h);
      var v := om.HeapChunkWord(p, offset);
      CountUp(om, v);
      offset := offset + 1;
    }
    CountLast(s, g, M, p, offset, om.st, h);
  }

  // Entry p: a marked object.
  method RectifyObject(om: ObjectMemory, p: Word, count: Byte, ghost s: State, ghost g: Layout, ghost M: set<int>,
                       ghost h: Layout)
    requires om.Valid() && MarksSet(s, g, M) && Passing(s, g, M, p, om.st, h, PlacesTo(s, M, p)) && Oop(p) && p in M &&
      count == om.st.E(p).count
    modifies om`st, om.mem
    ensures om.Valid() && Passing(s, g, M, p + 2, om.st, h, PlacesTo(s, M, p + 2))
  {
    ghost var t := om.st;
    PassReads(s, g, M, t, h, PlacesTo(s, M, p), p);
    if count < STUCK {
      om.CountBitsPut(p, count - 1);
    }
    PassUnmarks(s, g, M, t, h, PlacesTo(s, M, p), p, om.st, om.st.E(p));
    CountFirst(s, g, M, p, om.st, h);
    CountFields(om, p, s, g, M, h);
  }

  lemma {:induction false} LastPlaceFrom(s: State, M: set<int>, p: int, i: int)
    requires Oop(p) && p in M && (forall q {:trigger q in M} :: q in M ==> Oop(q)) && LastPointer(s, p) <= i
    ensures PlacesBefore(s, M, p, i) == PlacesTo(s, M, p + 2)
  {
  }

  // After the pass

  ghost predicate LiveKept(s: State, g: Layout, M: set<int>, t: State) {
    (forall q {:trigger t.E(q)} :: t.E(q) == s.E(q).(count := t.E(q).count)) &&
    forall q, i {:trigger WordOf(t, q, i)} :: q in M && 0 <= i < LenOf(g, q) ==> WordOf(t, q, i) == WordOf(s, q, i)
  }

  // What the pass makes of the free space: h describes t, if some layout does; and every chunk that is
  // not kept has been counted free with the length deallocate gave it.
  ghost predicate Freshened(s: State, g: Layout, M: set<int>, t: State, h: Layout) {
    (Roomy(s, g) ==> LaidOut(t, h) && h == Grown(s, g).(alloc := M, lists := h.lists)) &&
    (Tiled(s, g) && !Roomy(s, g) ==> forall h': Layout {:trigger LaidOut(t, h')} :: h'.alloc == M ==>
      !LaidOut(t, h')) &&
    t.freeWords == s.freeWords + TotalLength(Grown(s, g).len, g.len.Keys - M)
  }

  // The count that a collection gives q.
  ghost function CountAfter(s: State, M: set<int>, ext: multiset<int>, q: int): int {
    if EarlyRefs(s, M, q) >= STUCK - 1 then STUCK else Min(Refs(s, M, NO_HOLE, q) + ext[q], STUCK)
  }

  ghost predicate Sticks(s: State, M: set<int>, t: State, ext: multiset<int>) {
    forall q {:trigger t.E(q)} :: q in M && q != NIL_POINTER ==> t.E(q).count == CountAfter(s, M, ext, q)
  }

  lemma {:induction false} PassEnds(s: State, g: Layout, M: set<int>, t: State, h: Layout)
    requires MarksSet(s, g, M) && Passing(s, g, M, OBJECT_TABLE_SIZE, t, h, PlacesTo(s, M, OBJECT_TABLE_SIZE))
    ensures LiveKept(s, g, M, t) && Exact(t, M, NO_HOLE, multiset{}) && Sticks(s, M, t, multiset{}) &&
      Closed(t, M, NO_HOLE) && Freshened(s, g, M, t, h)
    ensures t.currentSegment == s.currentSegment && Shaped(t)
    ensures forall q {:trigger q in g.len} :: q in g.len && q !in M ==> t.E(q).count == 0
  {
    AllocOops(s, g);
    AllEven(s, g);
    assert LiveKept(s, g, M, t) && Shaped(t) && t.currentSegment == s.currentSegment &&
      DeadSizes(s, g, M, OBJECT_TABLE_SIZE, t) &&
           t.freeWords == s.freeWords + TotalLength(Grown(s, g).len, DeadTo(g, M, OBJECT_TABLE_SIZE)) by {
      assert OpenPass(0) && OpenLayout(0);
    }
    assert DeadTo(g, M, OBJECT_TABLE_SIZE) == g.len.Keys - M;
    EndExact(s, g, M, t, h);
    if Roomy(s, g) {
      EndListed(s, g, M, t, h);
    } else if Tiled(s, g) {
      var p :| Stale(s, g, p) && s.E(p).location + g.len[p] != HEAP_SPACE_STOP;
      forall h': Layout | h'.alloc == M
        ensures !LaidOut(t, h')
      {
        Overlapped(s, g, M, t, h', p);
      }
    }
  }

  // A stale chunk that does not end at the spare word runs into the next chunk.
  lemma {:induction false} Overlapped(s: State, g: Layout, M: set<int>, t: State, h': Layout, p: int)
    requires LaidOut(s, g) && Tiled(s, g) && M <= g.alloc && LiveKept(s, g, M, t) &&
      DeadSizes(s, g, M, OBJECT_TABLE_SIZE, t)
    requires Stale(s, g, p) && s.E(p).location + g.len[p] != HEAP_SPACE_STOP && h'.alloc == M
    ensures !LaidOut(t, h')
  {
    if LaidOut(t, h') {
      ChunkSpace(s, g, p);
      assert t.E(p) == s.E(p).(count := t.E(p).count);
      assert p in h'.len by {
        assert OpenLayout(0);
      }
      ListedSize(t, h', p);
      assert Placed(t, p, h'.len[p]) by {
        assert OpenLayout(0);
      }
      var w := s.E(p).location + g.len[p];
      assert InChunk(s, g, s.E(p).segment, w);
      var q :| q in g.len && s.E(q).segment == s.E(p).segment && s.E(q).location <= w < s.E(q).location + g.len[q];
      RunsInto(s, g, t, h', p, q);
    }
  }

  lemma {:induction false} RunsInto(s: State, g: Layout, t: State, h': Layout, p: int, q: int)
    requires LaidOut(s, g) && LaidOut(t, h') && p in g.len && q in g.len && p in h'.len && h'.len[p] == g.len[p] + 1
    requires t.E(p) == s.E(p).(count := t.E(p).count) && t.E(q) == s.E(q).(count := t.E(q).count)
    requires s.E(q).segment == s.E(p).segment
    ensures !(s.E(q).location <= s.E(p).location + g.len[p] < s.E(q).location + g.len[q])
  {
    assert Placed(s, p, g.len[p]) && Placed(s, q, g.len[q]) && (p != q ==> Separate(s, p, g.len[p], q, g.len[q])) by {
      assert OpenLayout(0);
    }
    assert q in h'.len && Placed(t, q, h'.len[q]) && (p != q ==> Separate(t, p, h'.len[p], q, h'.len[q])) by {
      assert OpenLayout(0);
    }
  }

  lemma {:induction false} EndExact(s: State, g: Layout, M: set<int>, t: State, h: Layout)
    requires MarksSet(s, g, M) && Passing(s, g, M, OBJECT_TABLE_SIZE, t, h, PlacesTo(s, M, OBJECT_TABLE_SIZE))
    ensures Exact(t, M, NO_HOLE, multiset{}) && Sticks(s, M, t, multiset{}) && Closed(t, M, NO_HOLE)
  {
    AllocOops(s, g);
    assert PlacesTo(s, M, OBJECT_TABLE_SIZE) == Places(s, M) == Places(s, M) - NO_HOLE;
    forall q | q in M
      ensures LastPointer(t, q) == LastPointer(s, q) && forall i {:trigger WordOf(t, q, i)} ::
        1 <= i < LastPointer(s, q) ==> WordOf(t, q, i) == WordOf(s, q, i)
    {
      PassPointers(s, g, M, OBJECT_TABLE_SIZE, t, h, PlacesTo(s, M, OBJECT_TABLE_SIZE), q);
    }
    assert Tallied(s, M, t, PlacesTo(s, M, OBJECT_TABLE_SIZE), OBJECT_TABLE_SIZE) by {
      assert OpenPass(0);
    }
    forall q | q in M
      ensures t.E(q).count == STUCK || (t.E(q).count < STUCK && t.E(q).count == Refs(t, M, NO_HOLE, q) + multiset{}[q])
      ensures t.E(q).count == CountAfter(s, M, multiset{}, q)
    {
      RefsSame(s, t, M, NO_HOLE, q);
    }
    forall p, i, q | p in M && PointsTo(t, p, i, q)
      ensures q in M
    {
      assert PointsTo(s, p, i, q);
    }
  }

  lemma {:induction false} EndListed(s: State, g: Layout, M: set<int>, t: State, h: Layout)
    requires MarksSet(s, g, M) && Passing(s, g, M, OBJECT_TABLE_SIZE, t, h, PlacesTo(s, M, OBJECT_TABLE_SIZE)) &&
      Roomy(s, g)
    ensures LaidOut(t, h) && h == Grown(s, g).(alloc := M, lists := h.lists)
  {
    AllocOops(s, g);
    AllEven(s, g);
    GrownChunks(s, g);
    assert Listing(s, g, M, OBJECT_TABLE_SIZE, t, h) && t.freeHead == s.freeHead && Shaped(t) &&
           (forall q {:trigger t.E(q)} :: t.E(q) == s.E(q).(count := t.E(q).count)) by {
      assert OpenPass(0) && OpenLayout(0);
    }
    assert Unlisted(g, M, OBJECT_TABLE_SIZE) == M;
    forall q | q in M
      ensures Sized(t, q, g.len[q])
    {
      PassPointers(s, g, M, OBJECT_TABLE_SIZE, t, h, PlacesTo(s, M, OBJECT_TABLE_SIZE), q);
      assert Sized(s, q, g.len[q]) && t.E(q) == s.E(q).(count := t.E(q).count) && HEADER_SIZE <= g.len[q] by {
        assert OpenLayout(0);
        assert Placed(s, q, g.len[q]);
      }
      SameSize(s, t, q, g.len[q]);
    }
    forall q
      ensures t.E(q).(count := 0) == s.E(q).(count := 0)
    {
      assert t.E(q) == s.E(q).(count := t.E(q).count);
    }
    assert OpenLayout(0);
    SameChunks(s, t, Grown(s, g), h);
    SameFrees(s, t, g.frees);
    assert forall p :: Oop(p) && t.E(p).free == 0 ==> s.E(p).free == 0;
  }

  // The pass has reached entry p.
  ghost predicate AtEntry(om: ObjectMemory, s: State, g: Layout, M: set<int>, p: int, h: Layout)
    reads om, om.mem
  {
    forall k {:trigger OpenEntry(k)} :: OpenEntry(k) ==>
      om.Valid() && MarksSet(s, g, M) && Passing(s, g, M, p, om.st, h, PlacesTo(s, M, p))
  }

  ghost predicate OpenEntry(k: int) {
    true
  }

  method BeginPass(om: ObjectMemory, ghost s: State, ghost g: Layout, ghost M: set<int>) returns (ghost h: Layout)
    requires om.Valid() && om.st == s && MarksSet(s, g, M)
    modifies om`st, om.mem
    ensures AtEntry(om, s, g, M, 2, h)
  {
    ResetFreeChunkLists(om);
    PassBegins(s, g, M, om.st);
    h := EmptyLists(Grown(s, g));
    AllocOops(s, g);
    assert PlacesTo(s, M, 2) == {};
  }

  method RectifyCounts(om: ObjectMemory, ghost s: State, ghost g: Layout, ghost M: set<int>) returns (ghost h: Layout)
    requires om.Valid() && om.st == s && MarksSet(s, g, M)
    modifies om`st, om`freeWords, om.mem
    ensures om.Valid() && Passing(s, g, M, OBJECT_TABLE_SIZE, om.st, h, PlacesTo(s, M, OBJECT_TABLE_SIZE))
  {
    h := BeginPass(om, s, g, M);
    h := RectifyAll(om, s, g, M, h);
    assert OpenEntry(0);
  }

  ghost predicate Bounded(p: int) {
    forall k {:trigger OpenEntry(k)} :: OpenEntry(k) ==> 2 <= p <= OBJECT_TABLE_SIZE && p % 2 == 0
  }

  lemma {:induction false} NextEntry(p: int)
    requires Bounded(p) && p <= OBJECT_TABLE_SIZE - 2
    ensures Oop(p) && Bounded(p + 2)
  {
    assert OpenEntry(0);
  }

  lemma {:induction false} AtEnd(om: ObjectMemory, s: State, g: Layout, M: set<int>, p: int, h: Layout)
    requires AtEntry(om, s, g, M, p, h) && Bounded(p) && p > OBJECT_TABLE_SIZE - 2
    ensures AtEntry(om, s, g, M, OBJECT_TABLE_SIZE, h)
  {
    assert p == OBJECT_TABLE_SIZE by {
      assert OpenEntry(0);
    }
  }

  method RectifyAll(om: ObjectMemory, ghost s: State, ghost g: Layout, ghost M: set<int>, ghost h0: Layout)
    returns (ghost h: Layout)
    requires AtEntry(om, s, g, M, 2, h0)
    modifies om`st, om`freeWords, om.mem
    ensures AtEntry(om, s, g, M, OBJECT_TABLE_SIZE, h)
  {
    h := h0;
    var p := 2;
    while p <= OBJECT_TABLE_SIZE - 2
      invariant Bounded(p) && AtEntry(om, s, g, M, p, h)
      decreases OBJECT_TABLE_SIZE - p
    {
      NextEntry(p);
      h := RectifyOne(om, p, s, g, M, h);
      p := p + 2;
    }
    AtEnd(om, s, g, M, p, h);
  }

  method RectifyOne(om: ObjectMemory, p: Word, ghost s: State, ghost g: Layout, ghost M: set<int>, ghost h: Layout)
    returns (ghost h': Layout)
    requires AtEntry(om, s, g, M, p, h) && Oop(p)
    modifies om`st, om`freeWords, om.mem
    ensures AtEntry(om, s, g, M, p + 2, h')
  {
    assert OpenEntry(0);
    h' := h;
    PassReads(s, g, M, om.st, h, PlacesTo(s, M, p), p);
    AllocOops(s, g);
    LastPlace(s, M, p);
    var free := om.FreeBitOf(p);
    if free == 0 {
      var count := om.CountBitsOf(p);
      if count == 0 {
        h' := RectifyGarbage(om, p, s, g, M, h, PlacesTo(s, M, p));
      } else {
        RectifyObject(om, p, count, s, g, M, h);
      }
    } else {
      PassSkips(s, g, M, om.st, h, PlacesTo(s, M, p), p);
    }
  }
}
