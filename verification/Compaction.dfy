// Compacting a segment: the objects above the first free chunk are swept down, and what is left
// becomes one free chunk.  Nothing of it shows through the object table.
module Compaction {
  import opened Words
  import opened Memory
  import opened Layouts
  import opened Allocation
  import opened Abandoning

  ghost function LenOf(g: Layout, p: int): nat {
    if p in g.len then g.len[p] else 0
  }

  // No chunk of the segment lies across location w.
  ghost predicate Boundary(s: State, g: Layout, segment: int, w: int) {
    forall p {:trigger p in g.len} :: p in g.len && s.E(p).segment == segment ==>
      s.E(p).location + g.len[p] <= w || w <= s.E(p).location
  }

  // The chunk of p has not been passed by the sweep, or is not in its way.
  ghost predicate StillThere(s: State, segment: int, low: int, si: int, p: int) {
    !(s.E(p).segment == segment && low <= s.E(p).location < si)
  }

  ghost function EntrySwept(s: State, g: Layout, segment: int, low: int, t: State, si: int, p: int): Entry {
    if p in Holes(s, g, segment) then s.E(p).(free := 1, location := t.E(p).location)
    else if p !in Swept(s, g, segment, low) then s.E(p)
    else if s.E(p).location >= si then s.E(p).(location := SizeOf(s, p))
    else s.E(p).(location := t.E(p).location)
  }

  // p has been moved down, below di, with all its words.
  ghost predicate Moved(s: State, g: Layout, low: int, t: State, di: int, p: int) {
    low <= t.E(p).location <= s.E(p).location && t.E(p).location + LenOf(g, p) <= di &&
    forall i {:trigger WordOf(t, p, i)} :: 0 <= i < LenOf(g, p) ==> WordOf(t, p, i) == WordOf(s, p, i)
  }

  ghost predicate MovedAll(s: State, g: Layout, segment: int, low: int, t: State, si: int, di: int) {
    forall p {:trigger Moved(s, g, low, t, di, p)} :: p in Swept(s, g, segment, low) && s.E(p).location < si ==>
      Moved(s, g, low, t, di, p)
  }

  ghost predicate HoleAt(s: State, g: Layout, segment: int, low: int) {
    exists c :: c in Holes(s, g, segment) && s.E(c).location == low
  }

  ghost predicate Before(s: State, g: Layout, t: State, p: int, q: int) {
    s.E(p).location < s.E(q).location ==> t.E(p).location + LenOf(g, p) <= t.E(q).location
  }

  ghost predicate InOrder(s: State, g: Layout, segment: int, low: int, t: State, si: int) {
    forall p, q {:trigger Before(s, g, t, p, q)} ::
      p in Swept(s, g, segment, low) && q in Swept(s, g, segment, low) && s.E(p).location < si &&
        s.E(q).location < si ==>
        Before(s, g, t, p, q)
  }

  ghost predicate FilledAt(s: State, g: Layout, segment: int, low: int, t: State, si: int, w: int) {
    exists p :: p in Swept(s, g, segment, low) && s.E(p).location < si &&
      t.E(p).location <= w < t.E(p).location + LenOf(g, p)
  }

  ghost predicate Filled(s: State, g: Layout, segment: int, low: int, t: State, si: int, di: int) {
    forall w {:trigger FilledAt(s, g, segment, low, t, si, w)} :: low <= w < di ==>
      FilledAt(s, g, segment, low, t, si, w)
  }

  ghost predicate Waiting(s: State, g: Layout, segment: int, low: int, words: seq<Word>, si: int) {
    forall p, i {:trigger Chunk(words, s.E(p), i)} ::
      p in g.len && 0 <= i < g.len[p] && StillThere(s, segment, low, si, p) ==>
      Chunk(words, s.E(p), i) == WordNow(s, Holes(s, g, segment), Swept(s, g, segment, low), p, i)
  }

  // The sweep has read up to si and written up to di.
  ghost predicate Sweeping(s: State, g: Layout, segment: int, low: int, t: State, frees: seq<int>, si: int, di: int) {
    forall k {:trigger OpenSweep(k)} :: OpenSweep(k) ==> SweepingUnfolded(s, g, segment, low, t, frees, si, di)
  }

  ghost predicate OpenSweep(k: int) {
    true
  }

  ghost predicate SweepingUnfolded(s: State, g: Layout, segment: int, low: int, t: State, frees: seq<int>, si: int,
                                   di: int) {
    SameSizes(s, t) && 0 <= low <= di <= si <= HEAP_SPACE_STOP + 1 && (si == di == low || di + HEADER_SIZE <= si) &&
    Boundary(s, g, segment, low) && Boundary(s, g, segment, si) && HoleAt(s, g, segment, low) &&
    (forall c {:trigger c in Holes(s, g, segment)} :: c in Holes(s, g, segment) ==> low <= s.E(c).location) &&
    (forall p {:trigger t.E(p)} :: t.E(p) == EntrySwept(s, g, segment, low, t, si, p)) &&
    Waiting(s, g, segment, low, t.words, si) && HeadsNow(s, t.words, segment, BIG_SIZE + 1) &&
    MovedAll(s, g, segment, low, t, si, di) && InOrder(s, g, segment, low, t, si) &&
      Filled(s, g, segment, low, t, si, di) &&
    Frees(t, frees) && |frees| == |g.frees| + |Holes(s, g, segment)|
  }

  lemma {:induction false} SweepBegins(s: State, g: Layout, segment: int, low: int, t: State, frees: seq<int>)
    requires LaidOut(s, g) &&
      Upset(s, g, segment, t, Holes(s, g, segment), Swept(s, g, segment, low), frees, BIG_SIZE + 1)
    requires HoleAt(s, g, segment, low) && forall c :: c in Holes(s, g, segment) ==> low <= s.E(c).location
    ensures Sweeping(s, g, segment, low, t, frees, low, low)
  {
    var c :| c in Holes(s, g, segment) && s.E(c).location == low;
    BlockStarts(s, g, segment, c);
    PlacedAt(s, g, c, 0);
    assert OpenUpset(0);
    forall p
      ensures t.E(p) == EntrySwept(s, g, segment, low, t, low, p)
    {
      assert t.E(p) == EntryNow(s, t, Holes(s, g, segment), Swept(s, g, segment, low), p);
    }
  }

  // Where a chunk starts and where it ends are boundaries.
  lemma {:induction false} BlockStarts(s: State, g: Layout, segment: int, c: int)
    requires LaidOut(s, g) && c in g.len && s.E(c).segment == segment
    ensures Boundary(s, g, segment, s.E(c).location) && Boundary(s, g, segment, s.E(c).location + g.len[c])
    ensures Placed(s, c, g.len[c])
  {
    assert OpenLayout(0);
    assert Placed(s, c, g.len[c]);
    forall p | p in g.len && s.E(p).segment == segment
      ensures s.E(p).location + g.len[p] <= s.E(c).location || s.E(c).location + g.len[c] <= s.E(p).location || p == c
    {
      if p != c {
        assert Separate(s, c, g.len[c], p, g.len[p]);
      }
    }
  }

  // At a boundary short of the end a chunk starts.
  lemma {:induction false} BlockAt(s: State, g: Layout, segment: int, si: int) returns (b: int)
    requires LaidOut(s, g) && Tiled(s, g) && Boundary(s, g, segment, si) && 0 <= segment < HEAP_SEGMENT_COUNT &&
      0 <= si < HEAP_SPACE_STOP
    ensures b in g.len && s.E(b).segment == segment && s.E(b).location == si
    ensures b in g.alloc || b in Holes(s, g, segment)
  {
    assert InChunk(s, g, segment, si);
    b :| b in g.len && s.E(b).segment == segment && s.E(b).location <= si < s.E(b).location + g.len[b];
  }

  // What stands at si in the sweep.
  lemma {:induction false} SweepReads(s: State, g: Layout, segment: int, low: int, t: State, frees: seq<int>, si: int,
                                      di: int)
    returns (b: int)
    requires LaidOut(s, g) && Tiled(s, g) && Sweeping(s, g, segment, low, t, frees, si, di)
    requires 0 <= segment < HEAP_SEGMENT_COUNT && si < HEAP_SPACE_STOP
    requires ClassesAreObjects(s, g)
    ensures b in g.len && s.E(b).segment == segment && s.E(b).location == si && Placed(s, b, g.len[b])
    ensures At(t.words, segment * 65536 + si + 1) == NON_POINTER <==> b in Holes(s, g, segment)
    ensures b in Holes(s, g, segment) ==> At(t.words, segment * 65536 + si) == g.len[b]
    ensures b !in Holes(s, g, segment) ==>
      b in Swept(s, g, segment, low) && At(t.words, segment * 65536 + si) == b &&
        t.E(b) == s.E(b).(location := SizeOf(s, b)) && Space(s, b) == g.len[b]
  {
    assert OpenSweep(0);
    b := BlockAt(s, g, segment, si);
    BlockStarts(s, g, segment, b);
    assert Chunk(t.words, s.E(b), 0) == WordNow(s, Holes(s, g, segment), Swept(s, g, segment, low), b, 0);
    assert Chunk(t.words, s.E(b), 1) == WordNow(s, Holes(s, g, segment), Swept(s, g, segment, low), b, 1);
    assert t.E(b) == EntrySwept(s, g, segment, low, t, si, b);
    if b in Holes(s, g, segment) {
      ListedSize(s, g, b);
    } else {
      assert ClassOf(s, b) != NON_POINTER;
      assert Sized(s, b, g.len[b]) by {
        assert OpenLayout(0);
      }
    }
  }

  // The class of an object is an object, so no class word is NonPointer.
  ghost predicate ClassesAreObjects(s: State, g: Layout) {
    forall p {:trigger ClassOf(s, p)} :: p in g.alloc ==> ClassOf(s, p) != NON_POINTER
  }

  // An abandoned chunk is passed over.
  lemma {:induction false} SweepSkips(s: State, g: Layout, segment: int, low: int, t: State, frees: seq<int>, si: int,
                                      di: int, b: int, si': int)
    requires LaidOut(s, g) && Sweeping(s, g, segment, low, t, frees, si, di)
    requires b in Holes(s, g, segment) && s.E(b).location == si && si' == si + g.len[b]
    ensures Sweeping(s, g, segment, low, t, frees, si', di)
  {
    assert OpenSweep(0);
    BlockStarts(s, g, segment, b);
    NoneBetween(s, g, segment, low, b);
    forall p
      ensures t.E(p) == EntrySwept(s, g, segment, low, t, si', p)
    {
      assert t.E(p) == EntrySwept(s, g, segment, low, t, si, p);
    }
    forall w | low <= w < di
      ensures FilledAt(s, g, segment, low, t, si', w)
    {
      assert FilledAt(s, g, segment, low, t, si, w);
    }
    MovedSame(s, g, segment, low, t, si, si', di);
  }

  lemma {:induction false} MovedSame(s: State, g: Layout, segment: int, low: int, t: State, si: int, si': int, di: int)
    requires MovedAll(s, g, segment, low, t, si, di) && InOrder(s, g, segment, low, t, si)
    requires forall p {:trigger p in Swept(s, g, segment, low)} ::
      p in Swept(s, g, segment, low) && s.E(p).location < si' ==> s.E(p).location < si
    ensures MovedAll(s, g, segment, low, t, si', di) && InOrder(s, g, segment, low, t, si')
  {
  }

  // No chunk but b starts where b is.
  lemma {:induction false} NoneBetween(s: State, g: Layout, segment: int, low: int, b: int)
    requires LaidOut(s, g) && b in g.len && s.E(b).segment == segment
    ensures forall p {:trigger p in g.len} :: p in g.len && s.E(p).segment == segment && p != b ==>
      s.E(p).location < s.E(b).location || s.E(b).location + g.len[b] <= s.E(p).location
    ensures forall p {:trigger p in Swept(s, g, segment, low)} :: p in Swept(s, g, segment, low) && p != b ==>
      s.E(p).location < s.E(b).location || s.E(b).location + g.len[b] <= s.E(p).location
  {
    assert OpenLayout(0);
    forall p | p in g.len && s.E(p).segment == segment && p != b
      ensures s.E(p).location < s.E(b).location || s.E(b).location + g.len[b] <= s.E(p).location
    {
      assert Separate(s, b, g.len[b], p, g.len[p]) && Placed(s, p, g.len[p]);
    }
  }

  // u is t with the first n words of b's object, which stood at si, at di.
  ghost predicate MovesTo(s: State, t: State, u: State, b: int, di: int, n: int) {
    u.freeHead == t.freeHead && SameSizes(t, u) &&
    (forall q {:trigger u.E(q)} :: u.E(q) == if q == b then s.E(b).(location := AsWord(di)) else t.E(q)) &&
    (forall a {:trigger At(u.words, a)} :: At(u.words, a) ==
       var k := a - (s.E(b).segment * 65536 + di); if 0 <= k < n then WordOf(s, b, k) else At(t.words, a))
  }

  // b is the object at si, which the sweep is to move to di.
  ghost predicate CanMove(s: State, g: Layout, segment: int, low: int, t: State, frees: seq<int>, si: int, di: int,
                          b: int) {
    LaidOut(s, g) && Sweeping(s, g, segment, low, t, frees, si, di) && b in g.len && b in Swept(s, g, segment, low) &&
      s.E(b).location == si
  }

  lemma {:induction false} NoHeadBelow(segment: int, w: int)
    requires 0 <= w <= HEAP_SPACE_STOP
    ensures !IsHead(segment * 65536 + w)
  {
    assert (segment * 65536 + w) % 65536 == w;
  }

  lemma {:induction false} MoveWord(s: State, g: Layout, segment: int, low: int, t: State, frees: seq<int>, si: int,
                                    di: int, b: int, u: State, q: int, i: int)
    requires CanMove(s, g, segment, low, t, frees, si, di, b) && MovesTo(s, t, u, b, di, g.len[b])
    requires q in g.len && 0 <= i < g.len[q] && StillThere(s, segment, low, si + g.len[b], q)
    ensures Chunk(u.words, s.E(q), i) == Chunk(t.words, s.E(q), i)
  {
    assert OpenSweep(0);
    BlockStarts(s, g, segment, b);
    PlacedAt(s, g, q, i);
  }

  lemma {:induction false} MoveWaiting(s: State, g: Layout, segment: int, low: int, t: State, frees: seq<int>, si: int,
                                       di: int, b: int, u: State, si': int)
    requires CanMove(s, g, segment, low, t, frees, si, di, b) && MovesTo(s, t, u, b, di, g.len[b]) &&
      si' == si + g.len[b]
    ensures Waiting(s, g, segment, low, u.words, si') && HeadsNow(s, u.words, segment, BIG_SIZE + 1)
  {
    assert Waiting(s, g, segment, low, t.words, si) && HeadsNow(s, t.words, segment, BIG_SIZE + 1) &&
      0 <= low <= di <= si by {
      assert OpenSweep(0);
    }
    forall q, i | q in g.len && 0 <= i < g.len[q] && StillThere(s, segment, low, si', q)
      ensures Chunk(u.words, s.E(q), i) == WordNow(s, Holes(s, g, segment), Swept(s, g, segment, low), q, i)
    {
      MoveWord(s, g, segment, low, t, frees, si, di, b, u, q, i);
      assert Chunk(t.words, s.E(q), i) == WordNow(s, Holes(s, g, segment), Swept(s, g, segment, low), q, i);
    }
    BlockStarts(s, g, segment, b);
    forall a | IsHead(a)
      ensures At(u.words, a) == At(t.words, a)
    {
      var w := a - segment * 65536;
      if 0 <= w <= HEAP_SPACE_STOP {
        NoHeadBelow(segment, w);
      }
    }
  }

  lemma {:induction false} MoveEntries(s: State, g: Layout, segment: int, low: int, t: State, frees: seq<int>, si: int,
                                       di: int, b: int, u: State, si': int)
    requires CanMove(s, g, segment, low, t, frees, si, di, b) && MovesTo(s, t, u, b, di, g.len[b]) &&
      si' == si + g.len[b]
    ensures forall p {:trigger u.E(p)} :: u.E(p) == EntrySwept(s, g, segment, low, u, si', p)
    ensures Frees(u, frees)
  {
    assert OpenSweep(0);
    BlockStarts(s, g, segment, b);
    NoneBetween(s, g, segment, low, b);
    forall p
      ensures u.E(p) == EntrySwept(s, g, segment, low, u, si', p)
    {
      assert t.E(p) == EntrySwept(s, g, segment, low, t, si, p);
    }
    assert t.E(b) == EntrySwept(s, g, segment, low, t, si, b);
    FreesKept(t, u, frees);
  }

  lemma {:induction false} MoveKeeps(s: State, g: Layout, segment: int, low: int, t: State, frees: seq<int>, si: int,
                                     di: int, b: int, u: State, si': int, di': int, p: int)
    requires CanMove(s, g, segment, low, t, frees, si, di, b) && MovesTo(s, t, u, b, di, g.len[b]) &&
      si' == si + g.len[b] && di' == di + g.len[b]
    requires p in Swept(s, g, segment, low) && s.E(p).location < si'
    ensures Moved(s, g, low, u, di', p)
    ensures p == b || (s.E(p).location < si && u.E(p) == t.E(p) && t.E(p).location + LenOf(g, p) <= di)
  {
    assert OpenSweep(0);
    BlockStarts(s, g, segment, b);
    NoneBetween(s, g, segment, low, b);
    if p == b {
      forall i | 0 <= i < g.len[b]
        ensures WordOf(u, b, i) == WordOf(s, b, i)
      {
      }
    } else {
      assert Moved(s, g, low, t, di, p);
      assert t.E(p) == EntrySwept(s, g, segment, low, t, si, p);
      forall i | 0 <= i < LenOf(g, p)
        ensures WordOf(u, p, i) == WordOf(s, p, i)
      {
        assert WordOf(t, p, i) == WordOf(s, p, i);
      }
    }
  }

  // The object at si is moved to di.
  lemma {:induction false} SweepMoves(s: State, g: Layout, segment: int, low: int, t: State, frees: seq<int>, si: int,
                                      di: int, b: int, u: State, si': int, di': int)
    requires CanMove(s, g, segment, low, t, frees, si, di, b) && MovesTo(s, t, u, b, di, g.len[b]) &&
      si' == si + g.len[b] && di' == di + g.len[b]
    ensures Sweeping(s, g, segment, low, u, frees, si', di')
  {
    BlockStarts(s, g, segment, b);
    MoveWaiting(s, g, segment, low, t, frees, si, di, b, u, si');
    MoveEntries(s, g, segment, low, t, frees, si, di, b, u, si');
    forall p | p in Swept(s, g, segment, low) && s.E(p).location < si'
      ensures Moved(s, g, low, u, di', p) &&
        (p == b || (s.E(p).location < si && u.E(p) == t.E(p) && t.E(p).location + LenOf(g, p) <= di))
    {
      MoveKeeps(s, g, segment, low, t, frees, si, di, b, u, si', di', p);
    }
    MoveOrder(s, g, segment, low, t, frees, si, di, b, u, si', di');
    assert OpenSweep(0);
    var c :| c in Holes(s, g, segment) && s.E(c).location == low;
    NoneBetween(s, g, segment, low, c);
    BlockStarts(s, g, segment, c);
    assert MovedAll(s, g, segment, low, u, si', di');
  }

  lemma {:induction false} MoveOrder(s: State, g: Layout, segment: int, low: int, t: State, frees: seq<int>, si: int,
                                     di: int, b: int, u: State, si': int, di': int)
    requires CanMove(s, g, segment, low, t, frees, si, di, b) && MovesTo(s, t, u, b, di, g.len[b]) &&
      si' == si + g.len[b] && di' == di + g.len[b]
    requires forall p {:trigger p in Swept(s, g, segment, low)} ::
      p in Swept(s, g, segment, low) && s.E(p).location < si' ==>
      p == b || (s.E(p).location < si && u.E(p) == t.E(p) && t.E(p).location + LenOf(g, p) <= di)
    ensures InOrder(s, g, segment, low, u, si') && Filled(s, g, segment, low, u, si', di')
  {
    assert OpenSweep(0);
    BlockStarts(s, g, segment, b);
    forall p, q | p in Swept(s, g, segment, low) && q in Swept(s, g, segment, low) && s.E(p).location < si' &&
      s.E(q).location < si'
      ensures Before(s, g, u, p, q)
    {
      if p != b && q != b {
        assert Before(s, g, t, p, q);
      }
    }
    forall w | low <= w < di'
      ensures FilledAt(s, g, segment, low, u, si', w)
    {
      if w < di {
        assert FilledAt(s, g, segment, low, t, si, w);
        var p :| p in Swept(s, g, segment, low) && s.E(p).location < si &&
          t.E(p).location <= w < t.E(p).location + LenOf(g, p);
      } else {
        assert u.E(b).location == di;
      }
    }
  }

  // The entry and the size put: one word of the object stands at di.
  lemma {:induction false} MoveSize(s: State, g: Layout, segment: int, low: int, t: State, frees: seq<int>, si: int,
                                    di: int, b: int, u: State)
    requires CanMove(s, g, segment, low, t, frees, si, di, b)
    requires u ==
      t.(ot := Put(t.ot, b, t.E(b).(location := AsWord(di))),
      words := Put<Word>(t.words, segment * 65536 + di, SizeOf(s, b)))
    ensures MovesTo(s, t, u, b, di, 1) && SizeOf(u, b) == SizeOf(s, b) && Space(u, b) == Space(s, b) == g.len[b] &&
      InHeap(u.E(b), 0)
  {
    BlockStarts(s, g, segment, b);
    assert Sized(s, b, g.len[b]) by {
      assert OpenLayout(0);
    }
    PlacedAt(s, g, b, 0);
    assert OpenSweep(0);
    assert t.E(b) == EntrySwept(s, g, segment, low, t, si, b);
  }

  // The next word.
  lemma {:induction false} MoveMore(s: State, g: Layout, segment: int, low: int, t: State, frees: seq<int>, si: int,
                                    di: int, b: int, u: State, n: int, v: State)
    requires CanMove(s, g, segment, low, t, frees, si, di, b) && MovesTo(s, t, u, b, di, n) && 1 <= n < g.len[b]
    requires v == PutWord(u, segment * 65536 + di + n, At(u.words, segment * 65536 + si + n))
    ensures MovesTo(s, t, v, b, di, n + 1)
  {
    BlockStarts(s, g, segment, b);
    PlacedAt(s, g, b, n);
    assert OpenSweep(0);
    assert Chunk(t.words, s.E(b), n) == WordNow(s, Holes(s, g, segment), Swept(s, g, segment, low), b, n);
    assert forall q :: v.E(q) == u.E(q);
    var to := segment * 65536 + di + n;
    assert At(u.words, segment * 65536 + si + n) == WordOf(s, b, n);
    assert 0 <= to < |u.words|;
    forall a
      ensures At(v.words, a) == if a == to then WordOf(s, b, n) else At(u.words, a)
    {
    }
  }

  lemma {:induction false} MoveBounds(s: State, g: Layout, segment: int, low: int, t: State, frees: seq<int>, si: int,
                                      di: int, b: int)
    requires CanMove(s, g, segment, low, t, frees, si, di, b)
    ensures 0 <= di <= si < si + g.len[b] <= HEAP_SPACE_STOP + 1 && InTable(b) && Oop(b) && 2 <= g.len[b]
    ensures t.E(b) == s.E(b).(location := SizeOf(s, b)) && s.E(b).segment == segment < HEAP_SEGMENT_COUNT
  {
    BlockStarts(s, g, segment, b);
    assert OpenSweep(0);
    assert t.E(b) == EntrySwept(s, g, segment, low, t, si, b);
  }

  method MoveObject(om: ObjectMemory, source: int, destination: int, ghost s: State, ghost g: Layout, ghost low: int,
                    ghost frees: seq<int>, ghost b: int)
    returns (si: int, di: int)
    requires om.Valid() && 0 <= om.currentSegment < HEAP_SEGMENT_COUNT
    requires CanMove(s, g, om.currentSegment, low, om.st, frees, source, destination, b)
    requires At(om.st.words, om.currentSegment * 65536 + source) == b
    modifies om`st, om.mem
    ensures om.Valid() && si == source + g.len[b] && di == destination + g.len[b]
    ensures Sweeping(s, g, om.currentSegment, low, om.st, frees, si, di)
  {
    ghost var t, segment := om.st, om.currentSegment;
    MoveBounds(s, g, segment, low, t, frees, source, destination, b);
    si, di := source, destination;
    var p := om.SegmentWord(om.currentSegment, si);
    var size := om.LocationBitsOf(p);
    om.LocationBitsPut(p, di);
    om.SizeBitsPut(p, size);
    MoveSize(s, g, segment, low, t, frees, source, destination, b, om.st);
    si := si + 1;
    di := di + 1;
    var limit := om.SpaceOccupiedBy(p);
    for i := 2 to limit + 1
      invariant om.Valid() && om.currentSegment == segment
      invariant si == source + i - 1 && di == destination + i - 1
      invariant MovesTo(s, t, om.st, b, destination, i - 1)
    {
      ghost var u := om.st;
      var w := om.SegmentWord(om.currentSegment, si);
      om.SegmentWordPut(om.currentSegment, di, w);
      MoveMore(s, g, segment, low, t, frees, source, destination, b, u, i - 1, om.st);
      si := si + 1;
      di := di + 1;
    }
    SweepMoves(s, g, segment, low, t, frees, source, destination, b, om.st, si, di);
  }

  lemma {:induction false} SweepBounds(s: State, g: Layout, segment: int, low: int, t: State, frees: seq<int>, si: int,
                                       di: int)
    requires Sweeping(s, g, segment, low, t, frees, si, di)
    ensures 0 <= low <= di <= si <= HEAP_SPACE_STOP + 1 && t.currentSegment == s.currentSegment
  {
    assert OpenSweep(0);
  }

  // The chunk b stands at si in the sweep.
  ghost predicate AtBlock(s: State, g: Layout, segment: int, low: int, t: State, frees: seq<int>, si: int, di: int,
                          b: int) {
    forall k {:trigger OpenBlock(k)} :: OpenBlock(k) ==>
      LaidOut(s, g) && Sweeping(s, g, segment, low, t, frees, si, di) &&
      b in g.len && s.E(b).segment == segment && s.E(b).location == si && Placed(s, b, g.len[b]) &&
      (At(t.words, segment * 65536 + si + 1) == NON_POINTER <==> b in Holes(s, g, segment)) &&
      (b in Holes(s, g, segment) ==> At(t.words, segment * 65536 + si) == g.len[b]) &&
      (b !in Holes(s, g, segment) ==> b in Swept(s, g, segment, low) && At(t.words, segment * 65536 + si) == b)
  }

  ghost predicate OpenBlock(k: int) {
    true
  }

  lemma {:induction false} SweepMeets(s: State, g: Layout, segment: int, low: int, t: State, frees: seq<int>, si: int,
                                      di: int)
    returns (b: int)
    requires LaidOut(s, g) && Tiled(s, g) && ClassesAreObjects(s, g) && Sweeping(s, g, segment, low, t, frees, si, di)
    requires 0 <= segment < HEAP_SEGMENT_COUNT && si < HEAP_SPACE_STOP
    ensures 0 <= di <= si && AtBlock(s, g, segment, low, t, frees, si, di, b)
  {
    SweepBounds(s, g, segment, low, t, frees, si, di);
    b := SweepReads(s, g, segment, low, t, frees, si, di);
  }

  lemma {:induction false} BlockIsHole(s: State, g: Layout, segment: int, low: int, t: State, frees: seq<int>, si: int,
                                       di: int, b: int)
    requires AtBlock(s, g, segment, low, t, frees, si, di, b) && At(t.words, segment * 65536 + si + 1) == NON_POINTER
    ensures var size := At(t.words, segment * 65536 + si);
      0 < size && Sweeping(s, g, segment, low, t, frees, si + size, di)
  {
    assert OpenBlock(0);
    SweepSkips(s, g, segment, low, t, frees, si, di, b, si + g.len[b]);
  }

  lemma {:induction false} BlockIsObject(s: State, g: Layout, segment: int, low: int, t: State, frees: seq<int>,
                                         si: int, di: int, b: int)
    requires AtBlock(s, g, segment, low, t, frees, si, di, b) && At(t.words, segment * 65536 + si + 1) != NON_POINTER
    ensures CanMove(s, g, segment, low, t, frees, si, di, b) && 0 < g.len[b] && At(t.words, segment * 65536 + si) == b
  {
    assert OpenBlock(0);
  }

  // The chunk at si: an abandoned chunk is passed over, an object moved.
  method SweepOne(om: ObjectMemory, source: int, destination: int, ghost low: int, ghost s: State, ghost g: Layout,
                  ghost frees: seq<int>)
    returns (si: int, di: int)
    requires om.Valid() && LaidOut(s, g) && Tiled(s, g) && ClassesAreObjects(s, g) &&
      0 <= om.currentSegment < HEAP_SEGMENT_COUNT
    requires Sweeping(s, g, om.currentSegment, low, om.st, frees, source, destination) && source < HEAP_SPACE_STOP
    modifies om`st, om.mem
    ensures om.Valid() && source < si
    ensures Sweeping(s, g, om.currentSegment, low, om.st, frees, si, di)
  {
    ghost var b := SweepMeets(s, g, om.currentSegment, low, om.st, frees, source, destination);
    si, di := source, destination;
    var class_ := om.SegmentWord(om.currentSegment, si + 1);
    if class_ == NON_POINTER {
      BlockIsHole(s, g, om.currentSegment, low, om.st, frees, si, di, b);
      var size := om.SegmentWord(om.currentSegment, si);
      si := si + size;
    } else {
      BlockIsObject(s, g, om.currentSegment, low, om.st, frees, si, di, b);
      si, di := MoveObject(om, source, destination, s, g, low, frees, b);
    }
  }

  method SweepCurrentSegmentFrom(om: ObjectMemory, lowWaterMark: int, ghost s: State, ghost g: Layout,
                                 ghost frees: seq<int>)
    returns (di: int, ghost end: int)
    requires om.Valid() && LaidOut(s, g) && Tiled(s, g) && ClassesAreObjects(s, g) &&
      0 <= om.currentSegment < HEAP_SEGMENT_COUNT
    requires Sweeping(s, g, om.currentSegment, lowWaterMark, om.st, frees, lowWaterMark, lowWaterMark)
    modifies om`st, om.mem
    ensures om.Valid() && HEAP_SPACE_STOP <= end
    ensures Sweeping(s, g, om.currentSegment, lowWaterMark, om.st, frees, end, di)
  {
    ghost var segment := om.currentSegment;
    var si := lowWaterMark;
    di := lowWaterMark;
    while si < HEAP_SPACE_STOP
      invariant om.Valid() && om.currentSegment == segment
      invariant Sweeping(s, g, segment, lowWaterMark, om.st, frees, si, di)
      decreases HEAP_SPACE_STOP - si
    {
      si, di := SweepOne(om, si, di, lowWaterMark, s, g, frees);
    }
    end := si;
  }

  // What is left of the segment becomes one free chunk

  // The sweep is over.
  ghost predicate SweepDone(s: State, g: Layout, segment: int, low: int, t: State, frees: seq<int>, end: int, di: int) {
    LaidOut(s, g) && Tiled(s, g) && Sweeping(s, g, segment, low, t, frees, end, di) && HEAP_SPACE_STOP <= end &&
    0 <= segment < HEAP_SEGMENT_COUNT && s.currentSegment == segment
  }

  // There is room for a free chunk, and an entry for it.
  lemma {:induction false} RoomLeft(s: State, g: Layout, segment: int, low: int, t: State, frees: seq<int>, end: int,
                                    di: int)
    requires SweepDone(s, g, segment, low, t, frees, end, di)
    ensures 0 <= low <= di <= HEAP_SPACE_STOP - 1 && t.currentSegment == segment && |t.words| == HEAP_WORDS &&
      |t.ot| == OBJECT_TABLE_SIZE
    ensures Frees(t, frees) && frees != [] && Oop(frees[0]) && t.E(frees[0]).free == 1 && frees[0] !in g.alloc
    ensures |frees| == |g.frees| + |Holes(s, g, segment)|
  {
    assert OpenSweep(0);
    var c :| c in Holes(s, g, segment) && s.E(c).location == low;
    BlockStarts(s, g, segment, c);
    PlacedAt(s, g, c, 0);
    assert |Holes(s, g, segment)| > 0;
    assert t.E(frees[0]) == EntrySwept(s, g, segment, low, t, end, frees[0]);
    if frees[0] in g.alloc {
      AllocOops(s, g);
      PlacedAt(s, g, frees[0], 0) by {
        assert OpenLayout(0);
      }
    }
  }

  // The objects after the sweep.
  lemma {:induction false} SettledObject(s: State, g: Layout, segment: int, low: int, t: State, frees: seq<int>,
                                         end: int, di: int, p: int)
    requires SweepDone(s, g, segment, low, t, frees, end, di) && p in g.alloc
    ensures p in g.len && Placed(s, p, g.len[p]) && Sized(s, p, g.len[p])
    ensures t.E(p) == s.E(p).(location := t.E(p).location) && t.E(p).location <= s.E(p).location
    ensures s.E(p).segment != segment || s.E(p).location < low ==> t.E(p) == s.E(p)
    ensures s.E(p).segment == segment ==>
      t.E(p).location + g.len[p] <= di && (s.E(p).location >= low ==> low <= t.E(p).location)
    ensures forall i {:trigger WordOf(t, p, i)} :: 0 <= i < g.len[p] ==> WordOf(t, p, i) == WordOf(s, p, i)
  {
    assert p in g.len && Placed(s, p, g.len[p]) && Sized(s, p, g.len[p]) by {
      assert OpenLayout(0);
    }
    assert OpenSweep(0);
    assert t.E(p) == EntrySwept(s, g, segment, low, t, end, p);
    if p in Swept(s, g, segment, low) {
      assert Moved(s, g, low, t, di, p);
    } else {
      forall i | 0 <= i < g.len[p]
        ensures WordOf(t, p, i) == WordOf(s, p, i)
      {
        assert Chunk(t.words, s.E(p), i) == WordNow(s, Holes(s, g, segment), Swept(s, g, segment, low), p, i);
      }
    }
  }

  // The free chunks of the other segments.
  lemma {:induction false} SettledChunk(s: State, g: Layout, segment: int, low: int, t: State, frees: seq<int>,
                                        end: int, di: int, p: int)
    requires SweepDone(s, g, segment, low, t, frees, end, di) && p in g.len && p !in g.alloc &&
      s.E(p).segment != segment
    ensures Placed(s, p, g.len[p]) && t.E(p) == s.E(p)
    ensures forall i {:trigger WordOf(t, p, i)} :: 0 <= i < g.len[p] ==> WordOf(t, p, i) == WordOf(s, p, i)
  {
    assert Placed(s, p, g.len[p]) by {
      assert OpenLayout(0);
    }
    assert OpenSweep(0);
    assert t.E(p) == EntrySwept(s, g, segment, low, t, end, p);
    forall i | 0 <= i < g.len[p]
      ensures WordOf(t, p, i) == WordOf(s, p, i)
    {
      assert Chunk(t.words, s.E(p), i) == WordNow(s, Holes(s, g, segment), Swept(s, g, segment, low), p, i);
    }
  }

  lemma {:induction false} NoHoleBelow(s: State, g: Layout, segment: int, low: int, t: State, frees: seq<int>, end: int,
                                       di: int, p: int)
    requires SweepDone(s, g, segment, low, t, frees, end, di) && p in g.len && s.E(p).segment == segment &&
      s.E(p).location < low
    ensures p in g.alloc
  {
    assert OpenSweep(0);
    assert p !in Holes(s, g, segment);
  }

  // Two objects of the segment stay in order and apart.
  lemma {:induction false} SettledApart(s: State, g: Layout, segment: int, low: int, t: State, frees: seq<int>,
                                        end: int, di: int, p: int, q: int)
    requires SweepDone(s, g, segment, low, t, frees, end, di) && p in g.alloc && q in g.alloc
    requires s.E(p).segment == segment == s.E(q).segment && s.E(p).location < s.E(q).location
    ensures t.E(p).location + LenOf(g, p) <= t.E(q).location
  {
    SettledObject(s, g, segment, low, t, frees, end, di, p);
    SettledObject(s, g, segment, low, t, frees, end, di, q);
    assert OpenSweep(0);
    if s.E(p).location >= low {
      assert Before(s, g, t, p, q);
    } else {
      assert Separate(s, p, g.len[p], q, g.len[q]) by {
        assert OpenLayout(0);
      }
      assert Boundary(s, g, segment, low) && p in g.len;
    }
  }

  ghost function Remade(t: State, n: int, size: Word, di: Word): State {
    Deallocated(Obtained(t, n, size, di), n)
  }

  ghost function RemadeLayout(s: State, g: Layout, segment: int, n: int, size: nat, frees: seq<int>): Layout
    requires frees != []
  {
    Layout(g.alloc,
           (map p | p in g.len && p !in Holes(s, g, segment) :: g.len[p])[n := size],
           map a | a in g.lists ::
             if a / 65536 != segment then g.lists[a] else if a == HeadFor(size, segment) then [n] else [],
           frees[1..])
  }

  lemma {:induction false} RemadeWords(s: State, g: Layout, segment: int, low: int, t: State, frees: seq<int>, end: int,
                                       di: int, size: Word)
    requires SweepDone(s, g, segment, low, t, frees, end, di) && size == HEAP_SPACE_STOP + 1 - di
    ensures 0 <= di < 65536 && frees != []
    ensures var u, n, h := Remade(t, frees[0], size, di), frees[0], HeadFor(size, segment);
      && IsHead(h) && SameSizes(t, u) && u.freeHead == t.E(n).location
      && (forall q {:trigger u.E(q)} :: u.E(q) == if q == n then Cleared(segment, di) else t.E(q))
      && (forall a {:trigger At(u.words, a)} :: At(u.words, a) ==
            if a == h then AsWord(n) else if a == segment * 65536 + di + 1 then NON_POINTER
            else if a == segment * 65536 + di then size else At(t.words, a))
  {
    RoomLeft(s, g, segment, low, t, frees, end, di);
    var n, h := frees[0], HeadFor(size, segment);
    var t1 := Obtained(t, n, size, di);
    HeadForIsHead(size, segment);
    NoHeadBelow(segment, di);
    NoHeadBelow(segment, di + 1);
    assert t1.E(n) == Cleared(segment, di);
    assert SizeOf(t1, n) == size && Space(t1, n) == size;
    assert At(t1.words, h) == At(t.words, h);
    assert At(t.words, h) == NON_POINTER by {
      assert OpenSweep(0);
      assert HeadsNow(s, t.words, segment, BIG_SIZE + 1);
    }
  }

  // u and g' are what the compaction leaves.
  ghost predicate IsRemade(s: State, g: Layout, segment: int, low: int, t: State, frees: seq<int>, end: int, di: int,
                           size: Word, u: State, g': Layout) {
    SweepDone(s, g, segment, low, t, frees, end, di) && size == HEAP_SPACE_STOP + 1 - di && frees != [] &&
      0 <= di < 65536 &&
    u == Remade(t, frees[0], size, di) && g' == RemadeLayout(s, g, segment, frees[0], size, frees)
  }

  lemma {:induction false} RemadeObject(s: State, g: Layout, segment: int, low: int, t: State, frees: seq<int>,
                                        end: int, di: int, size: Word, u: State, g': Layout, p: int)
    requires IsRemade(s, g, segment, low, t, frees, end, di, size, u, g') && p in g.alloc
    ensures p in g.len && p in g'.len && g'.len[p] == g.len[p] && p != frees[0] && Placed(s, p, g.len[p])
    ensures u.E(p) == s.E(p).(location := u.E(p).location) && u.E(p).location <= s.E(p).location
    ensures s.E(p).segment != segment || s.E(p).location < low ==> u.E(p) == s.E(p)
    ensures s.E(p).segment == segment ==> u.E(p).location + g.len[p] <= di
    ensures forall i {:trigger WordOf(u, p, i)} :: 0 <= i < g.len[p] ==> WordOf(u, p, i) == WordOf(s, p, i)
    ensures Sized(u, p, g.len[p])
  {
    RoomLeft(s, g, segment, low, t, frees, end, di);
    RemadeWords(s, g, segment, low, t, frees, end, di, size);
    SettledObject(s, g, segment, low, t, frees, end, di, p);
    assert u.E(p) == t.E(p);
    forall i | 0 <= i < g.len[p]
      ensures WordOf(u, p, i) == WordOf(s, p, i)
    {
      assert WordOf(t, p, i) == WordOf(s, p, i);
      NoHeadBelow(t.E(p).segment, t.E(p).location + i);
    }
    SameSize(s, u, p, g.len[p]);
  }

  lemma {:induction false} SameSize(s: State, u: State, p: int, n: nat)
    requires Sized(s, p, n) && u.E(p).pointer == s.E(p).pointer && HEADER_SIZE <= n
    requires forall i {:trigger WordOf(u, p, i)} :: 0 <= i < n ==> WordOf(u, p, i) == WordOf(s, p, i)
    ensures Sized(u, p, n) && LastPointer(u, p) == LastPointer(s, p) && SizeOf(u, p) == SizeOf(s, p) &&
      ClassOf(u, p) == ClassOf(s, p)
  {
    assert SizeOf(u, p) == WordOf(u, p, 0) && ClassOf(u, p) == WordOf(u, p, 1);
  }

  lemma {:induction false} RemadeChunk(s: State, g: Layout, segment: int, low: int, t: State, frees: seq<int>, end: int,
                                       di: int, size: Word, u: State, g': Layout, p: int)
    requires IsRemade(s, g, segment, low, t, frees, end, di, size, u, g') && p in g.len && p !in g.alloc &&
      s.E(p).segment != segment
    ensures p in g'.len && g'.len[p] == g.len[p] && p != frees[0] && u.E(p) == s.E(p) && Placed(s, p, g.len[p])
    ensures SizeOf(u, p) == SizeOf(s, p) && ClassOf(u, p) == ClassOf(s, p)
  {
    RoomLeft(s, g, segment, low, t, frees, end, di);
    RemadeWords(s, g, segment, low, t, frees, end, di, size);
    SettledChunk(s, g, segment, low, t, frees, end, di, p);
    assert u.E(p) == t.E(p);
    assert WordOf(t, p, 0) == WordOf(s, p, 0) && WordOf(t, p, 1) == WordOf(s, p, 1);
    NoHeadBelow(t.E(p).segment, t.E(p).location);
    NoHeadBelow(t.E(p).segment, t.E(p).location + 1);
  }

  // The new chunk.
  lemma {:induction false} RemadeNew(s: State, g: Layout, segment: int, low: int, t: State, frees: seq<int>, end: int,
                                     di: int, size: Word, u: State, g': Layout)
    requires IsRemade(s, g, segment, low, t, frees, end, di, size, u, g')
    ensures var n := frees[0];
      && n in g'.len && g'.len[n] == size && n !in g.alloc && Placed(u, n, size) && u.E(n) == Cleared(segment, di)
      && SizeOf(u, n) == size && ClassOf(u, n) == NON_POINTER && n !in g.alloc
      && HeadFor(size, segment) in g.lists && At(u.words, HeadFor(size, segment)) == n
  {
    RoomLeft(s, g, segment, low, t, frees, end, di);
    RemadeWords(s, g, segment, low, t, frees, end, di, size);
    NoHeadBelow(segment, di);
    NoHeadBelow(segment, di + 1);
    assert IsHead(HeadFor(size, segment));
    assert OpenLayout(0);
  }

  lemma {:induction false} RemadeSeparate(s: State, g: Layout, segment: int, low: int, t: State, frees: seq<int>,
                                          end: int, di: int, size: Word, u: State, g': Layout, p: int, q: int)
    requires IsRemade(s, g, segment, low, t, frees, end, di, size, u, g') && p in g'.len && q in g'.len && p != q &&
      q != frees[0]
    ensures Separate(u, p, g'.len[p], q, g'.len[q])
  {
    RoomLeft(s, g, segment, low, t, frees, end, di);
    RemadeNew(s, g, segment, low, t, frees, end, di, size, u, g');
    assert q in g.len && q !in Holes(s, g, segment);
    if q in g.alloc {
      RemadeObject(s, g, segment, low, t, frees, end, di, size, u, g', q);
    } else {
      RemadeChunk(s, g, segment, low, t, frees, end, di, size, u, g', q);
    }
    if p != frees[0] {
      if p in g.alloc {
        RemadeObject(s, g, segment, low, t, frees, end, di, size, u, g', p);
      } else {
        RemadeChunk(s, g, segment, low, t, frees, end, di, size, u, g', p);
      }
      assert Separate(s, p, g.len[p], q, g.len[q]) by {
        assert OpenLayout(0);
      }
      if s.E(p).segment == segment == s.E(q).segment {
        RemadeWords(s, g, segment, low, t, frees, end, di, size);
        assert u.E(p) == t.E(p) && u.E(q) == t.E(q);
        if s.E(p).location < s.E(q).location {
          SettledApart(s, g, segment, low, t, frees, end, di, p, q);
        } else {
          SettledApart(s, g, segment, low, t, frees, end, di, q, p);
        }
      }
    }
  }

  lemma {:induction false} RemadeChunks(s: State, g: Layout, segment: int, low: int, t: State, frees: seq<int>,
                                        end: int, di: int, size: Word, u: State, g': Layout)
    requires IsRemade(s, g, segment, low, t, frees, end, di, size, u, g')
    ensures Chunks(u, g')
  {
    RemadeNew(s, g, segment, low, t, frees, end, di, size, u, g');
    forall p | p in g'.len
      ensures Placed(u, p, g'.len[p])
    {
      if p in g.alloc {
        RemadeObject(s, g, segment, low, t, frees, end, di, size, u, g', p);
      } else if p != frees[0] {
        RemadeChunk(s, g, segment, low, t, frees, end, di, size, u, g', p);
      }
    }
    forall p, q | p in g'.len && q in g'.len && p != q
      ensures Separate(u, p, g'.len[p], q, g'.len[q])
    {
      if q != frees[0] {
        RemadeSeparate(s, g, segment, low, t, frees, end, di, size, u, g', p, q);
      } else {
        RemadeSeparate(s, g, segment, low, t, frees, end, di, size, u, g', q, p);
      }
    }
  }

  lemma {:induction false} RemadeLinked(s: State, g: Layout, segment: int, low: int, t: State, frees: seq<int>,
                                        end: int, di: int, size: Word, u: State, g': Layout, a: int)
    requires IsRemade(s, g, segment, low, t, frees, end, di, size, u, g') && a in g'.lists
    ensures Linked(u, a, g'.lists[a]) && IsHead(a)
    ensures forall i {:trigger g'.lists[a][i]} :: 0 <= i < |g'.lists[a]| ==> OnList(u, g', a, g'.lists[a][i])
  {
    assert IsHead(a) && Linked(s, a, g.lists[a]) by {
      assert OpenLayout(0);
    }
    RoomLeft(s, g, segment, low, t, frees, end, di);
    RemadeNew(s, g, segment, low, t, frees, end, di, size, u, g');
    RemadeWords(s, g, segment, low, t, frees, end, di, size);
    NoHeadBelow(segment, di);
    NoHeadBelow(segment, di + 1);
    HeadForIsHead(size, segment);
    assert At(t.words, a) == if a / 65536 == segment then NON_POINTER else At(s.words, a) by {
      assert OpenSweep(0);
    }
    if a / 65536 != segment {
      forall i | 0 <= i < |g.lists[a]|
        ensures OnList(u, g', a, g.lists[a][i]) && ClassOf(u, g.lists[a][i]) == Next(g.lists[a], i + 1)
      {
        ListMember(s, g, a, i);
        RemadeChunk(s, g, segment, low, t, frees, end, di, size, u, g', g.lists[a][i]);
      }
    }
  }

  lemma {:induction false} RemadeOnce(g: Layout, g': Layout, segment: int, h: int, n: int, a: int, b: int, i: int,
                                      j: int)
    requires forall a, b, i, j {:trigger g.lists[a][i], g.lists[b][j]} ::
       (a in g.lists && b in g.lists && 0 <= i < |g.lists[a]| && 0 <= j < |g.lists[b]| &&
         g.lists[a][i] == g.lists[b][j])
       ==> a == b && i == j
    requires g'.lists == map a | a in g.lists :: if a / 65536 != segment then g.lists[a] else if a == h then [n] else []
    requires a in g'.lists && b in g'.lists && 0 <= i < |g'.lists[a]| && 0 <= j < |g'.lists[b]| &&
      g'.lists[a][i] == g'.lists[b][j]
    requires a / 65536 == b / 65536
    ensures a == b && i == j
  {
    if a / 65536 != segment {
      assert g.lists[a][i] == g.lists[b][j];
    }
  }

  lemma {:induction false} RemadeLists(s: State, g: Layout, segment: int, low: int, t: State, frees: seq<int>, end: int,
                                       di: int, size: Word, u: State, g': Layout)
    requires IsRemade(s, g, segment, low, t, frees, end, di, size, u, g')
    ensures Lists(u, g')
  {
    RoomLeft(s, g, segment, low, t, frees, end, di);
    forall a | a in g'.lists
      ensures Linked(u, a, g'.lists[a]) && IsHead(a)
      ensures forall i {:trigger g'.lists[a][i]} :: 0 <= i < |g'.lists[a]| ==> OnList(u, g', a, g'.lists[a][i])
    {
      RemadeLinked(s, g, segment, low, t, frees, end, di, size, u, g', a);
    }
    assert Lists(s, g) by {
      assert OpenLayout(0);
    }
    forall a, b, i, j | a in g'.lists && b in g'.lists && 0 <= i < |g'.lists[a]| && 0 <= j < |g'.lists[b]| &&
      g'.lists[a][i] == g'.lists[b][j]
      ensures a == b && i == j
    {
      assert OnList(u, g', a, g'.lists[a][i]) && OnList(u, g', b, g'.lists[b][j]);
      RemadeOnce(g, g', segment, HeadFor(size, segment), frees[0], a, b, i, j);
    }
  }

  lemma {:induction false} RemadeListed(s: State, g: Layout, segment: int, low: int, t: State, frees: seq<int>,
                                        end: int, di: int, size: Word, u: State, g': Layout)
    requires IsRemade(s, g, segment, low, t, frees, end, di, size, u, g')
    ensures AllListed(g', {})
  {
    RemadeNew(s, g, segment, low, t, frees, end, di, size, u, g');
    HeadForIsHead(size, segment);
    forall p | p in g'.len && p !in g'.alloc
      ensures Listed(g', p)
    {
      if p == frees[0] {
        assert g'.lists[HeadFor(size, segment)][0] == p;
      } else {
        assert Listed(g, p) by {
          assert OpenLayout(0);
        }
        var a, i :| a in g.lists && 0 <= i < |g.lists[a]| && g.lists[a][i] == p;
        ListMember(s, g, a, i);
        assert g'.lists[a][i] == p;
      }
    }
  }

  lemma {:induction false} RemadeTiled(s: State, g: Layout, segment: int, low: int, t: State, frees: seq<int>, end: int,
                                       di: int, size: Word, u: State, g': Layout)
    requires IsRemade(s, g, segment, low, t, frees, end, di, size, u, g')
    ensures Tiled(u, g')
  {
    RoomLeft(s, g, segment, low, t, frees, end, di);
    RemadeNew(s, g, segment, low, t, frees, end, di, size, u, g');
    RemadeWords(s, g, segment, low, t, frees, end, di, size);
    forall seg, w | 0 <= seg < HEAP_SEGMENT_COUNT && 0 <= w < HEAP_SPACE_STOP
      ensures InChunk(u, g', seg, w)
    {
      if seg == segment && w >= di {
        assert frees[0] in g'.len;
      } else if seg == segment && w >= low {
        assert FilledAt(s, g, segment, low, t, end, w) by {
          assert OpenSweep(0);
        }
        var p :| p in Swept(s, g, segment, low) && s.E(p).location < end &&
          t.E(p).location <= w < t.E(p).location + LenOf(g, p);
        RemadeObject(s, g, segment, low, t, frees, end, di, size, u, g', p);
        assert u.E(p) == t.E(p) && p in g'.len;
      } else {
        assert InChunk(s, g, seg, w);
        var p :| p in g.len && s.E(p).segment == seg && s.E(p).location <= w < s.E(p).location + g.len[p];
        if seg == segment {
          NoHoleBelow(s, g, segment, low, t, frees, end, di, p);
        }
        if p in g.alloc {
          RemadeObject(s, g, segment, low, t, frees, end, di, size, u, g', p);
        } else {
          RemadeChunk(s, g, segment, low, t, frees, end, di, size, u, g', p);
        }
      }
    }
  }

  // p, through its entry, is what it was: same size, class, words and flags.
  ghost predicate Carried(s: State, g: Layout, u: State, g': Layout, p: int) {
    p in g.len && p in g'.len && g'.len[p] == g.len[p] && u.E(p) == s.E(p).(location := u.E(p).location) &&
    forall i {:trigger WordOf(u, p, i)} :: 0 <= i < g.len[p] ==> WordOf(u, p, i) == WordOf(s, p, i)
  }

  // p has not moved up, and not at all below the first free chunk or in another segment.
  ghost predicate Settled(s: State, g: Layout, segment: int, u: State, p: int) {
    u.E(p).location <= s.E(p).location &&
    (s.E(p).segment != segment ==> u.E(p) == s.E(p)) &&
    ((forall c :: c in Holes(s, g, segment) ==> s.E(p).location < s.E(c).location) ==> u.E(p) == s.E(p))
  }

  // n is the only free chunk of the segment, at its top, and on its list.
  ghost predicate TopChunk(u: State, g': Layout, segment: int, n: int) {
    Holes(u, g', segment) == {n} && n in g'.len && HEADER_SIZE <= g'.len[n] && u.E(n).pointer == 0 &&
      u.E(n).location + g'.len[n] == HEAP_SPACE_STOP + 1 &&
    forall size {:trigger ListFor(g', size, segment)} :: HEADER_SIZE <= size <= BIG_SIZE ==>
      ListFor(g', size, segment) == if size == Min(g'.len[n], BIG_SIZE) then [n] else []
  }

  // The other segments are as they were.
  ghost predicate Elsewhere(s: State, g: Layout, segment: int, u: State, g': Layout) {
    (forall p {:trigger p in g.len} :: p in g.len && s.E(p).segment != segment ==>
      p in g'.len && g'.len[p] == g.len[p] && u.E(p) == s.E(p)) &&
    (forall p {:trigger p in g'.len} :: p in g'.len && u.E(p).segment != segment ==>
      p in g.len && s.E(p).segment != segment) &&
    (forall a {:trigger g'.lists[a]} :: a in g.lists && a / 65536 != segment ==>
      a in g'.lists && g'.lists[a] == g.lists[a])
  }

  ghost predicate Compacted(s: State, g: Layout, segment: int, u: State, g': Layout) {
    forall k {:trigger OpenSweep(k)} :: OpenSweep(k) ==> CompactedUnfolded(s, g, segment, u, g')
  }

  ghost predicate CompactedUnfolded(s: State, g: Layout, segment: int, u: State, g': Layout) {
    LaidOut(u, g') && Tiled(u, g') && g'.alloc == g.alloc && SameSizes(s, u) && Elsewhere(s, g, segment, u, g') &&
    (forall p {:trigger u.E(p)} :: p in g.alloc ==> Carried(s, g, u, g', p) && Settled(s, g, segment, u, p)) &&
    (forall p, q {:trigger Before(s, g, u, p, q)} ::
      p in g.alloc && q in g.alloc && s.E(p).segment == segment == s.E(q).segment ==>
       Before(s, g, u, p, q)) &&
    |g'.frees| == |g.frees| + |Holes(s, g, segment)| - (if Holes(s, g, segment) == {} then 0 else 1) &&
    (if Holes(s, g, segment) == {} then g' == g && Holes(u, g', segment) == {} else exists n ::
      TopChunk(u, g', segment, n))
  }

  lemma {:induction false} RemadeLaidOut(s: State, g: Layout, segment: int, low: int, t: State, frees: seq<int>,
                                         end: int, di: int, size: Word, u: State, g': Layout)
    requires IsRemade(s, g, segment, low, t, frees, end, di, size, u, g')
    ensures LaidOut(u, g')
  {
    RoomLeft(s, g, segment, low, t, frees, end, di);
    RemadeWords(s, g, segment, low, t, frees, end, di, size);
    RemadeChunks(s, g, segment, low, t, frees, end, di, size, u, g');
    RemadeLists(s, g, segment, low, t, frees, end, di, size, u, g');
    RemadeListed(s, g, segment, low, t, frees, end, di, size, u, g');
    FreesPop(t, frees, u);
    forall p | p in g.alloc
      ensures p in g'.len && Sized(u, p, g'.len[p])
    {
      RemadeObject(s, g, segment, low, t, frees, end, di, size, u, g', p);
    }
    forall p | Oop(p) && u.E(p).free == 0
      ensures p in g'.len
    {
      InUse(s, g, segment, low, t, frees, end, di, p);
    }
  }

  // Every entry in use but the abandoned chunks' is in use after the sweep, and no other.
  lemma {:induction false} InUse(s: State, g: Layout, segment: int, low: int, t: State, frees: seq<int>, end: int,
                                 di: int, p: int)
    requires SweepDone(s, g, segment, low, t, frees, end, di) && Oop(p)
    ensures t.E(p).free == 0 ==> p in g.len && p !in Holes(s, g, segment)
  {
    assert s.E(p).free == 0 ==> p in g.len by {
      assert OpenLayout(0);
    }
    assert OpenSweep(0);
    assert t.E(p) == EntrySwept(s, g, segment, low, t, end, p);
  }

  lemma {:induction false} RemadeElsewhere(s: State, g: Layout, segment: int, low: int, t: State, frees: seq<int>,
                                           end: int, di: int, size: Word, u: State, g': Layout)
    requires IsRemade(s, g, segment, low, t, frees, end, di, size, u, g')
    ensures Elsewhere(s, g, segment, u, g')
  {
    RemadeNew(s, g, segment, low, t, frees, end, di, size, u, g');
    forall p | p in g.len && s.E(p).segment != segment
      ensures p in g'.len && g'.len[p] == g.len[p] && u.E(p) == s.E(p)
    {
      if p in g.alloc {
        RemadeObject(s, g, segment, low, t, frees, end, di, size, u, g', p);
      } else {
        RemadeChunk(s, g, segment, low, t, frees, end, di, size, u, g', p);
      }
    }
    forall p | p in g'.len && u.E(p).segment != segment
      ensures p in g.len && s.E(p).segment != segment
    {
      if p in g.alloc {
        RemadeObject(s, g, segment, low, t, frees, end, di, size, u, g', p);
      }
    }
  }

  lemma {:induction false} RemadeTop(s: State, g: Layout, segment: int, low: int, t: State, frees: seq<int>, end: int,
                                     di: int, size: Word, u: State, g': Layout)
    requires IsRemade(s, g, segment, low, t, frees, end, di, size, u, g')
    ensures TopChunk(u, g', segment, frees[0])
  {
    RoomLeft(s, g, segment, low, t, frees, end, di);
    RemadeNew(s, g, segment, low, t, frees, end, di, size, u, g');
    forall p
      ensures p in Holes(u, g', segment) <==> p == frees[0]
    {
      if p in g'.len && p !in g.alloc && p != frees[0] {
        RemadeChunk(s, g, segment, low, t, frees, end, di, size, u, g', p);
      }
    }
    forall size' | HEADER_SIZE <= size' <= BIG_SIZE
      ensures ListFor(g', size', segment) == if size' == Min(size, BIG_SIZE) then [frees[0]] else []
    {
      var a := HeadAddress(size', segment);
      assert IsHead(a) && a / 65536 == segment;
      assert a in g.lists by {
        assert OpenLayout(0);
      }
    }
  }

  lemma {:induction false} RemadeCompacted(s: State, g: Layout, segment: int, low: int, t: State, frees: seq<int>,
                                           end: int, di: int, size: Word, u: State, g': Layout)
    requires IsRemade(s, g, segment, low, t, frees, end, di, size, u, g')
    ensures Compacted(s, g, segment, u, g')
  {
    RoomLeft(s, g, segment, low, t, frees, end, di);
    RemadeLaidOut(s, g, segment, low, t, frees, end, di, size, u, g');
    RemadeTiled(s, g, segment, low, t, frees, end, di, size, u, g');
    RemadeElsewhere(s, g, segment, low, t, frees, end, di, size, u, g');
    RemadeTop(s, g, segment, low, t, frees, end, di, size, u, g');
    RemadeWords(s, g, segment, low, t, frees, end, di, size);
    var c := HoleFound(s, g, segment, low, t, frees, end, di);
    forall p | p in g.alloc
      ensures Carried(s, g, u, g', p) && Settled(s, g, segment, u, p) && u.E(p) == t.E(p)
    {
      RemadeObject(s, g, segment, low, t, frees, end, di, size, u, g', p);
    }
    forall p, q | p in g.alloc && q in g.alloc && s.E(p).segment == segment == s.E(q).segment
      ensures Before(s, g, u, p, q)
    {
      if s.E(p).location < s.E(q).location {
        SettledApart(s, g, segment, low, t, frees, end, di, p, q);
        assert u.E(p) == t.E(p) && u.E(q) == t.E(q);
      }
    }
    assert SameSizes(s, u) by {
      assert OpenSweep(0);
    }
  }

  lemma {:induction false} HoleFound(s: State, g: Layout, segment: int, low: int, t: State, frees: seq<int>, end: int,
                                     di: int)
    returns (c: int)
    requires SweepDone(s, g, segment, low, t, frees, end, di)
    ensures c in Holes(s, g, segment) && s.E(c).location == low
  {
    assert OpenSweep(0);
    c :| c in Holes(s, g, segment) && s.E(c).location == low;
  }

  // With no free chunk in the segment nothing changes.
  lemma {:induction false} NothingCompacted(s: State, g: Layout, segment: int, t: State, frees: seq<int>)
    requires LaidOut(s, g) && Tiled(s, g) && 0 <= segment < HEAP_SEGMENT_COUNT
    requires Upset(s, g, segment, t, {}, {}, frees, BIG_SIZE + 1) && Holes(s, g, segment) == {}
    ensures Compacted(s, g, segment, t, g)
  {
    assert OpenUpset(0);
    forall p
      ensures t.E(p) == s.E(p)
    {
      assert t.E(p) == EntryNow(s, t, {}, {}, p);
    }
    forall a | IsHead(a)
      ensures At(t.words, a) == At(s.words, a)
    {
      if a / 65536 == segment {
        EmptyHead(s, g, segment, a);
      }
    }
    forall p, i | p in g.len && 0 <= i < g.len[p]
      ensures WordOf(t, p, i) == WordOf(s, p, i)
    {
      assert Chunk(t.words, s.E(p), i) == WordNow(s, {}, {}, p, i);
    }
    UntouchedLayout(s, t, g);
    assert Holes(t, g, segment) == Holes(s, g, segment);
    forall p, q | p in g.alloc && q in g.alloc && s.E(p).segment == segment == s.E(q).segment
      ensures Before(s, g, t, p, q)
    {
      AllocOops(s, g);
      if s.E(p).location < s.E(q).location {
        assert Separate(s, p, g.len[p], q, g.len[q]) by {
          assert OpenLayout(0);
        }
      }
    }
    AllocOops(s, g);
    assert Frees(s, g.frees) by {
      assert OpenLayout(0);
    }
    forall seg, w | 0 <= seg < HEAP_SEGMENT_COUNT && 0 <= w < HEAP_SPACE_STOP
      ensures InChunk(t, g, seg, w)
    {
      assert InChunk(s, g, seg, w);
      var p :| p in g.len && s.E(p).segment == seg && s.E(p).location <= w < s.E(p).location + g.len[p];
      assert t.E(p) == s.E(p);
    }
  }

  lemma {:induction false} ListsHoldHoles(s: State, g: Layout, a: int)
    requires LaidOut(s, g) && IsHead(a)
    ensures a in g.lists && At(s.words, a) == Next(g.lists[a], 0)
    ensures forall i {:trigger g.lists[a][i]} :: 0 <= i < |g.lists[a]| ==> g.lists[a][i] in Holes(s, g, a / 65536)
    ensures g.lists[a] != [] ==> Holes(s, g, a / 65536) != {}
  {
    assert a in g.lists && Linked(s, a, g.lists[a]) by {
      assert OpenLayout(0);
    }
    forall i | 0 <= i < |g.lists[a]|
      ensures g.lists[a][i] in Holes(s, g, a / 65536)
    {
      ListMember(s, g, a, i);
    }
    if g.lists[a] != [] {
      assert g.lists[a][0] in Holes(s, g, a / 65536);
    }
  }

  lemma {:induction false} EmptyHead(s: State, g: Layout, segment: int, a: int)
    requires LaidOut(s, g) && IsHead(a) && a / 65536 == segment && Holes(s, g, segment) == {}
    ensures At(s.words, a) == NON_POINTER && a in g.lists && g.lists[a] == []
  {
    ListsHoldHoles(s, g, a);
  }

  lemma {:induction false} UntouchedLayout(s: State, t: State, g: Layout)
    requires LaidOut(s, g) && |t.words| == |s.words| && |t.ot| == |s.ot|
    requires Frees(t, g.frees)
    requires forall p {:trigger t.E(p)} :: t.E(p) == s.E(p)
    requires forall a {:trigger IsHead(a)} :: IsHead(a) ==> At(t.words, a) == At(s.words, a)
    requires forall p, i {:trigger WordOf(t, p, i)} :: p in g.len && 0 <= i < g.len[p] ==>
      WordOf(t, p, i) == WordOf(s, p, i)
    ensures LaidOut(t, g)
  {
    assert t.freeHead == s.freeHead by {
      assert OpenLayout(0);
    }
    AllocOops(s, g);
    forall p | p in g.alloc
      ensures p in g.len && Sized(t, p, g.len[p])
    {
      assert Sized(s, p, g.len[p]) && Placed(s, p, g.len[p]) by {
        assert OpenLayout(0);
      }
      SameSize(s, t, p, g.len[p]);
    }
    forall p | p in g.len && p !in g.alloc
      ensures SizeOf(t, p) == SizeOf(s, p) && ClassOf(t, p) == ClassOf(s, p)
    {
      ListedSize(s, g, p);
      assert WordOf(t, p, 0) == WordOf(s, p, 0) && WordOf(t, p, 1) == WordOf(s, p, 1);
    }
    assert Shaped(t) by {
      assert OpenLayout(0);
    }
    ShapesKeepLayout(s, t, g);
  }

  method CompactCurrentSegment(om: ObjectMemory, ghost g: Layout) returns (ghost g': Layout)
    requires om.Valid() && LaidOut(om.st, g) && Tiled(om.st, g) && ClassesAreObjects(om.st, g)
    requires 0 <= om.currentSegment < HEAP_SEGMENT_COUNT && NIL_POINTER in g.alloc
    modifies om`st, om.mem
    ensures om.Valid() && Compacted(old(om.st), g, om.currentSegment, om.st, g')
  {
    ghost var s, segment, frees, end := om.st, om.currentSegment, [], 0;
    var lowWaterMark;
    lowWaterMark, frees := AbandonFreeChunksInSegment(om, om.currentSegment, g);
    LowWater(s, g, segment, lowWaterMark);
    if lowWaterMark < HEAP_SPACE_STOP {
      ReverseHeapPointersAbove(om, lowWaterMark, s, g, frees);
      SweepBegins(s, g, segment, lowWaterMark, om.st, frees);
      var bigSpace;
      bigSpace, end := SweepCurrentSegmentFrom(om, lowWaterMark, s, g, frees);
      g' := MakeTopChunk(om, bigSpace, lowWaterMark, s, g, frees, end);
    } else {
      NothingCompacted(s, g, segment, om.st, frees);
      g' := g;
    }
  }

  lemma {:induction false} LowWater(s: State, g: Layout, segment: int, low: int)
    requires LaidOut(s, g) && Lowest(s, Holes(s, g, segment), low)
    ensures low < HEAP_SPACE_STOP <==> Holes(s, g, segment) != {}
    ensures low < HEAP_SPACE_STOP ==> HoleAt(s, g, segment, low) && forall c :: c in Holes(s, g, segment) ==>
      low <= s.E(c).location
  {
    if Holes(s, g, segment) != {} {
      var c :| c in Holes(s, g, segment) && s.E(c).location == low;
      BlockStarts(s, g, segment, c);
    }
  }

  method MakeTopChunk(om: ObjectMemory, bigSpace: int, ghost low: int, ghost s: State, ghost g: Layout,
                      ghost frees: seq<int>, ghost end: int)
    returns (ghost g': Layout)
    requires om.Valid() && 0 <= om.currentSegment < HEAP_SEGMENT_COUNT && NIL_POINTER in g.alloc
    requires SweepDone(s, g, om.currentSegment, low, om.st, frees, end, bigSpace)
    modifies om`st, om.mem
    ensures om.Valid() && Compacted(s, g, om.currentSegment, om.st, g')
  {
    ghost var t, segment := om.st, om.currentSegment;
    RoomLeft(s, g, segment, low, t, frees, end, bigSpace);
    NilInUse(s, g, segment, low, t, frees, end, bigSpace);
    var size := HEAP_SPACE_STOP + 1 - bigSpace;
    var p := ObtainPointer(om, size, bigSpace, frees);
    ObtainedChunk(s, g, segment, low, t, frees, end, bigSpace, size);
    Deallocate(om, p);
    g' := RemadeLayout(s, g, segment, frees[0], size, frees);
    RemadeCompacted(s, g, segment, low, t, frees, end, bigSpace, size, om.st, g');
  }

  lemma {:induction false} NilInUse(s: State, g: Layout, segment: int, low: int, t: State, frees: seq<int>, end: int,
                                    di: int)
    requires SweepDone(s, g, segment, low, t, frees, end, di) && NIL_POINTER in g.alloc
    ensures NIL_POINTER !in frees
  {
    RoomLeft(s, g, segment, low, t, frees, end, di);
    SettledObject(s, g, segment, low, t, frees, end, di, NIL_POINTER);
    assert t.E(NIL_POINTER).free == 0;
  }

  lemma {:induction false} ObtainedChunk(s: State, g: Layout, segment: int, low: int, t: State, frees: seq<int>,
                                         end: int, di: int, size: Word)
    requires SweepDone(s, g, segment, low, t, frees, end, di) && size == HEAP_SPACE_STOP + 1 - di
    ensures frees != [] && 0 <= di < 65536
    ensures var o, n := Obtained(t, frees[0], size, di), frees[0];
      InTable(n) && InHeap(o.E(n), 1) && HEADER_SIZE <= Space(o, n) < 65536 && o.E(n).location <= HEAP_SPACE_STOP
  {
    RoomLeft(s, g, segment, low, t, frees, end, di);
    var o, n := Obtained(t, frees[0], size, di), frees[0];
    assert o.E(n) == Cleared(segment, di);
    assert SizeOf(o, n) == size;
  }
}
