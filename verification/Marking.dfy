// Marking: the traversal that sets to 1 the count of every unmarked object it reaches.
module Marking {
  import opened Words
  import opened Memory
  import opened Traversal

  ghost predicate Unmarked(s: State, p: int) {
    s.E(p).count == 0
  }

  ghost predicate Edge(s: State, p: int, q: int) {
    exists i :: PointsTo(s, p, i, q)
  }

  // A path through unmarked objects, last step last.
  ghost predicate Trail(s: State, path: seq<int>) {
    path != [] && Unmarked(s, path[|path| - 1]) &&
    (|path| > 1 ==> Edge(s, path[|path| - 2], path[|path| - 1]) && Trail(s, path[..|path| - 1]))
  }

  // p can be reached from root through unmarked objects, both ends included.
  ghost predicate Reaches(s: State, root: int, p: int) {
    exists path :: Trail(s, path) && path[0] == root && path[|path| - 1] == p
  }

  // The spare word of an object too large for its count field.
  ghost predicate IsSpare(s: State, A: set<int>, a: int) {
    exists p :: p in A && LastPointer(s, p) >= HUGE_SIZE && a == Address(s.E(p)) + LastPointer(s, p)
  }

  ghost predicate SameButSpares(s: State, A: set<int>, words: seq<Word>) {
    |words| == |s.words| && forall a {:trigger At(words, a)} :: At(words, a) == At(s.words, a) || IsSpare(s, A, a)
  }

  // t is s after marking from root: exactly the counts of the objects reached through unmarked
  // objects are 1 now, and no word but a spare one differs.
  ghost predicate Marked(s: State, A: set<int>, root: int, t: State) {
    SameRegisters(s, t) && SameButSpares(s, A, t.words) && |t.ot| == |s.ot| &&
    forall p {:trigger t.E(p)} :: t.E(p) == if Reaches(s, root, p) then s.E(p).(count := 1) else s.E(p)
  }

  ghost predicate Covered(s: State, V: set<int>, q: int) {
    q in V || !Unmarked(s, q)
  }

  // The pointers of p from index `from` on have been followed.
  ghost predicate Scanned(s: State, V: set<int>, p: int, from: int) {
    forall i, q {:trigger PointsTo(s, p, i, q)} :: from <= i && PointsTo(s, p, i, q) ==> Covered(s, V, q)
  }

  lemma {:induction false} ReachesItself(s: State, root: int)
    requires Unmarked(s, root)
    ensures Reaches(s, root, root)
  {
    assert Trail(s, [root]);
  }

  lemma {:induction false} ReachesNext(s: State, root: int, p: int, q: int)
    requires Reaches(s, root, p) && Edge(s, p, q) && Unmarked(s, q)
    ensures Reaches(s, root, q)
  {
    var path :| Trail(s, path) && path[0] == root && path[|path| - 1] == p;
    var path' := path + [q];
    assert path'[..|path'| - 1] == path;
    assert Trail(s, path');
  }

  // A set that is closed under following pointers to unmarked objects holds all that is reached.
  lemma {:induction false} ClosedHoldsTrail(s: State, V: set<int>, path: seq<int>)
    requires Trail(s, path) && path[0] in V
    requires forall p :: p in V ==> Scanned(s, V, p, 1)
    ensures path[|path| - 1] in V
  {
    if |path| > 1 {
      var n := |path| - 1;
      ClosedHoldsTrail(s, V, path[..n]);
      var i :| PointsTo(s, path[n - 1], i, path[n]);
      assert Scanned(s, V, path[n - 1], 1);
    }
  }

  lemma {:induction false} ClosedHoldsReached(s: State, V: set<int>, root: int)
    requires root in V
    requires forall p :: p in V ==> Scanned(s, V, p, 1)
    ensures forall p :: Reaches(s, root, p) ==> p in V
  {
    forall p | Reaches(s, root, p)
      ensures p in V
    {
      var path :| Trail(s, path) && path[0] == root && path[|path| - 1] == p;
      ClosedHoldsTrail(s, V, path);
    }
  }

  lemma {:induction false} SparesKeepIntact(s: State, A: set<int>, words: seq<Word>, p: int)
    requires Heap(s, A) && SameButSpares(s, A, words) && p in A
    ensures Intact(s, words, p)
  {
    assert Block(s, p);
    forall i | 0 <= i < SizeOf(s, p)
      ensures Chunk(words, s.E(p), i) == WordOf(s, p, i)
    {
      var a := Address(s.E(p)) + i;
      assert At(words, a) == At(s.words, a) by {
        if IsSpare(s, A, a) {
          var q :| q in A && LastPointer(s, q) >= HUGE_SIZE && a == Address(s.E(q)) + LastPointer(s, q);
          SpareInChunk(s, A, q);
          if q != p {
            ChunksApart(s, A, p, i, q, LastPointer(s, q));
          }
        }
      }
    }
  }

  lemma {:induction false} PutSpare(s: State, A: set<int>, words: seq<Word>, p: int, v: Word)
    requires SameButSpares(s, A, words) && p in A && LastPointer(s, p) >= HUGE_SIZE
    ensures SameButSpares(s, A, Put<Word>(words, Address(s.E(p)) + LastPointer(s, p), v))
  {
    var spare := Address(s.E(p)) + LastPointer(s, p);
    assert IsSpare(s, A, spare);
    forall a
      ensures At(Put<Word>(words, spare, v), a) == At(s.words, a) || IsSpare(s, A, a)
    {
      if a != spare {
        assert At(words, a) == At(s.words, a) || IsSpare(s, A, a);
      }
    }
  }

  // The counts in mid-traversal: V are the objects met so far.  An object being traversed may
  // hold a cursor, which is never 0.
  ghost predicate Counts(s: State, t: State, V: set<int>, stk: seq<Frame>, current: int) {
    (forall p {:trigger t.E(p)} :: p !in V ==> t.E(p).count == s.E(p).count) &&
    (forall p {:trigger t.E(p)} :: p in V ==> t.E(p).count != 0) &&
    (forall p {:trigger t.E(p)} :: p in V && p != current && !OnStack(stk, p) ==> t.E(p).count == 1)
  }

  // What has been followed: V is the set of objects met.
  ghost predicate Follows(s: State, V: set<int>, stk: seq<Frame>, current: int, offset: int) {
    (forall p {:trigger Scanned(s, V, p, 1)} :: p in V && p != current && !OnStack(stk, p) ==> Scanned(s, V, p, 1)) &&
    Scanned(s, V, current, offset) &&
    (forall k :: 0 <= k < |stk| ==> Scanned(s, V, stk[k].obj, stk[k].off))
  }

  // The invariant of the marking traversal, beside its chain.
  ghost predicate Marks(s: State, A: set<int>, root: int, base: seq<Word>, t: State, stk: seq<Frame>, current: int,
                        offset: int, V: set<int>)
  {
    forall k {:trigger Unfold(k)} :: Unfold(k) ==> MarksUnfolded(s, A, root, base, t, stk, current, offset, V)
  }

  ghost predicate MarksUnfolded(s: State, A: set<int>, root: int, base: seq<Word>, t: State, stk: seq<Frame>,
                                current: int, offset: int, V: set<int>)
  {
    SameRegisters(s, t) && SameButSpares(s, A, base) &&
    V <= A && root in V && current in V && (forall k :: 0 <= k < |stk| ==> stk[k].obj in V) &&
    (forall p :: p in V ==> Unmarked(s, p) && Reaches(s, root, p)) &&
    Counts(s, t, V, stk, current) && Follows(s, V, stk, current, offset)
  }

  method MarkIfUnmarked(om: ObjectMemory, p: Word) returns (unmarked: bool)
    requires om.Valid() && InTable(p)
    modifies om`st, om.mem
    ensures om.Valid() && unmarked == (old(om.st).E(p).count == 0)
    ensures om.st == if unmarked then PutEntry(old(om.st), p, old(om.st).E(p).(count := 1)) else old(om.st)
  {
    var count := om.CountBitsOf(p);
    unmarked := count == 0;
    if unmarked {
      om.CountBitsPut(p, 1);
    }
  }

  lemma {:induction false} MarksBegin(s: State, A: set<int>, root: int, t: State)
    requires Heap(s, A) && root in A && Unmarked(s, root)
    requires t == PutEntry(s, root, s.E(root).(count := 1))
    ensures Chain(s, A, s.words, t, [], root)
    ensures Marks(s, A, root, s.words, t, [], root, LastPointer(s, root), {root})
  {
    assert Unfold(0);
    ReachesItself(s, root);
    EntriesAfterPut(s, root, s.E(root).(count := 1));
  }

  // The pointer at `offset` of current has been looked at and needs no descent.
  lemma {:induction false} FollowsAdvance(s: State, V: set<int>, stk: seq<Frame>, current: int, offset: int)
    requires Follows(s, V, stk, current, offset + 1)
    requires IsInteger(WordOf(s, current, offset)) || Covered(s, V, WordOf(s, current, offset))
    ensures Follows(s, V, stk, current, offset)
  {
    forall i, q | offset <= i && PointsTo(s, current, i, q)
      ensures Covered(s, V, q)
    {
      if i > offset {
        assert offset + 1 <= i;
      }
    }
  }

  lemma {:induction false} ScannedMore(s: State, V: set<int>, q: int, p: int, from: int)
    requires Scanned(s, V, p, from)
    ensures Scanned(s, V + {q}, p, from)
  {
  }

  lemma {:induction false} FollowsDescend(s: State, V: set<int>, stk: seq<Frame>, current: Word, offset: Word,
                                          next: int)
    requires Follows(s, V, stk, current, offset + 1) && PointsTo(s, current, offset, next)
    ensures Follows(s, V + {next}, stk + [Frame(current, offset)], next, LastPointer(s, next))
  {
    var stk' := stk + [Frame(current, offset)];
    var V' := V + {next};
    forall p | p in V' && p != next && !OnStack(stk', p)
      ensures Scanned(s, V', p, 1)
    {
      OnStackPush(stk, Frame(current, offset), p);
      ScannedMore(s, V, next, p, 1);
    }
    assert Scanned(s, V', current, offset) by {
      ScannedMore(s, V, next, current, offset + 1);
      forall i, q | offset <= i && PointsTo(s, current, i, q)
        ensures Covered(s, V', q)
      {
        if i > offset {
          assert offset + 1 <= i;
        }
      }
    }
    forall k | 0 <= k < |stk'|
      ensures Scanned(s, V', stk'[k].obj, stk'[k].off)
    {
      if k < |stk| {
        assert stk'[k] == stk[k];
        ScannedMore(s, V, next, stk[k].obj, stk[k].off);
      }
    }
  }

  lemma {:induction false} CountsDescend(s: State, t: State, V: set<int>, stk: seq<Frame>, current: Word, offset: Word,
                                         next: int, t': State)
    requires Counts(s, t, V, stk, current) && next !in V && offset != 0
    requires t'.E(current).count == offset || t'.E(current) == t.E(current)
    requires forall p {:trigger t'.E(p)} :: p != next && p != current ==> t'.E(p) == t.E(p)
    requires t'.E(next).count == 1 && current in V
    ensures Counts(s, t', V + {next}, stk + [Frame(current, offset)], next)
  {
    forall p | p in V + {next} && p != next && !OnStack(stk + [Frame(current, offset)], p)
      ensures t'.E(p).count == 1
    {
      OnStackPush(stk, Frame(current, offset), p);
      assert t'.E(p) == t.E(p);
    }
    forall p
      ensures p !in V + {next} ==> t'.E(p).count == s.E(p).count
      ensures p in V + {next} ==> t'.E(p).count != 0
    {
      if p != next && p != current {
        assert t'.E(p) == t.E(p);
      }
    }
  }

  lemma {:induction false} MarksDescend(s: State, A: set<int>, root: int, base: seq<Word>, t: State, stk: seq<Frame>,
                                        current: Word, offset: Word, V: set<int>, next: int, base': seq<Word>,
                                        t': State)
    requires Marks(s, A, root, base, t, stk, current, offset + 1, V)
    requires PointsTo(s, current, offset, next) && next in A && !Covered(s, V, next)
    requires base' == if LastPointer(s, current) < HUGE_SIZE then base
                      else Put<Word>(base, Address(s.E(current)) + LastPointer(s, current), offset)
    requires SameRegisters(t, t') && t'.E(next).count == 1
    requires t'.E(current).count == offset || t'.E(current) == t.E(current)
    requires forall p {:trigger t'.E(p)} :: p != next && p != current ==> t'.E(p) == t.E(p)
    ensures Marks(s, A, root, base', t', stk + [Frame(current, offset)], next, LastPointer(s, next), V + {next})
  {
    assert Unfold(0);
    if LastPointer(s, current) >= HUGE_SIZE {
      PutSpare(s, A, base, current, offset);
    }
    assert Edge(s, current, next);
    ReachesNext(s, root, current, next);
    CountsDescend(s, t, V, stk, current, offset, next, t');
    FollowsDescend(s, V, stk, current, offset, next);
  }

  // current is done, and the object it was reached from is resumed.
  lemma {:induction false} MarksRetreat(s: State, A: set<int>, root: int, base: seq<Word>, t: State, stk: seq<Frame>,
                                        current: int, V: set<int>, t': State)
    requires Marks(s, A, root, base, t, stk, current, 1, V) && stk != [] && t.E(current).count == 1
    requires SameRegisters(t, t') && t'.ot == t.ot
    ensures Marks(s, A, root, base, t', stk[..|stk| - 1], stk[|stk| - 1].obj, stk[|stk| - 1].off, V)
  {
    assert Unfold(0);
    var stk' := stk[..|stk| - 1];
    assert forall p :: t'.E(p) == t.E(p);
    forall p | p in V && p != stk[|stk| - 1].obj && !OnStack(stk', p)
      ensures t'.E(p).count == 1 && Scanned(s, V, p, 1)
    {
      OnStackPop(stk, p);
      assert t'.E(p) == t.E(p);
    }
  }

  // The action: whatever cursor current still holds, its count is 1 again.
  lemma {:induction false} MarksAct(s: State, A: set<int>, root: int, base: seq<Word>, t: State, stk: seq<Frame>,
                                    current: int, V: set<int>)
    requires Marks(s, A, root, base, t, stk, current, 1, V) && 0 <= current < |t.ot|
    ensures var t' := PutEntry(t, current, t.E(current).(count := 1));
      Marks(s, A, root, base, t', stk, current, 1, V) && t'.E(current).count == 1
  {
    assert Unfold(0);
    EntriesAfterPut(t, current, t.E(current).(count := 1));
  }

  lemma {:induction false} MarksEnd(s: State, A: set<int>, root: int, base: seq<Word>, t: State, current: int,
                                    V: set<int>)
    requires Chain(s, A, base, t, [], current)
    requires Marks(s, A, root, base, t, [], current, 1, V) && t.E(current).count == 1
    ensures Marked(s, A, root, t)
  {
    assert Unfold(0);
    ClosedHoldsReached(s, V, root);
  }

  // An object that looks unmarked has not been met: a cursor in a count field is never 0.
  lemma {:induction false} MarksMeets(s: State, A: set<int>, root: int, base: seq<Word>, t: State, stk: seq<Frame>,
                                      current: int, offset: int, V: set<int>, next: int)
    requires Marks(s, A, root, base, t, stk, current, offset, V)
    ensures t.E(next).count == 0 <==> !Covered(s, V, next)
    ensures t.E(next).count == 0 ==> next != current && !OnStack(stk, next)
  {
    assert Unfold(0);
  }

  lemma {:induction false} MarksAdvance(s: State, A: set<int>, root: int, base: seq<Word>, t: State, stk: seq<Frame>,
                                        current: int, offset: int, V: set<int>)
    requires Marks(s, A, root, base, t, stk, current, offset + 1, V)
    requires IsInteger(WordOf(s, current, offset)) || Covered(s, V, WordOf(s, current, offset))
    ensures Marks(s, A, root, base, t, stk, current, offset, V)
  {
    assert Unfold(0);
    FollowsAdvance(s, V, stk, current, offset);
  }

  lemma {:induction false} MarksBase(s: State, A: set<int>, root: int, base: seq<Word>, t: State, stk: seq<Frame>,
                                     current: int, offset: int, V: set<int>)
    requires Marks(s, A, root, base, t, stk, current, offset, V)
    ensures SameButSpares(s, A, base)
  {
    assert Unfold(0);
  }

  // The current object reads as it did before the traversal.
  lemma {:induction false} CurrentReads(s: State, A: set<int>, base: seq<Word>, t: State, stk: seq<Frame>, current: int)
    requires Chain(s, A, base, t, stk, current) && SameButSpares(s, A, base)
    ensures Oop(current) && InHeap(t.E(current), SizeOf(s, current)) && 2 <= SizeOf(s, current) <= |t.ot|
    ensures 1 <= LastPointer(t, current) == LastPointer(s, current) <= SizeOf(s, current)
    ensures Intact(s, base, current)
    ensures forall i :: 0 <= i < SizeOf(s, current) ==> WordOf(t, current, i) == WordOf(s, current, i)
    ensures forall i, q :: PointsTo(s, current, i, q) ==> q in A && Oop(q)
  {
    ChainParts(s, A, base, t, stk, current);
    SparesKeepIntact(s, A, base, current);
    CurrentOffStack(s, A, base, t, stk, current);
    ReadOffStack(s, A, base, t, stk, current, current);
  }

  // The size an object is entered with is its own, for no link covers it yet.
  method SizeOnEntry(om: ObjectMemory, current: Word, ghost s: State, ghost A: set<int>, ghost base: seq<Word>,
                     ghost stk: seq<Frame>)
    returns (size: Word)
    requires om.Valid() && Chain(s, A, base, om.st, stk, current) && SameButSpares(s, A, base)
    ensures 1 <= size == LastPointer(s, current)
  {
    CurrentReads(s, A, base, om.st, stk, current);
    size := om.LastPointerOf(current);
  }

  // Follow the pointer at `offset` of current if it leads to an unmarked object.
  method MarkField(om: ObjectMemory, current: Word, offset: Word, size: Word, prior: Word, ghost s: State,
                   ghost A: set<int>, ghost root: int, ghost base: seq<Word>, ghost stk: seq<Frame>, ghost V: set<int>)
    returns (descend: bool, next: Word, ghost base': seq<Word>)
    requires om.Valid() && Chain(s, A, base, om.st, stk, current)
    requires Marks(s, A, root, base, om.st, stk, current, offset + 1, V)
    requires 1 <= offset < LastPointer(s, current) && SizeServes(s, current, size) && prior == Link(stk, |stk|)
    modifies om`st, om.mem
    ensures om.Valid()
    ensures !descend ==> om.st == old(om.st) && Marks(s, A, root, base, om.st, stk, current, offset, V)
    ensures descend ==> next in A && next !in V && Chain(s, A, base', om.st, stk + [Frame(current, offset)], next)
    ensures descend ==>
      Marks(s, A, root, base', om.st, stk + [Frame(current, offset)], next, LastPointer(s, next), V + {next})
  {
    ghost var t := om.st;
    MarksBase(s, A, root, base, t, stk, current, offset + 1, V);
    CurrentReads(s, A, base, t, stk, current);
    next := om.HeapChunkWord(current, offset);
    descend := false;
    base' := base;
    if !IsInteger(next) {
      assert PointsTo(s, current, offset, next);
      MarksMeets(s, A, root, base, t, stk, current, offset + 1, V, next);
      descend := MarkIfUnmarked(om, next);
    }
    if descend {
      CountOffStack(s, A, base, t, stk, current, next, 1);
      base' := Descend(om, current, offset, size, prior, next, s, A, base, stk);
      MarksDescend(s, A, root, base, t, stk, current, offset, V, next, base', om.st);
    } else {
      MarksAdvance(s, A, root, base, t, stk, current, offset, V);
    }
  }

  // All pointers of current have been followed: perform the action, and go back if it was reached
  // from another object.
  method MarkDone(om: ObjectMemory, current: Word, prior: Word, ghost s: State, ghost A: set<int>, ghost root: int,
                  ghost base: seq<Word>, ghost stk: seq<Frame>, ghost V: set<int>)
    returns (done: bool, offset: Word, size: Word, prior': Word)
    requires om.Valid() && Chain(s, A, base, om.st, stk, current)
    requires Marks(s, A, root, base, om.st, stk, current, 1, V) && prior == Link(stk, |stk|)
    modifies om`st, om.mem
    ensures om.Valid() && done == (stk == [])
    ensures done ==> Marked(s, A, root, om.st)
    ensures !done ==>
      var f := stk[|stk| - 1];
      && prior == f.obj && offset == f.off && 1 <= offset < LastPointer(s, prior)
      && SizeServes(s, prior, size) && prior' == Link(stk, |stk| - 1)
      && Chain(s, A, base, om.st, stk[..|stk| - 1], prior)
      && Marks(s, A, root, base, om.st, stk[..|stk| - 1], prior, offset, V)
  {
    offset, size, prior' := 1, 1, prior;
    ghost var t := om.st;
    CurrentOffStack(s, A, base, t, stk, current);
    om.CountBitsPut(current, 1);
    CountOffStack(s, A, base, t, stk, current, current, 1);
    MarksAct(s, A, root, base, t, stk, current, V);
    LinkTells(s, A, base, t, stk, current);
    done := prior == NON_POINTER;
    if done {
      MarksEnd(s, A, root, base, om.st, current, V);
    } else {
      t := om.st;
      offset, size, prior' := Retreat(om, current, prior, s, A, base, stk);
      MarksRetreat(s, A, root, base, t, stk, current, V, om.st);
    }
  }

  method SizeOfNext(om: ObjectMemory, current: Word, ghost s: State, ghost A: set<int>, ghost root: int,
                    ghost base: seq<Word>, ghost stk: seq<Frame>, ghost V: set<int>)
    returns (size: Word)
    requires om.Valid() && Chain(s, A, base, om.st, stk, current)
    requires Marks(s, A, root, base, om.st, stk, current, LastPointer(s, current), V)
    ensures size == LastPointer(s, current) && 1 <= size && SizeServes(s, current, size)
  {
    MarksBase(s, A, root, base, om.st, stk, current, LastPointer(s, current), V);
    size := SizeOnEntry(om, current, s, A, base, stk);
  }

  // Mark everything accessible from root, reversing pointers on the way (root itself is marked already).
  method MarkOthersAccessibleFrom(om: ObjectMemory, root: Word, ghost s: State, ghost A: set<int>)
    requires Heap(s, A) && root in A && Unmarked(s, root)
    requires om.Valid() && om.st == PutEntry(s, root, s.E(root).(count := 1))
    modifies om`st, om.mem
    ensures om.Valid() && Marked(s, A, root, om.st)
  {
    ghost var stk: seq<Frame>, base, V := [], s.words, {root};
    MarksBegin(s, A, root, om.st);
    var prior := NON_POINTER;
    var current := root;
    var size := SizeOnEntry(om, current, s, A, base, stk);
    var offset := size;
    while true
      invariant om.Valid() && Chain(s, A, base, om.st, stk, current)
      invariant Marks(s, A, root, base, om.st, stk, current, offset, V)
      invariant 1 <= offset <= LastPointer(s, current) && SizeServes(s, current, size)
      invariant prior == Link(stk, |stk|)
      decreases A - V, |stk|, offset
    {
      offset := offset - 1;
      if offset > 0 {
        var descend, next;
        ghost var base';
        descend, next, base' := MarkField(om, current, offset, size, prior, s, A, root, base, stk, V);
        if descend {
          base, stk, V := base', stk + [Frame(current, offset)], V + {next};
          prior, current := current, next;
          size := SizeOfNext(om, current, s, A, root, base, stk, V);
          offset := size;
        }
      } else {
        var done, offset', size', prior' := MarkDone(om, current, prior, s, A, root, base, stk, V);
        if done {
          return;
        }
        current, offset, size, prior := prior, offset', size', prior';
        stk := stk[..|stk| - 1];
      }
    }
  }

  method MarkObjectsAccessibleFrom(om: ObjectMemory, root: Word, ghost A: set<int>)
    requires om.Valid() && Heap(om.st, A) && root in A
    modifies om`st, om.mem
    ensures om.Valid() && Marked(old(om.st), A, root, om.st)
  {
    ghost var s := om.st;
    assert Block(s, root);
    var unmarked := MarkIfUnmarked(om, root);
    if unmarked {
      MarkOthersAccessibleFrom(om, root, s, A);
    } else {
      MarkedNothing(s, A, root);
    }
  }

  lemma {:induction false} MarkedNothing(s: State, A: set<int>, root: int)
    requires !Unmarked(s, root)
    ensures Marked(s, A, root, s)
  {
    forall p
      ensures !Reaches(s, root, p)
    {
      if Reaches(s, root, p) {
        var path :| Trail(s, path) && path[0] == root && path[|path| - 1] == p;
        TrailUnmarked(s, path);
      }
    }
  }

  lemma {:induction false} TrailUnmarked(s: State, path: seq<int>)
    requires Trail(s, path)
    ensures Unmarked(s, path[0])
  {
    if |path| > 1 {
      TrailUnmarked(s, path[..|path| - 1]);
    }
  }

  // The recursive form of the traversal (built with RECURSIVE_MARKING): it visits fields in the
  // opposite order and needs no spare words.

  ghost predicate MarkedSoFar(s: State, A: set<int>, root: int, t: State, V: set<int>) {
    t.words == s.words && SameRegisters(s, t) && |t.ot| == |s.ot| && V <= A &&
    (forall p :: p in V ==> Unmarked(s, p) && Reaches(s, root, p)) &&
    (forall p {:trigger t.E(p)} :: t.E(p) == if p in V then s.E(p).(count := 1) else s.E(p))
  }

  // The first `to` fields of p have been followed.
  ghost predicate ScannedTo(s: State, V: set<int>, p: int, to: int) {
    forall i, q {:trigger PointsTo(s, p, i, q)} :: i < to && PointsTo(s, p, i, q) ==> Covered(s, V, q)
  }

  method MarkRecursively(om: ObjectMemory, p: Word, ghost s: State, ghost A: set<int>, ghost root: int,
                         ghost V: set<int>)
    returns (ghost V': set<int>)
    requires om.Valid() && Heap(s, A) && MarkedSoFar(s, A, root, om.st, V) && p in V
    modifies om`st, om.mem
    ensures om.Valid() && MarkedSoFar(s, A, root, om.st, V') && V <= V'
    ensures forall q {:trigger Scanned(s, V', q, 1)} :: q in V' && (q == p || q !in V) ==> Scanned(s, V', q, 1)
    decreases A - V
  {
    V' := V;
    assert Block(s, p) && om.st.E(p) == s.E(p).(count := 1);
    var limit := om.LastPointerOf(p);
    assert limit == LastPointer(s, p);
    var offset := 1;
    while offset < limit
      invariant 1 <= offset && om.Valid() && MarkedSoFar(s, A, root, om.st, V') && V <= V'
      invariant ScannedTo(s, V', p, offset)
      invariant forall q {:trigger Scanned(s, V', q, 1)} :: q in V' && q !in V ==> Scanned(s, V', q, 1)
    {
      assert om.st.E(p) == s.E(p).(count := 1);
      var next := om.HeapChunkWord(p, offset);
      assert next == WordOf(s, p, offset);
      if !IsInteger(next) {
        assert PointsTo(s, p, offset, next) && Block(s, next);
        ghost var t := om.st;
        var unmarked := MarkIfUnmarked(om, next);
        if unmarked {
          assert Edge(s, p, next);
          assert t.E(next) == s.E(next);
          ReachesNext(s, root, p, next);
          EntriesAfterPut(t, next, t.E(next).(count := 1));
          ghost var V1 := V' + {next};
          ghost var V2 := MarkRecursively(om, next, s, A, root, V1);
          ScannedGrows(s, V', V2, V, p, offset);
          V' := V2;
        } else {
          assert t.E(next) == if next in V' then s.E(next).(count := 1) else s.E(next);
        }
        assert Covered(s, V', next);
      }
      ScannedOneMore(s, V', p, offset);
      offset := offset + 1;
    }
    assert om.st.E(p) == s.E(p).(count := 1);
    EntriesAfterPut(om.st, p, s.E(p).(count := 1));
    om.CountBitsPut(p, 1);
  }

  lemma {:induction false} ScannedGrows(s: State, V1: set<int>, V2: set<int>, V: set<int>, p: int, to: int)
    requires V1 <= V2 && ScannedTo(s, V1, p, to)
    requires forall q {:trigger Scanned(s, V1, q, 1)} :: q in V1 && q !in V ==> Scanned(s, V1, q, 1)
    ensures ScannedTo(s, V2, p, to)
    ensures forall q {:trigger Scanned(s, V2, q, 1)} :: q in V1 && q !in V ==> Scanned(s, V2, q, 1)
  {
    forall q | q in V1 && q !in V
      ensures Scanned(s, V2, q, 1)
    {
      assert Scanned(s, V1, q, 1);
    }
  }

  lemma {:induction false} ScannedOneMore(s: State, V: set<int>, p: int, offset: int)
    requires ScannedTo(s, V, p, offset)
    requires IsInteger(WordOf(s, p, offset)) || Covered(s, V, WordOf(s, p, offset))
    ensures ScannedTo(s, V, p, offset + 1)
    ensures offset + 1 >= LastPointer(s, p) ==> Scanned(s, V, p, 1)
  {
  }

  // The recursive form marks what the pointer-reversing form marks.
  method MarkAllRecursively(om: ObjectMemory, root: Word, ghost A: set<int>)
    requires om.Valid() && Heap(om.st, A) && root in A
    modifies om`st, om.mem
    ensures om.Valid() && Marked(old(om.st), A, root, om.st) && om.st.words == old(om.st.words)
  {
    ghost var s := om.st;
    assert Block(s, root);
    var unmarked := MarkIfUnmarked(om, root);
    if unmarked {
      ReachesItself(s, root);
      EntriesAfterPut(s, root, s.E(root).(count := 1));
      ghost var V := MarkRecursively(om, root, s, A, root, {root});
      ClosedHoldsReached(s, V, root);
    } else {
      MarkedNothing(s, A, root);
    }
  }

  lemma {:induction false} FormsAgree(s: State, A: set<int>, root: int, t: State, t': State)
    requires Marked(s, A, root, t) && Marked(s, A, root, t')
    ensures t.ot == t'.ot && SameRegisters(t, t')
    ensures forall a :: At(t.words, a) != At(t'.words, a) ==> IsSpare(s, A, a)
  {
    forall p | 0 <= p < |t.ot|
      ensures t.ot[p] == t'.ot[p]
    {
      assert t.E(p) == t'.E(p);
    }
    forall a | At(t.words, a) != At(t'.words, a)
      ensures IsSpare(s, A, a)
    {
    }
  }
}
