// The pointer-reversal traversal: the chain of reversed pointers as a ghost stack.
//
// While the traversal is inside an object, every object on the way there has one word replaced by
// a link back to its own predecessor, and the index of that word kept in its count field or, when
// it is too large for that, in its spare word.  `Overlay` says what the heap looks like then: the
// words it would have with all pointers put right (`base`), with the links laid over them.
module Traversal {
  import opened Words
  import opened Memory

  // An invariant written `forall k :: Unfold(k) ==> Body` stays folded, a name to be passed from step
  // to step, until a proof about it asserts Unfold(0).
  ghost predicate Unfold(k: int) {
    true
  }

  // p's chunk lies in the object space of a heap segment, and its pointers lie in p.
  ghost predicate Block(s: State, p: int) {
    Oop(p) && |s.ot| == OBJECT_TABLE_SIZE &&
    s.E(p).segment < HEAP_SEGMENT_COUNT &&
    HEADER_SIZE <= SizeOf(s, p) &&
    s.E(p).location + Space(s, p) <= HEAP_SPACE_STOP + 1 &&
    LastPointer(s, p) <= SizeOf(s, p)
  }

  ghost predicate Apart(s: State, p: int, q: int) {
    Address(s.E(p)) + Space(s, p) <= Address(s.E(q)) || Address(s.E(q)) + Space(s, q) <= Address(s.E(p))
  }

  // Field i of p is a pointer that the traversals follow.
  ghost predicate PointsTo(s: State, p: int, i: int, q: int) {
    1 <= i < LastPointer(s, p) && WordOf(s, p, i) == q && !IsInteger(q)
  }

  // The objects of A occupy disjoint chunks and point only to each other.
  ghost predicate Heap(s: State, A: set<int>) {
    Shaped(s) && (forall p :: p in A ==> Oop(p)) &&
    (forall p {:trigger Block(s, p)} :: p in A ==> Block(s, p)) &&
    (forall p, q {:trigger Apart(s, p, q)} :: p in A && q in A && p != q ==> Apart(s, p, q)) &&
    (forall p, i, q {:trigger PointsTo(s, p, i, q)} :: p in A && PointsTo(s, p, i, q) ==> q in A)
  }

  datatype Frame = Frame(obj: Word, off: Word)

  ghost function Slot(s: State, f: Frame): int {
    Address(s.E(f.obj)) + f.off
  }

  function Link(stk: seq<Frame>, k: nat): Word
    requires k <= |stk|
  {
    if k == 0 then NON_POINTER else stk[k - 1].obj
  }

  // What frame k's pointer leads to.
  function Target(stk: seq<Frame>, current: int, k: nat): int
    requires k < |stk|
  {
    if k + 1 < |stk| then stk[k + 1].obj else current
  }

  ghost function Overlay(s: State, base: seq<Word>, stk: seq<Frame>): (r: seq<Word>)
    ensures |r| == |base|
  {
    if stk == [] then base
    else
      var n := |stk| - 1;
      Put<Word>(Overlay(s, base, stk[..n]), Slot(s, stk[n]), Link(stk, n))
  }

  // The frames lead from the root to `current` along the pointers of s, through distinct objects of A.
  ghost predicate Leads(s: State, A: set<int>, stk: seq<Frame>, current: int) {
    current in A &&
    (forall k :: 0 <= k < |stk| ==> stk[k].obj in A && stk[k].obj != current) &&
    (forall j, k :: 0 <= j < k < |stk| ==> stk[j].obj != stk[k].obj) &&
    (forall k :: 0 <= k < |stk| ==>
       PointsTo(s, stk[k].obj, stk[k].off, Target(stk, current, k)))
  }

  ghost predicate OnStack(stk: seq<Frame>, p: int) {
    exists k :: 0 <= k < |stk| && stk[k].obj == p
  }

  // The cursor of f's object is where the retreat will look for it.
  ghost predicate Saved(s: State, base: seq<Word>, t: State, f: Frame) {
    if LastPointer(s, f.obj) < HUGE_SIZE then t.E(f.obj).count == f.off
    else Chunk(base, s.E(f.obj), LastPointer(s, f.obj)) == f.off
  }

  // base holds p's words as s does; the spare word lies beyond the size and is not among them.
  ghost predicate Intact(s: State, base: seq<Word>, p: int) {
    forall i {:trigger WordOf(s, p, i)} :: 0 <= i < SizeOf(s, p) ==>
      Chunk(base, s.E(p), i) == WordOf(s, p, i)
  }

  ghost predicate Cursors(s: State, base: seq<Word>, t: State, stk: seq<Frame>) {
    forall k :: 0 <= k < |stk| ==> Intact(s, base, stk[k].obj) && Saved(s, base, t, stk[k])
  }

  // The tables of s and t differ in counts only.
  ghost predicate SameEntries(s: State, t: State) {
    |t.ot| == |s.ot| && forall p {:trigger t.E(p)} :: t.E(p) == s.E(p).(count := t.E(p).count)
  }

  // t is the state of a traversal of s that is at `current`.
  ghost predicate Chain(s: State, A: set<int>, base: seq<Word>, t: State, stk: seq<Frame>, current: int) {
    forall k {:trigger Unfold(k)} :: Unfold(k) ==> ChainUnfolded(s, A, base, t, stk, current)
  }

  ghost predicate ChainUnfolded(s: State, A: set<int>, base: seq<Word>, t: State, stk: seq<Frame>, current: int) {
    Heap(s, A) && Leads(s, A, stk, current) &&
    |base| == |s.words| && t.words == Overlay(s, base, stk) &&
    SameEntries(s, t) && Cursors(s, base, t, stk)
  }

  lemma {:induction false} ChunksApart(s: State, A: set<int>, p: int, i: int, q: int, j: int)
    requires Heap(s, A) && p in A && q in A && p != q
    requires 0 <= i < Space(s, p) && 0 <= j < Space(s, q)
    ensures Address(s.E(p)) + i != Address(s.E(q)) + j
  {
    assert Apart(s, p, q);
  }

  lemma {:induction false} SlotInChunk(s: State, A: set<int>, stk: seq<Frame>, current: int, k: nat)
    requires Heap(s, A) && Leads(s, A, stk, current) && k < |stk|
    ensures 1 <= stk[k].off < LastPointer(s, stk[k].obj) <= SizeOf(s, stk[k].obj) <= Space(s, stk[k].obj)
    ensures InHeap(s.E(stk[k].obj), stk[k].off)
  {
    var f := stk[k];
    assert Block(s, f.obj);
    assert PointsTo(s, f.obj, f.off, Target(stk, current, k));
  }

  lemma {:induction false} OverlayElsewhere(s: State, base: seq<Word>, stk: seq<Frame>, a: int)
    requires forall k :: 0 <= k < |stk| ==> Slot(s, stk[k]) != a
    ensures At(Overlay(s, base, stk), a) == At(base, a)
  {
    if stk != [] {
      var n := |stk| - 1;
      OverlayElsewhere(s, base, stk[..n], a);
      assert Slot(s, stk[n]) != a;
    }
  }

  lemma {:induction false} OverlayPut(s: State, base: seq<Word>, stk: seq<Frame>, a: int, v: Word)
    requires forall k :: 0 <= k < |stk| ==> Slot(s, stk[k]) != a
    ensures Overlay(s, Put<Word>(base, a, v), stk) == Put<Word>(Overlay(s, base, stk), a, v)
  {
    if stk != [] {
      var n := |stk| - 1;
      OverlayPut(s, base, stk[..n], a, v);
      assert Slot(s, stk[n]) != a;
    }
  }

  // Words of an object that is not on the stack are not covered by a link.
  lemma {:induction false} OffStack(s: State, A: set<int>, base: seq<Word>, stk: seq<Frame>, current: int, p: int,
                                    i: int)
    requires Heap(s, A) && Leads(s, A, stk, current)
    requires p in A && !OnStack(stk, p) && 0 <= i < Space(s, p)
    ensures forall k :: 0 <= k < |stk| ==> Slot(s, stk[k]) != Address(s.E(p)) + i
    ensures Chunk(Overlay(s, base, stk), s.E(p), i) == Chunk(base, s.E(p), i)
  {
    forall k | 0 <= k < |stk|
      ensures Slot(s, stk[k]) != Address(s.E(p)) + i
    {
      SlotInChunk(s, A, stk, current, k);
      ChunksApart(s, A, p, i, stk[k].obj, stk[k].off);
    }
    OverlayElsewhere(s, base, stk, Address(s.E(p)) + i);
  }

  // Of an object on the stack, one word is covered, and it holds the link.
  lemma {:induction false} OnTop(s: State, A: set<int>, base: seq<Word>, stk: seq<Frame>, current: int)
    requires Heap(s, A) && Leads(s, A, stk, current) && stk != []
    requires |base| == |s.words|
    ensures var f := stk[|stk| - 1];
      && (forall k :: 0 <= k < |stk| - 1 ==> Slot(s, stk[k]) != Slot(s, f))
      && At(Overlay(s, base, stk), Slot(s, f)) == Link(stk, |stk| - 1)
      && forall i :: 0 <= i < Space(s, f.obj) && i != f.off ==>
           Chunk(Overlay(s, base, stk), s.E(f.obj), i) == Chunk(base, s.E(f.obj), i)
  {
    var n := |stk| - 1;
    var f := stk[n];
    SlotInChunk(s, A, stk, current, n);
    forall k | 0 <= k < n
      ensures Slot(s, stk[k]) != Slot(s, f)
    {
      SlotInChunk(s, A, stk, current, k);
      ChunksApart(s, A, f.obj, f.off, stk[k].obj, stk[k].off);
    }
    forall i | 0 <= i < Space(s, f.obj) && i != f.off
      ensures Chunk(Overlay(s, base, stk), s.E(f.obj), i) == Chunk(base, s.E(f.obj), i)
    {
      forall k | 0 <= k < |stk|
        ensures Slot(s, stk[k]) != Address(s.E(f.obj)) + i
      {
        if k < n {
          SlotInChunk(s, A, stk, current, k);
          ChunksApart(s, A, f.obj, i, stk[k].obj, stk[k].off);
        }
      }
      OverlayElsewhere(s, base, stk, Address(s.E(f.obj)) + i);
    }
  }

  lemma {:induction false} ChainParts(s: State, A: set<int>, base: seq<Word>, t: State, stk: seq<Frame>, current: int)
    requires Chain(s, A, base, t, stk, current)
    ensures Heap(s, A) && current in A && SameEntries(s, t)
    ensures stk == [] ==> t.words == base
    ensures Block(s, current) && t.E(current) == s.E(current).(count := t.E(current).count)
  {
    assert Unfold(0);
  }

  lemma {:induction false} CurrentOffStack(s: State, A: set<int>, base: seq<Word>, t: State, stk: seq<Frame>,
                                           current: int)
    requires Chain(s, A, base, t, stk, current)
    ensures !OnStack(stk, current) && Oop(current)
  {
    assert Unfold(0);
  }

  // What an intact object off the stack reads as during the traversal.
  lemma {:induction false} ReadOffStack(s: State, A: set<int>, base: seq<Word>, t: State, stk: seq<Frame>, current: int,
                                        p: int)
    requires Chain(s, A, base, t, stk, current) && p in A && !OnStack(stk, p) && Intact(s, base, p)
    ensures forall i :: 0 <= i < SizeOf(s, p) ==> WordOf(t, p, i) == WordOf(s, p, i)
    ensures LastPointer(t, p) == LastPointer(s, p) && Space(t, p) == Space(s, p)
    ensures InHeap(t.E(p), SizeOf(s, p)) && SizeOf(s, p) >= 2
  {
    assert Unfold(0);
    assert Block(s, p);
    forall i | 0 <= i < SizeOf(s, p)
      ensures WordOf(t, p, i) == WordOf(s, p, i)
    {
      OffStack(s, A, base, stk, current, p, i);
    }
  }

  // On the retreat the size of the top object is recomputed while its class may be covered by a
  // link.  The value may differ then, but never the choice between count field and spare word.
  lemma {:induction false} SizeOnRetreat(s: State, A: set<int>, base: seq<Word>, t: State, stk: seq<Frame>,
                                         current: int)
    requires Chain(s, A, base, t, stk, current) && stk != []
    ensures var p := stk[|stk| - 1].obj;
      && (LastPointer(t, p) < HUGE_SIZE <==> LastPointer(s, p) < HUGE_SIZE)
      && (LastPointer(s, p) >= HUGE_SIZE ==> LastPointer(t, p) == LastPointer(s, p))
  {
    assert Unfold(0);
    var f := stk[|stk| - 1];
    var p := f.obj;
    OnTop(s, A, base, stk, current);
    SlotInChunk(s, A, stk, current, |stk| - 1);
    assert Intact(s, base, p) && 0 != f.off;
    assert Chunk(Overlay(s, base, stk), s.E(p), 0) == Chunk(base, s.E(p), 0);
    assert SizeOf(t, p) == WordOf(s, p, 0);
    assert t.E(p).pointer == s.E(p).pointer;
  }

  lemma {:induction false} DescendLeads(s: State, A: set<int>, stk: seq<Frame>, current: Word, offset: Word, next: Word)
    requires Heap(s, A) && Leads(s, A, stk, current)
    requires PointsTo(s, current, offset, next) && next != current && !OnStack(stk, next)
    ensures Leads(s, A, stk + [Frame(current, offset)], next)
    ensures !OnStack(stk, current)
  {
    var stk' := stk + [Frame(current, offset)];
    forall k | 0 <= k < |stk'|
      ensures stk'[k].obj in A && stk'[k].obj != next
      ensures PointsTo(s, stk'[k].obj, stk'[k].off, Target(stk', next, k))
    {
      if k < |stk| {
        assert stk'[k] == stk[k];
        assert PointsTo(s, stk[k].obj, stk[k].off, Target(stk, current, k));
      }
    }
  }

  // Going down one pointer of an object whose cursor fits its count field keeps the chain.
  lemma {:induction false} DescendSmall(s: State, A: set<int>, base: seq<Word>, t: State, stk: seq<Frame>,
                                        current: Word, offset: Word, next: Word, t': State)
    requires Chain(s, A, base, t, stk, current) && Intact(s, base, current)
    requires PointsTo(s, current, offset, next) && next != current && !OnStack(stk, next)
    requires LastPointer(s, current) < HUGE_SIZE
    requires t'.words == Put<Word>(t.words, Address(s.E(current)) + offset, Link(stk, |stk|))
    requires |t'.ot| == |t.ot| && t'.E(current).count == offset
    requires forall p {:trigger t'.E(p)} :: t'.E(p) == if p == current then t.E(p).(count := t'.E(p).count) else t.E(p)
    ensures Chain(s, A, base, t', stk + [Frame(current, offset)], next)
  {
    assert Unfold(0);
    var stk' := stk + [Frame(current, offset)];
    assert stk'[..|stk|] == stk;
    DescendLeads(s, A, stk, current, offset, next);
    forall k | 0 <= k < |stk'|
      ensures Intact(s, base, stk'[k].obj) && Saved(s, base, t', stk'[k])
    {
      if k < |stk| {
        assert stk'[k] == stk[k];
      }
    }
  }

  // The same for an object whose cursor goes to its spare word.
  lemma {:induction false} DescendHuge(s: State, A: set<int>, base: seq<Word>, t: State, stk: seq<Frame>, current: Word,
                                       offset: Word, next: Word, t': State)
    requires Chain(s, A, base, t, stk, current) && Intact(s, base, current)
    requires PointsTo(s, current, offset, next) && next != current && !OnStack(stk, next)
    requires LastPointer(s, current) >= HUGE_SIZE
    requires t'.words == Put<Word>(Put<Word>(t.words, Address(s.E(current)) + offset, Link(stk, |stk|)),
                             Address(s.E(current)) + LastPointer(s, current), offset)
    requires t'.ot == t.ot
    ensures Chain(s, A, Put<Word>(base, Address(s.E(current)) + LastPointer(s, current), offset), t',
                  stk + [Frame(current, offset)], next)
  {
    assert Unfold(0);
    var base' := Put<Word>(base, Address(s.E(current)) + LastPointer(s, current), offset);
    DescendLeads(s, A, stk, current, offset, next);
    DescendHugeWords(s, A, base, stk, current, offset);
    SameTable(s, base, t, t', stk);
    CursorsOutlastSpare(s, A, base, t', stk, current, offset);
    SpareElsewhere(s, A, base, current, offset, current);
    SpareInChunk(s, A, current);
    ExtendCursors(s, base', t', stk, Frame(current, offset));
  }

  lemma {:induction false} DescendHugeWords(s: State, A: set<int>, base: seq<Word>, stk: seq<Frame>, current: Word,
                                            offset: Word)
    requires Heap(s, A) && Leads(s, A, stk, current) && !OnStack(stk, current)
    requires |base| == |s.words|
    requires LastPointer(s, current) >= HUGE_SIZE && 1 <= offset < LastPointer(s, current)
    ensures var spare := Address(s.E(current)) + LastPointer(s, current);
      Put<Word>(Put<Word>(Overlay(s, base, stk), Address(s.E(current)) + offset, Link(stk, |stk|)), spare, offset)
        == Overlay(s, Put<Word>(base, spare, offset), stk + [Frame(current, offset)])
  {
    var f := Frame(current, offset);
    var spare := Address(s.E(current)) + LastPointer(s, current);
    SpareInChunk(s, A, current);
    OffStack(s, A, base, stk, current, current, LastPointer(s, current));
    OverlayPut(s, base, stk, spare, offset);
    var stk' := stk + [f];
    assert stk'[..|stk|] == stk;
    PutsCommute(Overlay(s, base, stk), Slot(s, f), Link(stk, |stk|), spare, offset);
  }

  lemma {:induction false} PutsCommute(words: seq<Word>, a: int, v: Word, b: int, w: Word)
    requires a != b
    ensures Put<Word>(Put<Word>(words, a, v), b, w) == Put<Word>(Put<Word>(words, b, w), a, v)
  {
  }

  lemma {:induction false} CursorsOutlastSpare(s: State, A: set<int>, base: seq<Word>, t: State, stk: seq<Frame>,
                                               current: int, offset: Word)
    requires Heap(s, A) && Leads(s, A, stk, current) && LastPointer(s, current) >= HUGE_SIZE && Cursors(s, base, t, stk)
    ensures Cursors(s, Put<Word>(base, Address(s.E(current)) + LastPointer(s, current), offset), t, stk)
  {
    forall k | 0 <= k < |stk|
      ensures Intact(s, Put<Word>(base, Address(s.E(current)) + LastPointer(s, current), offset), stk[k].obj)
      ensures Saved(s, Put<Word>(base, Address(s.E(current)) + LastPointer(s, current), offset), t, stk[k])
    {
      SpareElsewhere(s, A, base, current, offset, stk[k].obj);
      SpareUnshared(s, A, base, current, offset, stk[k].obj);
    }
  }

  lemma {:induction false} ExtendCursors(s: State, base: seq<Word>, t: State, stk: seq<Frame>, f: Frame)
    requires Cursors(s, base, t, stk) && Intact(s, base, f.obj) && Saved(s, base, t, f)
    ensures Cursors(s, base, t, stk + [f])
  {
  }

  lemma {:induction false} SpareInChunk(s: State, A: set<int>, p: int)
    requires Heap(s, A) && p in A && LastPointer(s, p) >= HUGE_SIZE
    ensures Space(s, p) == LastPointer(s, p) + 1 && SizeOf(s, p) == LastPointer(s, p)
    ensures 0 <= Address(s.E(p)) + LastPointer(s, p) < |s.words|
    ensures InHeap(s.E(p), LastPointer(s, p))
  {
    assert Block(s, p);
  }

  // Saving a cursor in a spare word leaves every object intact, and every other saved cursor.
  lemma {:induction false} SpareElsewhere(s: State, A: set<int>, base: seq<Word>, current: int, offset: Word, p: int)
    requires Heap(s, A) && current in A && p in A && LastPointer(s, current) >= HUGE_SIZE
    requires Intact(s, base, p)
    ensures Intact(s, Put<Word>(base, Address(s.E(current)) + LastPointer(s, current), offset), p)
  {
    assert Block(s, current) && Block(s, p);
    if p != current {
      assert Apart(s, p, current);
    }
  }

  lemma {:induction false} SpareUnshared(s: State, A: set<int>, base: seq<Word>, current: int, offset: Word, p: int)
    requires Heap(s, A) && current in A && p in A && p != current && LastPointer(s, current) >= HUGE_SIZE
    ensures LastPointer(s, p) >= HUGE_SIZE ==>
      Chunk(Put<Word>(base, Address(s.E(current)) + LastPointer(s, current), offset), s.E(p), LastPointer(s, p))
        == Chunk(base, s.E(p), LastPointer(s, p))
  {
    if LastPointer(s, p) >= HUGE_SIZE {
      SpareInChunk(s, A, current);
      SpareInChunk(s, A, p);
      ChunksApart(s, A, current, LastPointer(s, current), p, LastPointer(s, p));
    }
  }

  // Going back up restores the pointer and shortens the chain.
  lemma {:induction false} PutBack(words: seq<Word>, a: int, v: Word, w: Word)
    requires At(words, a) == w && 0 <= a < |words|
    ensures Put<Word>(Put<Word>(words, a, v), a, w) == words
  {
  }

  lemma {:induction false} RetreatWords(s: State, A: set<int>, base: seq<Word>, stk: seq<Frame>, current: Word)
    requires Heap(s, A) && Leads(s, A, stk, current) && stk != [] && |base| == |s.words| == HEAP_WORDS
    requires Intact(s, base, stk[|stk| - 1].obj)
    ensures Put<Word>(Overlay(s, base, stk), Slot(s, stk[|stk| - 1]), current) == Overlay(s, base, stk[..|stk| - 1])
  {
    var n := |stk| - 1;
    var f := stk[n];
    var below := Overlay(s, base, stk[..n]);
    assert At(below, Slot(s, f)) == current && 0 <= Slot(s, f) < |below| by {
      OnTop(s, A, base, stk, current);
      SlotInChunk(s, A, stk, current, n);
      assert PointsTo(s, f.obj, f.off, Target(stk, current, n));
      assert WordOf(s, f.obj, f.off) == current;
      OverlayElsewhere(s, base, stk[..n], Slot(s, f));
    }
    PutBack(below, Slot(s, f), Link(stk, n), current);
  }

  lemma {:induction false} RetreatLeads(s: State, A: set<int>, stk: seq<Frame>, current: int)
    requires Heap(s, A) && Leads(s, A, stk, current) && stk != []
    ensures Leads(s, A, stk[..|stk| - 1], stk[|stk| - 1].obj)
  {
    var f := stk[|stk| - 1];
    var stk' := stk[..|stk| - 1];
    forall k | 0 <= k < |stk'|
      ensures PointsTo(s, stk'[k].obj, stk'[k].off, Target(stk', f.obj, k))
    {
      assert PointsTo(s, stk[k].obj, stk[k].off, Target(stk, current, k));
    }
  }

  lemma {:induction false} RetreatChain(s: State, A: set<int>, base: seq<Word>, t: State, stk: seq<Frame>,
                                        current: Word, t': State)
    requires Chain(s, A, base, t, stk, current) && stk != []
    requires t' == PutWord(t, Slot(s, stk[|stk| - 1]), current)
    ensures Chain(s, A, base, t', stk[..|stk| - 1], stk[|stk| - 1].obj)
  {
    assert Unfold(0);
    RetreatWords(s, A, base, stk, current);
    RetreatLeads(s, A, stk, current);
    SameTable(s, base, t, t', stk);
    CutCursors(s, base, t', stk);
  }

  // The count of an object off the stack does not matter to the chain.
  lemma {:induction false} CountOffStack(s: State, A: set<int>, base: seq<Word>, t: State, stk: seq<Frame>,
                                         current: int, p: int, c: Byte)
    requires Chain(s, A, base, t, stk, current) && !OnStack(stk, p)
    ensures Chain(s, A, base, PutEntry(t, p, t.E(p).(count := c)), stk, current)
  {
    assert Unfold(0);
    var t' := PutEntry(t, p, t.E(p).(count := c));
    EntriesAfterPut(t, p, t.E(p).(count := c));
    forall k | 0 <= k < |stk|
      ensures Intact(s, base, stk[k].obj) && Saved(s, base, t', stk[k])
    {
      assert t'.E(stk[k].obj) == t.E(stk[k].obj);
    }
  }

  lemma {:induction false} EntriesAfterPut(t: State, p: int, e: Entry)
    ensures forall q {:trigger PutEntry(t, p, e).E(q)} ::
      PutEntry(t, p, e).E(q) == if q == p && 0 <= p < |t.ot| then e else t.E(q)
  {
  }

  lemma {:induction false} OnStackPush(stk: seq<Frame>, f: Frame, p: int)
    ensures OnStack(stk + [f], p) <==> OnStack(stk, p) || p == f.obj
  {
    var stk' := stk + [f];
    assert stk'[|stk|] == f;
    if OnStack(stk, p) {
      var k :| 0 <= k < |stk| && stk[k].obj == p;
      assert stk'[k].obj == p;
    }
  }

  lemma {:induction false} OnStackPop(stk: seq<Frame>, p: int)
    requires stk != []
    ensures OnStack(stk, p) <==> OnStack(stk[..|stk| - 1], p) || p == stk[|stk| - 1].obj
  {
    assert stk == stk[..|stk| - 1] + [stk[|stk| - 1]];
    OnStackPush(stk[..|stk| - 1], stk[|stk| - 1], p);
  }

  lemma {:induction false} CutCursors(s: State, base: seq<Word>, t: State, stk: seq<Frame>)
    requires stk != [] && Cursors(s, base, t, stk)
    ensures Cursors(s, base, t, stk[..|stk| - 1])
  {
  }

  lemma {:induction false} SameTable(s: State, base: seq<Word>, t: State, t': State, stk: seq<Frame>)
    requires SameEntries(s, t) && Cursors(s, base, t, stk) && t'.ot == t.ot
    ensures SameEntries(s, t') && Cursors(s, base, t', stk)
  {
    assert forall p :: t'.E(p) == t.E(p);
  }

  // What the traversal needs of the size it holds: which place the cursor goes to, and that place.
  ghost predicate SizeServes(s: State, p: int, size: Word) {
    (size < HUGE_SIZE <==> LastPointer(s, p) < HUGE_SIZE) &&
    (size >= HUGE_SIZE ==> size == LastPointer(s, p))
  }

  ghost predicate SameRegisters(s: State, t: State) {
    t.freeHead == s.freeHead && t.currentSegment == s.currentSegment &&
    t.freeWords == s.freeWords && t.freeOops == s.freeOops
  }

  // Reverse the pointer at `offset` of `current` and save the cursor.
  method Descend(om: ObjectMemory, current: Word, offset: Word, size: Word, prior: Word, ghost next: Word,
                 ghost s: State, ghost A: set<int>, ghost base: seq<Word>, ghost stk: seq<Frame>)
    returns (ghost base': seq<Word>)
    requires om.Valid() && Chain(s, A, base, om.st, stk, current) && Intact(s, base, current)
    requires PointsTo(s, current, offset, next) && next != current && !OnStack(stk, next)
    requires prior == Link(stk, |stk|) && SizeServes(s, current, size)
    modifies om`st, om.mem
    ensures om.Valid() && Chain(s, A, base', om.st, stk + [Frame(current, offset)], next)
    ensures SameRegisters(old(om.st), om.st)
    ensures forall p :: p != current || LastPointer(s, current) >= HUGE_SIZE ==> om.st.E(p) == old(om.st).E(p)
    ensures LastPointer(s, current) < HUGE_SIZE ==> om.st.E(current).count == offset
    ensures |om.st.ot| == |old(om.st).ot| && om.st.E(current) == old(om.st).E(current).(count := om.st.E(current).count)
    ensures base' == if LastPointer(s, current) < HUGE_SIZE then base
                     else Put<Word>(base, Address(s.E(current)) + LastPointer(s, current), offset)
  {
    base' := base;
    ChainParts(s, A, base, om.st, stk, current);
    om.HeapChunkWordPut(current, offset, prior);
    if size < HUGE_SIZE {
      om.CountBitsPut(current, offset);
      DescendSmall(s, A, base, old(om.st), stk, current, offset, next, om.st);
    } else {
      SpareInChunk(s, A, current);
      om.HeapChunkWordPut(current, size, offset);
      base' := Put<Word>(base, Address(s.E(current)) + LastPointer(s, current), offset);
      DescendHuge(s, A, base, old(om.st), stk, current, offset, next, om.st);
    }
  }

  // The traversal is back at its root exactly when there is no link to go back along.
  lemma {:induction false} LinkTells(s: State, A: set<int>, base: seq<Word>, t: State, stk: seq<Frame>, current: int)
    requires Chain(s, A, base, t, stk, current)
    ensures Link(stk, |stk|) == NON_POINTER <==> stk == []
  {
    assert Unfold(0);
  }

  // Writing outside the chunks of the objects on the stack does not disturb the chain.
  lemma {:induction false} PutOffChain(s: State, A: set<int>, base: seq<Word>, t: State, stk: seq<Frame>, current: int,
                                       a: int, v: Word)
    requires Chain(s, A, base, t, stk, current)
    requires forall k, i {:trigger OffChunk(s, stk[k].obj, i, a)} ::
      0 <= k < |stk| && 0 <= i < Space(s, stk[k].obj) ==> OffChunk(s, stk[k].obj, i, a)
    ensures Chain(s, A, Put<Word>(base, a, v), PutWord(t, a, v), stk, current)
  {
    assert Unfold(0);
    forall k | 0 <= k < |stk|
      ensures Slot(s, stk[k]) != a
    {
      SlotInChunk(s, A, stk, current, k);
      assert OffChunk(s, stk[k].obj, stk[k].off, a);
    }
    OverlayPut(s, base, stk, a, v);
    SameTable(s, base, t, PutWord(t, a, v), stk);
    forall k | 0 <= k < |stk|
      ensures Intact(s, Put<Word>(base, a, v), stk[k].obj) && Saved(s, Put<Word>(base, a, v), PutWord(t, a, v), stk[k])
    {
      PutOffCursor(s, A, base, PutWord(t, a, v), stk[k], a, v);
    }
  }

  ghost predicate OffChunk(s: State, p: int, i: int, a: int) {
    Address(s.E(p)) + i != a
  }

  lemma {:induction false} PutOffCursor(s: State, A: set<int>, base: seq<Word>, t: State, f: Frame, a: int, v: Word)
    requires Heap(s, A) && f.obj in A && Intact(s, base, f.obj) && Saved(s, base, t, f)
    requires forall i {:trigger OffChunk(s, f.obj, i, a)} :: 0 <= i < Space(s, f.obj) ==> OffChunk(s, f.obj, i, a)
    ensures Intact(s, Put<Word>(base, a, v), f.obj) && Saved(s, Put<Word>(base, a, v), t, f)
  {
    assert Block(s, f.obj);
    forall i | 0 <= i < SizeOf(s, f.obj)
      ensures Chunk(Put<Word>(base, a, v), s.E(f.obj), i) == WordOf(s, f.obj, i)
    {
      assert OffChunk(s, f.obj, i, a);
    }
    if LastPointer(s, f.obj) >= HUGE_SIZE {
      SpareInChunk(s, A, f.obj);
      assert OffChunk(s, f.obj, LastPointer(s, f.obj), a);
    }
  }

  // What the retreat finds in the object it returns to.
  lemma {:induction false} TopReads(s: State, A: set<int>, base: seq<Word>, t: State, stk: seq<Frame>, current: int)
    requires Chain(s, A, base, t, stk, current) && stk != []
    ensures var f := stk[|stk| - 1];
      && Oop(f.obj) && t.E(f.obj) == s.E(f.obj).(count := t.E(f.obj).count) && |t.ot| == OBJECT_TABLE_SIZE
      && InHeap(s.E(f.obj), HEADER_SIZE) && InHeap(s.E(f.obj), f.off) && 1 <= f.off < LastPointer(s, f.obj)
      && SizeServes(s, f.obj, LastPointer(t, f.obj))
      && (LastPointer(t, f.obj) < HUGE_SIZE ==> t.E(f.obj).count == f.off)
      && (LastPointer(t, f.obj) >= HUGE_SIZE ==>
            InHeap(s.E(f.obj), LastPointer(t, f.obj)) && WordOf(t, f.obj, LastPointer(t, f.obj)) == f.off)
      && WordOf(t, f.obj, f.off) == Link(stk, |stk| - 1)
  {
    assert Unfold(0);
    var f := stk[|stk| - 1];
    OnTop(s, A, base, stk, current);
    SlotInChunk(s, A, stk, current, |stk| - 1);
    SizeOnRetreat(s, A, base, t, stk, current);
    assert Block(s, f.obj) && Saved(s, base, t, f);
    assert t.E(f.obj) == s.E(f.obj).(count := t.E(f.obj).count);
    if LastPointer(t, f.obj) >= HUGE_SIZE {
      SpareInChunk(s, A, f.obj);
    }
  }

  // Resume the object that `current` was reached from, and put its pointer right.
  method Retreat(om: ObjectMemory, current: Word, prior: Word, ghost s: State, ghost A: set<int>, ghost base: seq<Word>,
                 ghost stk: seq<Frame>)
    returns (offset: Word, size: Word, prior': Word)
    requires om.Valid() && Chain(s, A, base, om.st, stk, current) && stk != []
    requires prior == stk[|stk| - 1].obj
    modifies om`st, om.mem
    ensures om.Valid() && Chain(s, A, base, om.st, stk[..|stk| - 1], prior)
    ensures SameRegisters(old(om.st), om.st) && om.st.ot == old(om.st).ot
    ensures offset == stk[|stk| - 1].off && SizeServes(s, prior, size) && 1 <= offset < LastPointer(s, prior)
    ensures prior' == Link(stk, |stk| - 1)
  {
    TopReads(s, A, base, om.st, stk, current);
    size := om.LastPointerOf(prior);
    if size < HUGE_SIZE {
      offset := om.CountBitsOf(prior);
    } else {
      offset := om.HeapChunkWord(prior, size);
    }
    prior' := om.HeapChunkWord(prior, offset);
    om.HeapChunkWordPut(prior, offset, current);
    RetreatChain(s, A, base, old(om.st), stk, current, om.st);
  }
}
