// Recursive freeing: counting an object down, and freeing what is no longer referred to.
//
// The places that still count are a ghost set R: it loses a field when the traversal scans it.  A
// count equals the places of R that hold the object, plus the counted registers; an object that is
// being freed or is free is held by no place of R.
module Freeing {
  import opened Words
  import opened Memory
  import opened Traversal
  import opened RefCounts
  import opened Layouts

  // Outside the hole, the objects of A point only to each other.
  ghost predicate Closed(s: State, A: set<int>, hole: set<(int, int)>) {
    forall p, i, q {:trigger PointsTo(s, p, i, q)} :: p in A && PointsTo(s, p, i, q) && (p, i) !in hole ==> q in A
  }

  ghost function Elements(order: seq<int>): set<int> {
    set p | p in order
  }

  ghost function Pick<T>(A: set<T>): (x: T)
    requires A != {}
    ensures x in A
  {
    var x :| x in A; x
  }

  ghost function TotalLength(len: map<int, nat>, A: set<int>): nat
    requires A <= len.Keys
  {
    if A == {} then 0 else var p := Pick(A); len[p] + TotalLength(len, A - {p})
  }

  // The objects were freed in this order: each was no longer referred to by any place outside the
  // ones before it and the hole, nor by a register.
  ghost predicate FreedInOrder(s: State, A: set<int>, d: Drop, order: seq<int>) {
    (forall i, j :: 0 <= i < j < |order| ==> order[i] != order[j]) &&
    forall j {:trigger order[j]} :: 0 <= j < |order| ==>
      order[j] in A && 1 <= s.E(order[j]).count < STUCK &&
      Refs(s, A - Elements(order[..j]), d.hole, order[j]) + d.ext[order[j]] == 0
  }

  // t is s after one counted reference has gone.
  ghost predicate Freed(s: State, g: Layout, d: Drop, t: State, g': Layout, order: seq<int>) {
    forall k {:trigger OpenFreed(k)} :: OpenFreed(k) ==> FreedUnfolded(s, g, d, t, g', order)
  }

  ghost predicate OpenFreed(k: int) {
    true
  }

  ghost predicate FreedUnfolded(s: State, g: Layout, d: Drop, t: State, g': Layout, order: seq<int>) {
    FreedInOrder(s, g.alloc, d, order) &&
    d.keep <= g'.alloc && g'.alloc == g.alloc - Elements(order) && g'.len == g.len && g'.frees == g.frees &&
    LaidOut(t, g') && Closed(t, g'.alloc, d.hole) && Exact(t, g'.alloc, d.hole, d.ext) &&
    (forall p {:trigger p in g'.alloc} :: p in g'.alloc ==>
       t.E(p).count <= s.E(p).count && (t.E(p).count == 0 ==> s.E(p).count == 0) &&
         (s.E(p).count == STUCK ==> t.E(p).count == STUCK) &&
       forall i {:trigger WordOf(t, p, i)} :: 0 <= i < SizeOf(s, p) ==> WordOf(t, p, i) == WordOf(s, p, i)) &&
    (forall p {:trigger t.E(p)} :: t.E(p) == if p in g.alloc then s.E(p).(count := t.E(p).count) else s.E(p)) &&
    t.freeHead == s.freeHead && t.currentSegment == s.currentSegment &&
    g.alloc <= g.len.Keys &&
    t.freeWords + TotalLength(g.len, g'.alloc) == s.freeWords + TotalLength(g.len, g.alloc) &&
    t.freeOops + |g'.alloc| == s.freeOops + |g.alloc|
  }

  lemma {:induction false} LaidOutHeap(s: State, g: Layout)
    requires LaidOut(s, g) && Closed(s, g.alloc, NO_HOLE)
    ensures Heap(s, g.alloc) && g.alloc <= g.len.Keys
  {
    assert OpenLayout(0);
    forall p | p in g.alloc
      ensures Oop(p) && Block(s, p)
    {
      assert Placed(s, p, g.len[p]) && Sized(s, p, g.len[p]);
    }
    forall p, q | p in g.alloc && q in g.alloc && p != q
      ensures Apart(s, p, q)
    {
      assert Separate(s, p, g.len[p], q, g.len[q]);
      assert Sized(s, p, g.len[p]) && Sized(s, q, g.len[q]);
    }
  }

  lemma {:induction false} TotalWithout(len: map<int, nat>, A: set<int>, p: int)
    requires A <= len.Keys && p in A
    ensures TotalLength(len, A) == len[p] + TotalLength(len, A - {p})
  {
    var q := Pick(A);
    if q != p {
      TotalWithout(len, A - {q}, p);
      TotalWithout(len, A - {p}, q);
      assert A - {q} - {p} == A - {p} - {q};
    }
  }

  // The heap with its pointers put right is laid out, with the dead objects' chunks on the lists.
  ghost predicate Standing(s: State, g: Layout, base: seq<Word>, t: State, g': Layout, dead: set<int>) {
    forall k {:trigger OpenStanding(k)} :: OpenStanding(k) ==> StandingUnfolded(s, g, base, t, g', dead)
  }

  ghost predicate OpenStanding(k: int) {
    true
  }

  ghost predicate StandingUnfolded(s: State, g: Layout, base: seq<Word>, t: State, g': Layout, dead: set<int>) {
    Shaped(t.(words := base)) && LaidOut(t.(words := base), g') && g'.alloc == g.alloc - dead && g'.len == g.len &&
      g'.frees == g.frees &&
    (forall p {:trigger Intact(s, base, p)} :: p in g.alloc && p !in dead ==> Intact(s, base, p)) &&
    (forall p {:trigger t.E(p)} :: t.E(p) == if p in g.alloc then s.E(p).(count := t.E(p).count) else s.E(p))
  }

  // G, the objects whose last reference has gone: those that are dead and those being freed.
  ghost predicate Going(G: set<int>, stk: seq<Frame>, current: int, dead: set<int>) {
    dead <= G && current in G &&
    (forall k {:trigger stk[k]} :: 0 <= k < |stk| ==>
      stk[k].obj in G && stk[k].obj !in dead && stk[k].obj != current) &&
    (forall p {:trigger p in G} :: p in G ==> p in dead || p == current || OnStack(stk, p))
  }

  ghost predicate Accounts(s: State, g: Layout, t: State, A: set<int>) {
    A <= g.len.Keys && g.alloc <= g.len.Keys &&
    t.freeHead == s.freeHead && t.currentSegment == s.currentSegment &&
    t.freeWords + TotalLength(g.len, A) == s.freeWords + TotalLength(g.len, g.alloc) &&
    t.freeOops + |A| == s.freeOops + |g.alloc|
  }

  // R holds every scanned field outside the hole of an object that is not being freed, and the
  // fields of an object being freed that are still to be scanned.
  ghost predicate Remaining(s: State, A: set<int>, hole: set<(int, int)>, R: set<(int, int)>, G: set<int>,
                            stk: seq<Frame>, current: int, offset: int)
  {
    R <= Places(s, A) - hole &&
    (forall q, i {:trigger (q, i) in R} :: q in A && q !in G && 1 <= i < LastPointer(s, q) && (q, i) !in hole ==>
      (q, i) in R) &&
    (forall i {:trigger (current, i) in R} :: (current, i) in R <==> 1 <= i < offset && i < LastPointer(s, current)) &&
    (forall k, i {:trigger (stk[k].obj, i) in R} :: 0 <= k < |stk| ==>
      ((stk[k].obj, i) in R <==> 1 <= i < stk[k].off)) &&
    (forall x {:trigger x in R} :: x in R ==> x.0 !in G || x.0 == current || OnStack(stk, x.0))
  }

  ghost predicate Counted(s: State, A: set<int>, R: set<(int, int)>, d: Drop, t: State, G: set<int>) {
    forall p {:trigger t.E(p)} :: p in A ==>
      if p in G then |Holders(s, R, p)| + d.ext[p] == 0 else Counts(s, R, d, t, p)
  }

  // An object that is not being freed is counted by the places that still count.
  ghost predicate Counts(s: State, R: set<(int, int)>, d: Drop, t: State, p: int) {
    var c := t.E(p).count;
    (c == STUCK || (c < STUCK && c == |Holders(s, R, p)| + d.ext[p] && s.E(p).count < STUCK)) &&
    c <= s.E(p).count && (c == 0 ==> s.E(p).count == 0)
  }

  // What has been scanned, at index `offset` of current, and who is being freed for it: `order` are
  // the objects whose last reference has gone, in the order in which it went.
  ghost predicate Scan(s: State, g: Layout, d: Drop, t: State, stk: seq<Frame>, current: int, offset: int,
                       R: set<(int, int)>, order: seq<int>, dead: set<int>)
  {
    forall k {:trigger OpenScan(k)} :: OpenScan(k) ==> ScanUnfolded(s, g, d, t, stk, current, offset, R, order, dead)
  }

  ghost predicate OpenScan(k: int) {
    true
  }

  ghost predicate ScanUnfolded(s: State, g: Layout, d: Drop, t: State, stk: seq<Frame>, current: int, offset: int,
                               R: set<(int, int)>, order: seq<int>, dead: set<int>)
  {
    Supported(s, g.alloc, d) && d.keep !! Elements(order) &&
    FreedInOrder(s, g.alloc, d, order) && Going(Elements(order), stk, current, dead) &&
    Remaining(s, g.alloc, d.hole, R, Elements(order), stk, current, offset) &&
    Counted(s, g.alloc, R, d, t, Elements(order))
  }

  // The invariant of the freeing traversal.
  ghost predicate Freeings(s: State, g: Layout, d: Drop, base: seq<Word>, t: State, g': Layout, stk: seq<Frame>,
                           current: int, offset: int, R: set<(int, int)>, order: seq<int>, dead: set<int>)
  {
    forall k {:trigger OpenFreeings(k)} :: OpenFreeings(k) ==>
      FreeingsUnfolded(s, g, d, base, t, g', stk, current, offset, R, order, dead)
  }

  ghost predicate OpenFreeings(k: int) {
    true
  }

  ghost predicate FreeingsUnfolded(s: State, g: Layout, d: Drop, base: seq<Word>, t: State, g': Layout, stk: seq<Frame>,
                                   current: int, offset: int, R: set<(int, int)>, order: seq<int>, dead: set<int>)
  {
    Heap(s, g.alloc) && Standing(s, g, base, t, g', dead) &&
    Scan(s, g, d, t, stk, current, offset, R, order, dead) && Accounts(s, g, t, g.alloc - dead)
  }

  lemma {:induction false} FreeingBegins(s: State, g: Layout, d: Drop, root: int)
    requires LaidOut(s, g) && Closed(s, g.alloc, NO_HOLE) && ExactBefore(s, g.alloc, d, root) &&
      Supported(s, g.alloc, d)
    requires root in g.alloc && s.E(root).count == 1
    ensures var t := PutEntry(s, root, s.E(root).(count := 0));
      Chain(s, g.alloc, s.words, t, [], root) &&
      Freeings(s, g, d, s.words, t, g, [], root, LastPointer(s, root), Places(s, g.alloc) - d.hole, [root], {})
  {
    assert OpenFreeings(0);
    var t := PutEntry(s, root, s.E(root).(count := 0));
    var A := g.alloc;
    EntriesAfterPut(s, root, s.E(root).(count := 0));
    LaidOutHeap(s, g);
    assert Standing(s, g, s.words, t, g, {}) by {
      assert OpenLayout(0) && OpenStanding(0);
      QuietChange(s, t, g);
      assert t.(words := s.words) == t && A - {} == A;
    }
    ScanBegins(s, g, d, root, t);
    assert A - {} == A;
  }

  lemma {:induction false} ScanBegins(s: State, g: Layout, d: Drop, root: int, t: State)
    requires ExactBefore(s, g.alloc, d, root) && Supported(s, g.alloc, d) && root in g.alloc && s.E(root).count == 1
    requires forall p {:trigger t.E(p)} :: t.E(p) == if p == root then s.E(p).(count := 0) else s.E(p)
    ensures Scan(s, g, d, t, [], root, LastPointer(s, root), Places(s, g.alloc) - d.hole, [root], {})
  {
    assert OpenScan(0);
    var A, R := g.alloc, Places(s, g.alloc) - d.hole;
    assert s.E(root).count == Refs(s, A, d.hole, root) + d.ext[root] + 1;
    assert A - Elements([root][..0]) == A;
    assert Elements([root]) == {root};
    KeptNotFreed(s, A, d, R, {}, root);
    forall p | p in A
      ensures if p in {root} then |Holders(s, R, p)| + d.ext[p] == 0 else Counts(s, R, d, t, p)
    {
      assert t.E(p) == if p == root then s.E(p).(count := 0) else s.E(p);
    }
  }

  // The traversal never meets an object that is being freed, whose count may be a cursor.
  lemma {:induction false} FreeingMeets(s: State, g: Layout, d: Drop, base: seq<Word>, t: State, g': Layout,
                                        stk: seq<Frame>, current: int, offset: int, R: set<(int, int)>, order: seq<int>,
                                        dead: set<int>, next: int)
    requires Freeings(s, g, d, base, t, g', stk, current, offset + 1, R, order, dead)
    requires PointsTo(s, current, offset, next)
    ensures next in g.alloc && next !in Elements(order) && 1 <= t.E(next).count <= STUCK
    ensures next != current && !OnStack(stk, next) && (current, offset) in R
    ensures current in g.alloc && next !in dead && Oop(next) && next < |t.ot|
  {
    assert OpenFreeings(0);
    assert OpenScan(0) && OpenStanding(0);
    assert current in g.alloc by {
      assert current in Elements(order);
    }
    assert (current, offset) in R;
    assert (current, offset) in Holders(s, R, next);
    assert t.E(next) == s.E(next).(count := t.E(next).count);
    assert forall k :: 0 <= k < |stk| ==> stk[k].obj in Elements(order);
  }

  lemma {:induction false} RemainingScan(s: State, A: set<int>, hole: set<(int, int)>, R: set<(int, int)>, G: set<int>,
                                         stk: seq<Frame>, current: int, offset: int)
    requires Remaining(s, A, hole, R, G, stk, current, offset + 1) && 1 <= offset < LastPointer(s, current)
    requires current in G && forall k :: 0 <= k < |stk| ==> stk[k].obj != current
    ensures Remaining(s, A, hole, R - {(current, offset)}, G, stk, current, offset)
  {
    var R' := R - {(current, offset)};
    forall i
      ensures (current, i) in R' <==> 1 <= i < offset && i < LastPointer(s, current)
    {
      assert (current, i) in R <==> 1 <= i < offset + 1 && i < LastPointer(s, current);
    }
    forall k, i | 0 <= k < |stk|
      ensures (stk[k].obj, i) in R' <==> 1 <= i < stk[k].off
    {
      assert (stk[k].obj, i) in R <==> 1 <= i < stk[k].off;
    }
    forall q, i | q in A && q !in G && 1 <= i < LastPointer(s, q) && (q, i) !in hole
      ensures (q, i) in R'
    {
      assert (q, i) in R;
    }
  }

  // An entry counted down; a stuck count stays.
  function Lowered(e: Entry): Entry {
    if 1 <= e.count < STUCK then e.(count := e.count - 1) else e
  }

  // The scan of one field takes one reference from the object it holds.
  lemma {:induction false} CountedScan(s: State, A: set<int>, R: set<(int, int)>, x: (int, int), d: Drop, t: State,
                                       t': State, G: set<int>, next: int)
    requires Counted(s, A, R, d, t, G) && x in R && next == WordOf(s, x.0, x.1)
    requires next in A ==> next !in G && t.E(next).count != 1
    requires forall p {:trigger t'.E(p)} :: t'.E(p) == if p == next && p in A then Lowered(t.E(p)) else t.E(p)
    ensures Counted(s, A, R - {x}, d, t', G)
  {
    var R' := R - {x};
    if next in A {
      assert x in Holders(s, R, next);
      assert t.E(next) == t.E(next);
    }
    forall p | p in A
      ensures if p in G then |Holders(s, R', p)| + d.ext[p] == 0 else Counts(s, R', d, t', p)
    {
      HoldersWithout(s, R, x, p);
      assert t'.E(p) == if p == next then Lowered(t.E(p)) else t.E(p);
    }
  }

  lemma {:induction false} StandingCounts(s: State, g: Layout, base: seq<Word>, t: State, t': State, g': Layout,
                                          dead: set<int>)
    requires Standing(s, g, base, t, g', dead)
    requires |t'.ot| == |t.ot| && t'.freeHead == t.freeHead
    requires forall p {:trigger t'.E(p)} ::
      t'.E(p) == if p in g.alloc - dead then t.E(p).(count := t'.E(p).count) else t.E(p)
    ensures Standing(s, g, base, t', g', dead)
  {
    assert OpenStanding(0);
    assert forall p :: t.(words := base).E(p) == t.E(p) && t'.(words := base).E(p) == t'.E(p);
    QuietChange(t.(words := base), t'.(words := base), g');
  }

  // A scanned field that is an integer, or whose object keeps a reference.
  lemma {:induction false} FreeingPasses(s: State, g: Layout, d: Drop, base: seq<Word>, t: State, g': Layout,
                                         stk: seq<Frame>, current: int, offset: int, R: set<(int, int)>,
                                         order: seq<int>, dead: set<int>, t': State)
    requires Chain(s, g.alloc, base, t, stk, current)
    requires Freeings(s, g, d, base, t, g', stk, current, offset + 1, R, order, dead)
    requires 1 <= offset < LastPointer(s, current)
    requires var next := WordOf(s, current, offset);
      if IsInteger(next) then t' == t
      else t.E(next).count != 1 && t' == PutEntry(t, next, Lowered(t.E(next)))
    ensures Freeings(s, g, d, base, t', g', stk, current, offset, R - {(current, offset)}, order, dead)
  {
    assert OpenFreeings(0);
    assert OpenScan(0);
    var next := WordOf(s, current, offset);
    if !IsInteger(next) {
      FreeingMeets(s, g, d, base, t, g', stk, current, offset, R, order, dead, next);
      EntriesAfterPut(t, next, t'.E(next));
    }
    RemainingScan(s, g.alloc, d.hole, R, Elements(order), stk, current, offset);
    assert (current, offset) in R;
    assert IsInteger(next) ==> next !in g.alloc;
    CountedScan(s, g.alloc, R, (current, offset), d, t, t', Elements(order), next);
    StandingCounts(s, g, base, t, t', g', dead);
  }

  // A scanned field whose object has lost its last reference: the traversal goes down into it.

  lemma {:induction false} GoingDescends(G: set<int>, stk: seq<Frame>, current: Word, offset: Word, dead: set<int>,
                                         next: int)
    requires Going(G, stk, current, dead) && next !in G && current !in dead
    ensures Going(G + {next}, stk + [Frame(current, offset)], next, dead)
  {
    var stk' := stk + [Frame(current, offset)];
    forall k | 0 <= k < |stk'|
      ensures stk'[k].obj in G && stk'[k].obj !in dead && stk'[k].obj != next
    {
      if k < |stk| {
        assert stk'[k] == stk[k];
      }
    }
    forall p | p in G + {next}
      ensures p in dead || p == next || OnStack(stk', p)
    {
      OnStackPush(stk, Frame(current, offset), p);
    }
  }

  lemma {:induction false} RemainingDescends(s: State, A: set<int>, hole: set<(int, int)>, R: set<(int, int)>,
                                             G: set<int>, stk: seq<Frame>, current: Word, offset: Word, next: int)
    requires Remaining(s, A, hole, R, G, stk, current, offset) && next in A && next !in G &&
      offset < LastPointer(s, current)
    requires forall x :: x in hole ==> x.0 != next
    ensures Remaining(s, A, hole, R, G + {next}, stk + [Frame(current, offset)], next, LastPointer(s, next))
  {
    var stk' := stk + [Frame(current, offset)];
    forall i
      ensures (next, i) in R <==> 1 <= i < LastPointer(s, next)
    {
      if (next, i) in R {
        assert (next, i) in Places(s, A);
      }
    }
    forall k, i | 0 <= k < |stk'|
      ensures (stk'[k].obj, i) in R <==> 1 <= i < stk'[k].off
    {
      if k < |stk| {
        assert stk'[k] == stk[k];
        assert (stk[k].obj, i) in R <==> 1 <= i < stk[k].off;
      } else {
        assert (current, i) in R <==> 1 <= i < offset && i < LastPointer(s, current);
      }
    }
    forall x | x in R
      ensures x.0 !in G + {next} || x.0 == next || OnStack(stk', x.0)
    {
      OnStackPush(stk, Frame(current, offset), x.0);
    }
  }

  lemma {:induction false} OrderGrows(s: State, A: set<int>, R: set<(int, int)>, d: Drop, order: seq<int>, next: int)
    requires FreedInOrder(s, A, d, order) && next in A && next !in Elements(order) && 1 <= s.E(next).count < STUCK
    requires forall q, i {:trigger (q, i) in R} ::
      q in A && q !in Elements(order) && 1 <= i < LastPointer(s, q) && (q, i) !in d.hole ==> (q, i) in R
    requires |Holders(s, R, next)| + d.ext[next] == 0
    ensures FreedInOrder(s, A, d, order + [next]) && Elements(order + [next]) == Elements(order) + {next}
  {
    var order' := order + [next];
    forall j | 0 <= j < |order'|
      ensures order'[j] in A && 1 <= s.E(order'[j]).count < STUCK
      ensures Refs(s, A - Elements(order'[..j]), d.hole, order'[j]) + d.ext[order'[j]] == 0
    {
      if j < |order| {
        assert order'[..j] == order[..j] && order'[j] == order[j];
      } else {
        assert order'[..j] == order;
        forall x | x in Places(s, A - Elements(order)) - d.hole
          ensures x in R
        {
          assert (x.0, x.1) in R;
        }
        HoldersMonotone(s, Places(s, A - Elements(order)) - d.hole, R, next);
      }
    }
  }

  lemma {:induction false} StandingDescends(s: State, g: Layout, base: seq<Word>, t: State, t': State, g': Layout,
                                            dead: set<int>, current: int, offset: Word)
    requires Heap(s, g.alloc) && Standing(s, g, base, t, g', dead) && current in g.alloc && current !in dead
    requires |t'.ot| == |t.ot| && t'.freeHead == t.freeHead
    requires forall p {:trigger t'.E(p)} ::
      t'.E(p) == if p in g.alloc - dead then t.E(p).(count := t'.E(p).count) else t.E(p)
    ensures var base' := if LastPointer(s, current) < HUGE_SIZE then base
                         else Put<Word>(base, Address(s.E(current)) + LastPointer(s, current), offset);
      Standing(s, g, base', t', g', dead)
  {
    if LastPointer(s, current) < HUGE_SIZE {
      StandingCounts(s, g, base, t, t', g', dead);
    } else {
      assert OpenStanding(0);
      var base' := Put<Word>(base, Address(s.E(current)) + LastPointer(s, current), offset);
      var b, b' := t.(words := base), t'.(words := base');
      forall p | p in g.alloc && p !in dead
        ensures Intact(s, base', p)
      {
        SpareElsewhere(s, g.alloc, base, current, offset, p);
      }
      assert forall p :: b.E(p) == t.E(p) && b'.E(p) == t'.E(p);
      SpareQuiet(s, g, base, t, g', dead, current, offset, b, b');
      QuietChange(b, b', g');
    }
  }

  // The spare word of an allocated object is no head and no part of another chunk.
  lemma {:induction false} SpareQuiet(s: State, g: Layout, base: seq<Word>, t: State, g': Layout, dead: set<int>,
                                      current: int, offset: Word, b: State, b': State)
    requires Heap(s, g.alloc) && Standing(s, g, base, t, g', dead) && current in g.alloc && current !in dead
    requires LastPointer(s, current) >= HUGE_SIZE && b == t.(words := base)
    requires b'.words == Put<Word>(base, Address(s.E(current)) + LastPointer(s, current), offset)
    requires forall p {:trigger b'.E(p)} :: b'.E(p).(count := 0) == b.E(p).(count := 0)
    ensures forall a {:trigger IsHead(a)} :: IsHead(a) ==> At(b'.words, a) == At(b.words, a)
    ensures forall p, i {:trigger WordOf(b', p, i)} :: p in g'.len && 0 <= i < SizeOf(b, p) ==>
      WordOf(b', p, i) == WordOf(b, p, i)
  {
    assert OpenStanding(0);
    assert OpenLayout(0);
    var n := LastPointer(s, current);
    SpareInChunk(s, g.alloc, current);
    assert b.E(current) == t.E(current) == s.E(current).(count := t.E(current).count);
    assert Intact(s, base, current);
    assert SizeOf(b, current) == WordOf(s, current, 0);
    assert current in g'.alloc;
    assert Sized(b, current, g'.len[current]) && g'.len[current] == n + 1;
    forall a | IsHead(a)
      ensures At(b'.words, a) == At(b.words, a)
    {
      HeadOutside(b, g', current, n, a);
    }
    forall p, i | p in g'.len && 0 <= i < SizeOf(b, p)
      ensures WordOf(b', p, i) == WordOf(b, p, i)
    {
      assert b'.E(p).(count := 0) == b.E(p).(count := 0);
      ChunkCoversSize(b, g', p);
      if p != current {
        ElsewhereInHeap(b, g', current, n, p, i);
      }
    }
  }

  lemma {:induction false} ChunkCoversSize(s: State, g: Layout, p: int)
    requires LaidOut(s, g) && p in g.len
    ensures SizeOf(s, p) <= g.len[p]
  {
    assert OpenLayout(0);
    if p in g.alloc {
      assert Sized(s, p, g.len[p]);
    } else {
      assert Listed(g, p);
      var a, i :| a in g.lists && 0 <= i < |g.lists[a]| && g.lists[a][i] == p;
      assert OnList(s, g, a, g.lists[a][i]);
    }
  }

  lemma {:induction false} FreeingDescends(s: State, g: Layout, d: Drop, base: seq<Word>, t: State, g': Layout,
                                           stk: seq<Frame>, current: Word, offset: Word, R: set<(int, int)>,
                                           order: seq<int>, dead: set<int>, next: int, base': seq<Word>, t': State)
    requires Freeings(s, g, d, base, t, g', stk, current, offset + 1, R, order, dead) && current !in dead
    requires PointsTo(s, current, offset, next) && t.E(next).count == 1
    requires SameRegisters(t, t') && |t'.ot| == |t.ot| && t'.E(next) == t.E(next).(count := 0)
    requires forall p {:trigger t'.E(p)} ::
      t'.E(p) == if p == current || p == next then t.E(p).(count := t'.E(p).count) else t.E(p)
    requires base' == if LastPointer(s, current) < HUGE_SIZE then base
                      else Put<Word>(base, Address(s.E(current)) + LastPointer(s, current), offset)
    ensures Freeings(s, g, d, base', t', g', stk + [Frame(current, offset)], next, LastPointer(s, next),
                     R - {(current, offset)}, order + [next], dead)
  {
    assert OpenFreeings(0);
    FreeingMeets(s, g, d, base, t, g', stk, current, offset, R, order, dead, next);
    PlacesDescend(s, g, d, t, t', stk, current, offset, R, order, dead, next);
    StandingDescends(s, g, base, t, t', g', dead, current, offset);
  }

  lemma {:induction false} PlacesDescend(s: State, g: Layout, d: Drop, t: State, t': State, stk: seq<Frame>,
                                         current: Word, offset: Word, R: set<(int, int)>, order: seq<int>,
                                         dead: set<int>, next: int)
    requires Scan(s, g, d, t, stk, current, offset + 1, R, order, dead) && current !in dead
    requires 1 <= offset < LastPointer(s, current) && next == WordOf(s, current, offset) && (current, offset) in R
    requires next in g.alloc && next !in Elements(order) && t.E(next).count == 1
    requires forall p {:trigger t'.E(p)} :: p != current && p != next ==> t'.E(p) == t.E(p)
    ensures Scan(s, g, d, t', stk + [Frame(current, offset)], next, LastPointer(s, next), R - {(current, offset)},
      order + [next], dead)
  {
    assert OpenScan(0);
    var A, G, R' := g.alloc, Elements(order), R - {(current, offset)};
    RemainingScan(s, A, d.hole, R, G, stk, current, offset);
    CountedDescends(s, A, R, (current, offset), d, t, t', G, current, next);
    KeptNotFreed(s, A, d, R', G, next);
    RemainingDescends(s, A, d.hole, R', G, stk, current, offset, next);
    OrderGrows(s, A, R', d, order, next);
    GoingDescends(G, stk, current, offset, dead, next);
  }

  // An object that is kept never loses its last reference.
  lemma {:induction false} KeptNotFreed(s: State, A: set<int>, d: Drop, R: set<(int, int)>, G: set<int>, next: int)
    requires Supported(s, A, d) && d.keep !! G && 1 <= s.E(next).count < STUCK &&
      |Holders(s, R, next)| + d.ext[next] == 0
    requires forall q, i {:trigger (q, i) in R} ::
      q in A && q !in G && 1 <= i < LastPointer(s, q) && (q, i) !in d.hole ==> (q, i) in R
    ensures next !in d.keep && forall x :: x in d.hole ==> x.0 != next
  {
    forall x | x in Places(s, d.keep) - d.hole
      ensures x in R
    {
      assert (x.0, x.1) in R;
    }
    HoldersMonotone(s, Places(s, d.keep) - d.hole, R, next);
  }

  lemma {:induction false} CountedDescends(s: State, A: set<int>, R: set<(int, int)>, x: (int, int), d: Drop, t: State,
                                           t': State, G: set<int>, current: int, next: int)
    requires Counted(s, A, R, d, t, G) && x in R && next == WordOf(s, x.0, x.1)
    requires next in A && next !in G && current in G && t.E(next).count == 1
    requires forall p {:trigger t'.E(p)} :: p != current && p != next ==> t'.E(p) == t.E(p)
    ensures Counted(s, A, R - {x}, d, t', G + {next})
    ensures |Holders(s, R - {x}, next)| + d.ext[next] == 0 && 1 <= s.E(next).count < STUCK
  {
    var R' := R - {x};
    HoldersWithout(s, R, x, next);
    assert Counts(s, R, d, t, next);
    forall p | p in A
      ensures if p in G + {next} then |Holders(s, R', p)| + d.ext[p] == 0 else Counts(s, R', d, t', p)
    {
      HoldersWithout(s, R, x, p);
      assert t.E(p) == t.E(p);
      if p !in G + {next} {
        assert t'.E(p) == t.E(p);
      }
    }
  }

  // The action: current, all of whose pointers have been scanned, is freed.

  ghost function Acted(t: State, p: int): State {
    var t1 := PutEntry(t, p, t.E(p).(count := 0));
    Deallocated(t1.(freeWords := t1.freeWords + Space(t1, p), freeOops := t1.freeOops + 1), p)
  }

  // Through the links laid over the heap, current and the list heads read as they would without.
  lemma {:induction false} ActSees(s: State, g: Layout, base: seq<Word>, t: State, g': Layout, stk: seq<Frame>,
                                   current: int, dead: set<int>)
    requires Chain(s, g.alloc, base, t, stk, current) && Standing(s, g, base, t, g', dead) && current !in dead
    ensures current in g.len && Sized(t.(words := base), current, g.len[current]) &&
      Space(t, current) == Space(t.(words := base), current) == g.len[current]
    ensures Placed(t.(words := base), current, g.len[current])
    ensures SizeOf(t, current) == SizeOf(s, current)
    ensures var h := HeadFor(Space(t, current), t.E(current).segment); IsHead(h) && At(t.words, h) == At(base, h)
    ensures forall k, i, a {:trigger OffChunk(s, stk[k].obj, i, a)} ::
      0 <= k < |stk| && 0 <= i < Space(s, stk[k].obj) &&
        (IsHead(a) || a == Address(t.E(current)) || a == Address(t.E(current)) + 1)
      ==> OffChunk(s, stk[k].obj, i, a)
  {
    assert OpenStanding(0);
    ChainParts(s, g.alloc, base, t, stk, current);
    var b := t.(words := base);
    assert b.E(current) == t.E(current);
    assert Sized(b, current, g.len[current]) && Placed(b, current, g.len[current]) by {
      assert OpenLayout(0);
    }
    assert Intact(s, base, current);
    CurrentOffStack(s, g.alloc, base, t, stk, current);
    ReadOffStack(s, g.alloc, base, t, stk, current, current);
    assert SizeOf(b, current) == WordOf(s, current, 0);
    var h := HeadFor(Space(t, current), t.E(current).segment);
    HeadForIsHead(Space(t, current), t.E(current).segment);
    assert Unfold(0);
    forall k, i, a | 0 <= k < |stk| && 0 <= i < Space(s, stk[k].obj) &&
      (IsHead(a) || a == Address(t.E(current)) || a == Address(t.E(current)) + 1)
      ensures OffChunk(s, stk[k].obj, i, a)
    {
      ActElsewhere(s, g.alloc, stk[k].obj, i, current, a);
    }
    forall k | 0 <= k < |stk|
      ensures Slot(s, stk[k]) != h
    {
      SlotInChunk(s, g.alloc, stk, current, k);
      assert OffChunk(s, stk[k].obj, stk[k].off, h);
    }
    OverlayElsewhere(s, base, stk, h);
  }

  lemma {:induction false} ActElsewhere(s: State, A: set<int>, p: int, i: int, current: int, a: int)
    requires Heap(s, A) && p in A && current in A && p != current && 0 <= i < Space(s, p)
    requires IsHead(a) || a == Address(s.E(current)) || a == Address(s.E(current)) + 1
    ensures OffChunk(s, p, i, a)
  {
    assert Block(s, p) && Block(s, current);
    if IsHead(a) {
      assert (Address(s.E(p)) + i) % 65536 == s.E(p).location + i;
    } else {
      ChunksApart(s, A, p, i, current, a - Address(s.E(current)));
    }
  }

  // The three words that the action writes.
  ghost function ActWords(words: seq<Word>, e: Entry, space: Word, p: Word): seq<Word> {
    var h := HeadFor(space, e.segment);
    Put<Word>(Put<Word>(Put<Word>(words, Address(e), space), Address(e) + 1, At(words, h)), h, p)
  }

  lemma {:induction false} ActedWords(t: State, p: Word)
    requires Space(t, p) < 65536
    ensures Acted(t, p).words == ActWords(t.words, t.E(p), Space(t, p), p)
    ensures Acted(t, p).ot == PutEntry(t, p, t.E(p).(count := 0)).ot
  {
    EntriesAfterPut(t, p, t.E(p).(count := 0));
    var t1 := PutEntry(t, p, t.E(p).(count := 0));
    assert SizeOf(t1, p) == SizeOf(t, p) && t1.E(p).pointer == t.E(p).pointer;
  }

  lemma {:induction false} ChainActs(s: State, g: Layout, base: seq<Word>, t: State, g': Layout, stk: seq<Frame>,
                                     current: int, dead: set<int>)
    requires Chain(s, g.alloc, base, t, stk, current) && Standing(s, g, base, t, g', dead) && current !in dead
    ensures Chain(s, g.alloc, Acted(t.(words := base), current).words, Acted(t, current), stk, current)
  {
    var b := t.(words := base);
    ActSees(s, g, base, t, g', stk, current, dead);
    CurrentOffStack(s, g.alloc, base, t, stk, current);
    CountOffStack(s, g.alloc, base, t, stk, current, current, 0);
    var t1 := PutEntry(t, current, t.E(current).(count := 0));
    ActedWords(t, current);
    ActedWords(b, current);
    assert b.E(current) == t.E(current);
    ChainPuts(s, g.alloc, base, t1, stk, current, t.E(current), Space(t, current));
    ChainRegisters(s, g.alloc, ActWords(base, t.E(current), Space(t, current), current),
                   t1.(words := ActWords(t.words, t.E(current), Space(t, current), current)), stk, current,
                     Acted(t, current));
  }

  lemma {:induction false} ChainPuts(s: State, A: set<int>, base: seq<Word>, t: State, stk: seq<Frame>, current: Word,
                                     e: Entry, space: Word)
    requires Chain(s, A, base, t, stk, current)
    requires var h := HeadFor(space, e.segment); IsHead(h) && At(t.words, h) == At(base, h)
    requires forall k, i, a {:trigger OffChunk(s, stk[k].obj, i, a)} ::
      0 <= k < |stk| && 0 <= i < Space(s, stk[k].obj) && (IsHead(a) || a == Address(e) || a == Address(e) + 1)
      ==> OffChunk(s, stk[k].obj, i, a)
    ensures Chain(s, A, ActWords(base, e, space, current), t.(words := ActWords(t.words, e, space, current)), stk,
      current)
  {
    var a, h := Address(e), HeadFor(space, e.segment);
    PutOffChain(s, A, base, t, stk, current, a, space);
    var base2, t2 := Put<Word>(base, a, space), PutWord(t, a, space);
    PutOffChain(s, A, base2, t2, stk, current, a + 1, At(t.words, h));
    var base3, t3 := Put<Word>(base2, a + 1, At(t.words, h)), PutWord(t2, a + 1, At(t.words, h));
    PutOffChain(s, A, base3, t3, stk, current, h, current);
  }

  lemma {:induction false} ChainRegisters(s: State, A: set<int>, base: seq<Word>, t: State, stk: seq<Frame>,
                                          current: int, t': State)
    requires Chain(s, A, base, t, stk, current) && t'.words == t.words && t'.ot == t.ot
    ensures Chain(s, A, base, t', stk, current)
  {
    assert Unfold(0);
    SameTable(s, base, t, t', stk);
  }

  // The same state with its count zeroed and the accounts adjusted, before it is deallocated.
  ghost function Zeroed(t: State, p: int): State {
    var t1 := PutEntry(t, p, t.E(p).(count := 0));
    t1.(freeWords := t1.freeWords + Space(t1, p), freeOops := t1.freeOops + 1)
  }

  lemma {:induction false} ZeroedWord(b: State, p: int, t: State, q: int, i: int)
    requires t == Zeroed(b, p)
    requires t.E(q) == if q == p then b.E(p).(count := 0) else b.E(q)
    ensures WordOf(t, q, i) == WordOf(b, q, i)
  {
  }

  lemma {:induction false} ZeroedLaidOut(b: State, g': Layout, p: int, t: State)
    requires LaidOut(b, g') && Shaped(b) && p in g'.alloc && t == Zeroed(b, p)
    ensures LaidOut(t, g') && t.E(p).count == 0
    ensures forall q {:trigger t.E(q)} :: t.E(q) == if q == p then b.E(p).(count := 0) else b.E(q)
  {
    assert Oop(p) by {
      assert OpenLayout(0);
      assert Placed(b, p, g'.len[p]);
    }
    EntriesAfterPut(b, p, b.E(p).(count := 0));
    forall q
      ensures t.E(q) == if q == p then b.E(p).(count := 0) else b.E(q)
    {
    }
    forall q, i
      ensures WordOf(t, q, i) == WordOf(b, q, i)
    {
      ZeroedWord(b, p, t, q, i);
    }
    QuietChange(b, t, g');
  }

  lemma {:induction false} StandingActs(s: State, g: Layout, base: seq<Word>, t: State, g': Layout, stk: seq<Frame>,
                                        current: int, dead: set<int>)
    returns (g'': Layout)
    requires Chain(s, g.alloc, base, t, stk, current) && Standing(s, g, base, t, g', dead) && current !in dead
    ensures Standing(s, g, Acted(t.(words := base), current).words, Acted(t, current), g'', dead + {current})
  {
    assert OpenStanding(0);
    var b := t.(words := base);
    ChainParts(s, g.alloc, base, t, stk, current);
    var b2, u, t' := Zeroed(b, current), Acted(b, current), Acted(t, current);
    ZeroedLaidOut(b, g', current, b2);
    DeallocateLaidOut(b2, g', current);
    g'' := WithoutObject(b2, g', current);
    ActSees(s, g, base, t, g', stk, current, dead);
    ZeroedSpace(t, current);
    ZeroedSpace(b, current);
    assert u == t'.(words := u.words);
    assert g.alloc - (dead + {current}) == g.alloc - dead - {current};
    forall p
      ensures b2.E(p).(count := 0) == t.E(p).(count := 0)
      ensures t'.E(p) == if p == current then t.E(p).(count := 0) else t.E(p)
    {
      EntriesAfterPut(t, current, t.E(current).(count := 0));
      assert b2.E(p) == if p == current then b.E(p).(count := 0) else b.E(p);
    }
    forall p | p in g.alloc && p !in dead + {current}
      ensures Intact(s, u.words, p)
    {
      assert t.E(p) == s.E(p).(count := t.E(p).count);
      IntactActs(s, g, base, b2, g', current, p);
    }
  }

  lemma {:induction false} ZeroedSpace(t: State, p: int)
    ensures Space(Zeroed(t, p), p) == Space(t, p) && Zeroed(t, p).freeWords == t.freeWords + Space(t, p)
    ensures Acted(t, p) == Deallocated(Zeroed(t, p), p)
    ensures Acted(t, p).freeWords == t.freeWords + Space(t, p) && Acted(t, p).freeOops == t.freeOops + 1
    ensures SameRegisters(Acted(t, p).(freeWords := 0, freeOops := 0), t.(freeWords := 0, freeOops := 0))
  {
    EntriesAfterPut(t, p, t.E(p).(count := 0));
    assert SizeOf(PutEntry(t, p, t.E(p).(count := 0)), p) == SizeOf(t, p);
  }

  lemma {:induction false} IntactActs(s: State, g: Layout, base: seq<Word>, b: State, g': Layout, current: int, p: int)
    requires Intact(s, base, p) && b.words == base && LaidOut(b, g') && current in g'.alloc && p in g'.alloc &&
      p != current
    requires b.E(p).(count := 0) == s.E(p).(count := 0)
    ensures Intact(s, Deallocated(b, current).words, p)
  {
    assert OpenLayout(0);
    assert Sized(b, p, g'.len[p]) && Sized(b, current, g'.len[current]);
    DeallocatedWords(b, g', current);
    if SizeOf(s, p) > 0 {
      assert Chunk(base, s.E(p), 0) == WordOf(s, p, 0);
    }
    forall i | 0 <= i < SizeOf(s, p)
      ensures Chunk(Deallocated(b, current).words, s.E(p), i) == WordOf(s, p, i)
    {
      assert WordOf(Deallocated(b, current), p, i) == WordOf(b, p, i);
      assert Chunk(base, s.E(p), i) == WordOf(s, p, i);
    }
  }

  lemma {:induction false} FreeingActs(s: State, g: Layout, d: Drop, base: seq<Word>, t: State, g': Layout,
                                       stk: seq<Frame>, current: int, R: set<(int, int)>, order: seq<int>,
                                       dead: set<int>)
    returns (g'': Layout)
    requires Chain(s, g.alloc, base, t, stk, current) && current !in dead
    requires Freeings(s, g, d, base, t, g', stk, current, 1, R, order, dead)
    ensures Freeings(s, g, d, Acted(t.(words := base), current).words, Acted(t, current), g'', stk, current, 1, R,
      order, dead + {current})
    ensures Chain(s, g.alloc, Acted(t.(words := base), current).words, Acted(t, current), stk, current)
  {
    assert OpenFreeings(0);
    ChainActs(s, g, base, t, g', stk, current, dead);
    g'' := StandingActs(s, g, base, t, g', stk, current, dead);
    ActSees(s, g, base, t, g', stk, current, dead);
    ChainParts(s, g.alloc, base, t, stk, current);
    AccountsAct(s, g, t, current, dead);
    ScanActs(s, g, d, t, stk, current, R, order, dead);
  }

  lemma {:induction false} AccountsAct(s: State, g: Layout, t: State, current: int, dead: set<int>)
    requires Accounts(s, g, t, g.alloc - dead) && current in g.alloc - dead && Space(t, current) == g.len[current]
    ensures Accounts(s, g, Acted(t, current), g.alloc - (dead + {current}))
  {
    ZeroedSpace(t, current);
    assert g.alloc - (dead + {current}) == g.alloc - dead - {current};
    TotalWithout(g.len, g.alloc - dead, current);
  }

  lemma {:induction false} ScanActs(s: State, g: Layout, d: Drop, t: State, stk: seq<Frame>, current: int,
                                    R: set<(int, int)>, order: seq<int>, dead: set<int>)
    requires Scan(s, g, d, t, stk, current, 1, R, order, dead)
    ensures Scan(s, g, d, Acted(t, current), stk, current, 1, R, order, dead + {current})
  {
    assert OpenScan(0);
    EntriesAfterPut(t, current, t.E(current).(count := 0));
    var G := Elements(order);
    forall p | p in g.alloc
      ensures if p in G then |Holders(s, R, p)| + d.ext[p] == 0 else Counts(s, R, d, Acted(t, current), p)
    {
      assert t.E(p) == t.E(p);
      assert p != current ==> Acted(t, current).E(p) == t.E(p);
    }
  }

  // The object current was reached from is resumed.
  lemma {:induction false} FreeingRetreats(s: State, g: Layout, d: Drop, base: seq<Word>, t: State, g': Layout,
                                           stk: seq<Frame>, current: int, R: set<(int, int)>, order: seq<int>,
                                           dead: set<int>, t': State)
    requires Chain(s, g.alloc, base, t, stk, current) && stk != [] && current in dead
    requires Freeings(s, g, d, base, t, g', stk, current, 1, R, order, dead)
    requires SameRegisters(t, t') && t'.ot == t.ot
    ensures var f := stk[|stk| - 1];
      Freeings(s, g, d, base, t', g', stk[..|stk| - 1], f.obj, f.off, R, order, dead) && f.obj !in dead
  {
    assert OpenFreeings(0);
    assert forall p :: t'.E(p) == t.E(p);
    StandingCounts(s, g, base, t, t', g', dead);
    DistinctFrames(s, g.alloc, base, t, stk, current);
    ScanRetreats(s, g, d, t, stk, current, R, order, dead, t');
  }

  lemma {:induction false} ScanRetreats(s: State, g: Layout, d: Drop, t: State, stk: seq<Frame>, current: int,
                                        R: set<(int, int)>, order: seq<int>, dead: set<int>, t': State)
    requires Scan(s, g, d, t, stk, current, 1, R, order, dead) && stk != [] && current in dead && t'.ot == t.ot
    requires forall j, k :: 0 <= j < k < |stk| ==> stk[j].obj != stk[k].obj
    requires forall k {:trigger stk[k]} :: 0 <= k < |stk| ==> stk[k].off < LastPointer(s, stk[k].obj)
    ensures Scan(s, g, d, t', stk[..|stk| - 1], stk[|stk| - 1].obj, stk[|stk| - 1].off, R, order, dead)
    ensures stk[|stk| - 1].obj !in dead
  {
    assert OpenScan(0);
    var G := Elements(order);
    GoingRetreats(G, stk, current, dead);
    RemainingRetreats(s, g.alloc, d.hole, R, G, stk, current);
    forall p | p in g.alloc
      ensures if p in G then |Holders(s, R, p)| + d.ext[p] == 0 else Counts(s, R, d, t', p)
    {
      assert t'.E(p) == t.E(p);
    }
  }

  lemma {:induction false} GoingRetreats(G: set<int>, stk: seq<Frame>, current: int, dead: set<int>)
    requires Going(G, stk, current, dead) && current in dead && stk != []
    requires forall j, k :: 0 <= j < k < |stk| ==> stk[j].obj != stk[k].obj
    ensures Going(G, stk[..|stk| - 1], stk[|stk| - 1].obj, dead) && stk[|stk| - 1].obj !in dead
  {
    var f, stk' := stk[|stk| - 1], stk[..|stk| - 1];
    forall k | 0 <= k < |stk'|
      ensures stk'[k].obj in G && stk'[k].obj !in dead && stk'[k].obj != f.obj
    {
      assert stk'[k] == stk[k];
    }
    forall p | p in G
      ensures p in dead || p == f.obj || OnStack(stk', p)
    {
      OnStackPop(stk, p);
    }
  }

  lemma {:induction false} DistinctFrames(s: State, A: set<int>, base: seq<Word>, t: State, stk: seq<Frame>,
                                          current: int)
    requires Chain(s, A, base, t, stk, current)
    ensures forall j, k :: 0 <= j < k < |stk| ==> stk[j].obj != stk[k].obj
    ensures forall k {:trigger stk[k]} :: 0 <= k < |stk| ==> stk[k].off < LastPointer(s, stk[k].obj)
  {
    assert Unfold(0);
    forall k | 0 <= k < |stk|
      ensures stk[k].off < LastPointer(s, stk[k].obj)
    {
      SlotInChunk(s, A, stk, current, k);
    }
  }

  lemma {:induction false} RemainingRetreats(s: State, A: set<int>, hole: set<(int, int)>, R: set<(int, int)>,
                                             G: set<int>, stk: seq<Frame>, current: int)
    requires Remaining(s, A, hole, R, G, stk, current, 1) && stk != []
    requires forall k {:trigger stk[k]} :: 0 <= k < |stk| ==> stk[k].off < LastPointer(s, stk[k].obj)
    ensures Remaining(s, A, hole, R, G, stk[..|stk| - 1], stk[|stk| - 1].obj, stk[|stk| - 1].off)
  {
    var f, stk' := stk[|stk| - 1], stk[..|stk| - 1];
    forall i
      ensures (f.obj, i) in R <==> 1 <= i < f.off && i < LastPointer(s, f.obj)
    {
      assert (stk[|stk| - 1].obj, i) in R <==> 1 <= i < f.off;
    }
    forall k, i | 0 <= k < |stk'|
      ensures (stk'[k].obj, i) in R <==> 1 <= i < stk'[k].off
    {
      assert stk'[k] == stk[k];
      assert (stk[k].obj, i) in R <==> 1 <= i < stk[k].off;
    }
    assert forall i :: (current, i) !in R;
    forall x | x in R
      ensures x.0 !in G || x.0 == f.obj || OnStack(stk', x.0)
    {
      assert x == (x.0, x.1);
      OnStackPop(stk, x.0);
    }
  }

  // The end

  lemma {:induction false} IntactShape(s: State, t: State, q: int)
    requires Block(s, q) && t.E(q).(count := 0) == s.E(q).(count := 0)
    requires forall i {:trigger WordOf(t, q, i)} :: 0 <= i < SizeOf(s, q) ==> WordOf(t, q, i) == WordOf(s, q, i)
    ensures LastPointer(t, q) == LastPointer(s, q) && SizeOf(t, q) == SizeOf(s, q)
  {
    assert SizeOf(t, q) == WordOf(t, q, 0) && ClassOf(t, q) == WordOf(t, q, 1);
  }

  // The survivors are as they were, counts aside.
  lemma {:induction false} SurvivorsSame(s: State, g: Layout, t: State, g': Layout, dead: set<int>)
    requires Heap(s, g.alloc) && Standing(s, g, t.words, t, g', dead)
    ensures forall q {:trigger q in g'.alloc} :: q in g'.alloc ==>
      LastPointer(t, q) == LastPointer(s, q) &&
      forall i {:trigger WordOf(t, q, i)} :: 0 <= i < SizeOf(s, q) ==> WordOf(t, q, i) == WordOf(s, q, i)
    ensures forall q {:trigger Block(s, q)} :: q in g'.alloc ==> Block(s, q)
  {
    assert OpenStanding(0);
    forall q | q in g'.alloc
      ensures LastPointer(t, q) == LastPointer(s, q)
      ensures forall i {:trigger WordOf(t, q, i)} :: 0 <= i < SizeOf(s, q) ==> WordOf(t, q, i) == WordOf(s, q, i)
    {
      assert Intact(s, t.words, q) && Block(s, q);
      assert t.E(q) == s.E(q).(count := t.E(q).count);
      forall i | 0 <= i < SizeOf(s, q)
        ensures WordOf(t, q, i) == WordOf(s, q, i)
      {
        assert Chunk(t.words, s.E(q), i) == WordOf(s, q, i);
      }
      IntactShape(s, t, q);
    }
  }

  lemma {:induction false} PlacesLeft(s: State, g: Layout, d: Drop, t: State, current: int, R: set<(int, int)>,
                                      order: seq<int>, dead: set<int>)
    requires Scan(s, g, d, t, [], current, 1, R, order, dead) && current in dead
    ensures dead == Elements(order) && R == Places(s, g.alloc - dead) - d.hole && FreedInOrder(s, g.alloc, d, order)
    ensures d.keep <= g.alloc - dead
    ensures Counted(s, g.alloc, R, d, t, dead)
  {
    assert OpenScan(0);
    var G := Elements(order);
    forall p | p in G
      ensures p in dead
    {
    }
    forall x | x in R
      ensures x in Places(s, g.alloc - dead) - d.hole
    {
      assert x in Places(s, g.alloc);
      assert (current, x.1) !in R;
      assert x == (x.0, x.1);
    }
    forall x | x in Places(s, g.alloc - dead) - d.hole
      ensures x in R
    {
      assert (x.0, x.1) in R;
    }
  }

  lemma {:induction false} ExactLeft(s: State, g: Layout, d: Drop, t: State, g': Layout, dead: set<int>)
    requires Heap(s, g.alloc) && g'.alloc == g.alloc - dead
    requires Counted(s, g.alloc, Places(s, g'.alloc) - d.hole, d, t, dead)
    requires forall q {:trigger q in g'.alloc} :: q in g'.alloc ==>
      LastPointer(t, q) == LastPointer(s, q) &&
      forall i {:trigger WordOf(t, q, i)} :: 0 <= i < SizeOf(s, q) ==> WordOf(t, q, i) == WordOf(s, q, i)
    requires forall q {:trigger Block(s, q)} :: q in g'.alloc ==> Block(s, q)
    ensures Exact(t, g'.alloc, d.hole, d.ext) && Closed(t, g'.alloc, d.hole)
    ensures forall p {:trigger p in g'.alloc} :: p in g'.alloc ==>
      t.E(p).count <= s.E(p).count && (t.E(p).count == 0 ==> s.E(p).count == 0)
  {
    forall q, i | q in g'.alloc && 1 <= i < LastPointer(s, q)
      ensures WordOf(t, q, i) == WordOf(s, q, i)
    {
      assert Block(s, q);
    }
    forall p | p in g'.alloc
      ensures t.E(p).count == STUCK || (t.E(p).count < STUCK && t.E(p).count == Refs(t, g'.alloc, d.hole, p) + d.ext[p])
      ensures t.E(p).count <= s.E(p).count && (t.E(p).count == 0 ==> s.E(p).count == 0)
    {
      assert Counts(s, Places(s, g'.alloc) - d.hole, d, t, p);
      RefsSame(s, t, g'.alloc, d.hole, p);
    }
    forall p, i, q | p in g'.alloc && PointsTo(t, p, i, q) && (p, i) !in d.hole
      ensures q in g'.alloc
    {
      assert WordOf(t, p, i) == WordOf(s, p, i);
      assert PointsTo(s, p, i, q);
      assert (p, i) in Holders(s, Places(s, g'.alloc) - d.hole, q);
      assert t.E(q) == t.E(q);
    }
  }

  lemma {:induction false} FreeingEnds(s: State, g: Layout, d: Drop, base: seq<Word>, t: State, g': Layout,
                                       current: int, R: set<(int, int)>, order: seq<int>, dead: set<int>)
    requires Chain(s, g.alloc, base, t, [], current) && current in dead
    requires Freeings(s, g, d, base, t, g', [], current, 1, R, order, dead)
    ensures Freed(s, g, d, t, g', order)
  {
    assert OpenFreed(0);
    assert OpenFreeings(0);
    ChainParts(s, g.alloc, base, t, [], current);
    PlacesLeft(s, g, d, t, current, R, order, dead);
    assert t.(words := base) == t;
    SurvivorsSame(s, g, t, g', dead);
    assert StandingUnfolded(s, g, base, t, g', dead) by {
      assert OpenStanding(0);
    }
    ExactLeft(s, g, d, t, g', dead);
  }

  method CountDownOne(om: ObjectMemory, p: Word) returns (zero: bool)
    requires om.Valid() && InTable(p) && 1 <= om.st.E(p).count
    modifies om`st, om.mem
    ensures om.Valid() && zero == (old(om.st).E(p).count == 1)
    ensures om.st == if old(om.st).E(p).count < STUCK
                     then PutEntry(old(om.st), p, old(om.st).E(p).(count := old(om.st).E(p).count - 1)) else old(om.st)
  {
    var count := om.CountBitsOf(p);
    count := count - 1;
    if count < 127 {
      om.CountBitsPut(p, count);
    }
    zero := count == 0;
  }

  // The current object reads as it did before the traversal.
  lemma {:induction false} CurrentStands(s: State, g: Layout, base: seq<Word>, t: State, g': Layout, dead: set<int>,
                                         stk: seq<Frame>, current: int)
    requires Chain(s, g.alloc, base, t, stk, current) && Standing(s, g, base, t, g', dead) && current !in dead
    ensures Oop(current) && InHeap(t.E(current), SizeOf(s, current)) && 2 <= SizeOf(s, current) <= |t.ot|
    ensures 1 <= LastPointer(t, current) == LastPointer(s, current) <= SizeOf(s, current)
    ensures Intact(s, base, current)
    ensures forall i :: 0 <= i < SizeOf(s, current) ==> WordOf(t, current, i) == WordOf(s, current, i)
  {
    ChainParts(s, g.alloc, base, t, stk, current);
    CurrentOffStack(s, g.alloc, base, t, stk, current);
    assert Intact(s, base, current) by {
      assert OpenStanding(0);
    }
    ReadOffStack(s, g.alloc, base, t, stk, current, current);
  }

  method SizeOnEntry(om: ObjectMemory, current: Word, ghost s: State, ghost g: Layout, ghost base: seq<Word>,
                     ghost g': Layout, ghost stk: seq<Frame>, ghost dead: set<int>, ghost d: Drop, ghost offset: int,
                     ghost R: set<(int, int)>, ghost order: seq<int>)
    returns (size: Word)
    requires om.Valid() && Chain(s, g.alloc, base, om.st, stk, current) && current !in dead
    requires Freeings(s, g, d, base, om.st, g', stk, current, offset, R, order, dead)
    ensures 1 <= size == LastPointer(s, current)
  {
    assert OpenFreeings(0);
    CurrentStands(s, g, base, om.st, g', dead, stk, current);
    size := om.LastPointerOf(current);
  }

  // Count down what the pointer at `offset` of current refers to, and go down into it if that was
  // its last reference.
  method FreeField(om: ObjectMemory, current: Word, offset: Word, size: Word, prior: Word, ghost s: State,
                   ghost g: Layout, ghost d: Drop, ghost base: seq<Word>, ghost g': Layout, ghost stk: seq<Frame>,
                   ghost R: set<(int, int)>, ghost order: seq<int>, ghost dead: set<int>)
    returns (descend: bool, next: Word, ghost base': seq<Word>)
    requires om.Valid() && Chain(s, g.alloc, base, om.st, stk, current) && current !in dead
    requires Freeings(s, g, d, base, om.st, g', stk, current, offset + 1, R, order, dead)
    requires 1 <= offset < LastPointer(s, current) && SizeServes(s, current, size) && prior == Link(stk, |stk|)
    modifies om`st, om.mem
    ensures om.Valid()
    ensures !descend ==>
      Chain(s, g.alloc, base, om.st, stk, current) &&
      Freeings(s, g, d, base, om.st, g', stk, current, offset, R - {(current, offset)}, order, dead)
    ensures descend ==>
      next in g.alloc && next !in Elements(order) && next !in dead &&
        Elements(order + [next]) == Elements(order) + {next} &&
      Chain(s, g.alloc, base', om.st, stk + [Frame(current, offset)], next) &&
      Freeings(s, g, d, base', om.st, g', stk + [Frame(current, offset)], next, LastPointer(s, next),
               R - {(current, offset)}, order + [next], dead)
  {
    ghost var t := om.st;
    assert Standing(s, g, base, t, g', dead) by {
      assert OpenFreeings(0);
    }
    CurrentStands(s, g, base, t, g', dead, stk, current);
    next := om.HeapChunkWord(current, offset);
    descend := false;
    base' := base;
    if !IsInteger(next) {
      FreeingMeets(s, g, d, base, t, g', stk, current, offset, R, order, dead, next);
      descend := CountDownOne(om, next);
      EntriesAfterPut(t, next, Lowered(t.E(next)));
      CountOffStack(s, g.alloc, base, t, stk, current, next, Lowered(t.E(next)).count);
    }
    if descend {
      base' := Descend(om, current, offset, size, prior, next, s, g.alloc, base, stk);
      FreeingDescends(s, g, d, base, t, g', stk, current, offset, R, order, dead, next, base', om.st);
    } else {
      FreeingPasses(s, g, d, base, t, g', stk, current, offset, R, order, dead, om.st);
    }
  }

  // The action of the freeing traversal.
  method FreeObject(om: ObjectMemory, p: Word)
    requires om.Valid() && InTable(p) && InHeap(om.st.E(p), 1) && HEADER_SIZE <= Space(om.st, p) < 65536
    requires om.st.E(p).location <= HEAP_SPACE_STOP
    modifies om`st, om`freeWords, om`freeOops, om.mem
    ensures om.Valid() && om.st == Acted(old(om.st), p)
  {
    ZeroedSpace(om.st, p);
    EntriesAfterPut(om.st, p, om.st.E(p).(count := 0));
    om.CountBitsPut(p, 0);
    var space := om.SpaceOccupiedBy(p);
    om.freeWords := om.freeWords + space;
    om.freeOops := om.freeOops + 1;
    om.st := om.st.(freeWords := om.freeWords, freeOops := om.freeOops);
    Deallocate(om, p);
  }

  // All pointers of current have been scanned: free it, and go back if it was reached from another object.
  method FreeDone(om: ObjectMemory, current: Word, prior: Word, ghost s: State, ghost g: Layout, ghost d: Drop,
                  ghost base: seq<Word>, ghost g': Layout, ghost stk: seq<Frame>, ghost R: set<(int, int)>,
                  ghost order: seq<int>, ghost dead: set<int>)
    returns (done: bool, offset: Word, size: Word, prior': Word, ghost base': seq<Word>, ghost g'': Layout)
    requires om.Valid() && Chain(s, g.alloc, base, om.st, stk, current) && current !in dead
    requires Freeings(s, g, d, base, om.st, g', stk, current, 1, R, order, dead) && prior == Link(stk, |stk|)
    modifies om`st, om`freeWords, om`freeOops, om.mem
    ensures om.Valid() && done == (stk == [])
    ensures done ==> Freed(s, g, d, om.st, g'', order)
    ensures !done ==>
      var f := stk[|stk| - 1];
      && prior == f.obj && prior !in dead + {current} && offset == f.off && 1 <= offset < LastPointer(s, prior)
      && SizeServes(s, prior, size) && prior' == Link(stk, |stk| - 1)
      && Chain(s, g.alloc, base', om.st, stk[..|stk| - 1], prior)
      && Freeings(s, g, d, base', om.st, g'', stk[..|stk| - 1], prior, offset, R, order, dead + {current})
  {
    offset, size, prior' := 1, 1, prior;
    ghost var t := om.st;
    assert Standing(s, g, base, t, g', dead) by {
      assert OpenFreeings(0);
    }
    ActSees(s, g, base, t, g', stk, current, dead);
    base' := Acted(t.(words := base), current).words;
    g'' := FreeingActs(s, g, d, base, t, g', stk, current, R, order, dead);
    FreeObject(om, current);
    LinkTells(s, g.alloc, base', om.st, stk, current);
    done := prior == NON_POINTER;
    if done {
      FreeingEnds(s, g, d, base', om.st, g'', current, R, order, dead + {current});
    } else {
      t := om.st;
      offset, size, prior' := Retreat(om, current, prior, s, g.alloc, base', stk);
      FreeingRetreats(s, g, d, base', t, g'', stk, current, R, order, dead + {current}, om.st);
    }
  }

  // Free root, whose last reference has gone, and all that goes with it.
  method FreeOthersAccessibleFrom(om: ObjectMemory, root: Word, ghost s: State, ghost g: Layout, ghost d: Drop)
    returns (ghost g': Layout, ghost order: seq<int>)
    requires om.Valid() && Chain(s, g.alloc, s.words, om.st, [], root)
    requires Freeings(s, g, d, s.words, om.st, g, [], root, LastPointer(s, root), Places(s, g.alloc) - d.hole, [root],
      {})
    modifies om`st, om`freeWords, om`freeOops, om.mem
    ensures om.Valid() && Freed(s, g, d, om.st, g', order)
  {
    ghost var stk: seq<Frame>, base := [], s.words;
    ghost var R, dead: set<int> := Places(s, g.alloc) - d.hole, {};
    g', order := g, [root];
    var prior := NON_POINTER;
    var current := root;
    var size := SizeOnEntry(om, current, s, g, base, g', stk, dead, d, LastPointer(s, current), R, order);
    var offset := size;
    while true
      invariant om.Valid() && Chain(s, g.alloc, base, om.st, stk, current) && current !in dead
      invariant Freeings(s, g, d, base, om.st, g', stk, current, offset, R, order, dead)
      invariant 1 <= offset <= LastPointer(s, current) && SizeServes(s, current, size)
      invariant prior == Link(stk, |stk|)
      decreases g.alloc - Elements(order), |stk|, offset
    {
      offset := offset - 1;
      if offset > 0 {
        var descend, next;
        ghost var base';
        descend, next, base' := FreeField(om, current, offset, size, prior, s, g, d, base, g', stk, R, order, dead);
        R := R - {(current, offset)};
        if descend {
          base, stk, order := base', stk + [Frame(current, offset)], order + [next];
          prior := current;
          current := next;
          size := SizeOnEntry(om, current, s, g, base, g', stk, dead, d, LastPointer(s, current), R, order);
          offset := size;
        }
      } else {
        var done, offset', size', prior';
        ghost var base', g'';
        done, offset', size', prior', base',
          g'' := FreeDone(om, current, prior, s, g, d, base, g', stk, R, order, dead);
        dead, base, g' := dead + {current}, base', g'';
        if done {
          return;
        }
        current, offset, size, prior := prior, offset', size', prior';
        stk := stk[..|stk| - 1];
      }
    }
  }

  // s is ready for a counted reference to root to go, kept folded.
  ghost predicate DropReady(s: State, g: Layout, d: Drop, root: int) {
    forall k {:trigger OpenFreed(k)} :: OpenFreed(k) ==> DropReadyUnfolded(s, g, d, root)
  }

  ghost predicate DropReadyUnfolded(s: State, g: Layout, d: Drop, root: int) {
    Shaped(s) && LaidOut(s, g) && Closed(s, g.alloc, NO_HOLE) && Supported(s, g.alloc, d) &&
    if IsInteger(root) then Exact(s, g.alloc, d.hole, d.ext) else root in g.alloc && ExactBefore(s, g.alloc, d, root)
  }

  // A counted reference to root goes, from a field being overwritten or from a register.
  method CountDown(om: ObjectMemory, root: Word, ghost g: Layout, ghost d: Drop)
    returns (ghost g': Layout, ghost order: seq<int>)
    requires om.Valid() && DropReady(om.st, g, d, root)
    modifies om`st, om`freeWords, om`freeOops, om.mem
    ensures om.Valid() && Freed(old(om.st), g, d, om.st, g', order)
  {
    g', order := g, [];
    ghost var s := om.st;
    assert DropReadyUnfolded(s, g, d, root) by {
      assert OpenFreed(0);
    }
    if IsInteger(root) {
      FreedNothing(s, g, d, root, s);
      return;
    }
    RootCounted(s, g, d, root);
    var zero := CountDownOne(om, root);
    if zero {
      FreeingBegins(s, g, d, root);
      g', order := FreeOthersAccessibleFrom(om, root, s, g, d);
    } else {
      FreedNothing(s, g, d, root, om.st);
    }
  }

  lemma {:induction false} RootCounted(s: State, g: Layout, d: Drop, root: int)
    requires LaidOut(s, g) && ExactBefore(s, g.alloc, d, root) && root in g.alloc
    ensures Oop(root) && 1 <= s.E(root).count <= STUCK
  {
    assert OpenLayout(0);
    assert Placed(s, root, g.len[root]);
    assert s.E(root) == s.E(root);
  }

  // Counting down an object that keeps a reference only lowers its count.
  lemma {:induction false} FreedNothing(s: State, g: Layout, d: Drop, root: int, t: State)
    requires Shaped(s) && LaidOut(s, g) && Closed(s, g.alloc, NO_HOLE) && Supported(s, g.alloc, d)
    requires if IsInteger(root) then t == s && Exact(s, g.alloc, d.hole, d.ext)
             else
               root in g.alloc && ExactBefore(s, g.alloc, d, root) && s.E(root).count != 1 &&
               t == PutEntry(s, root, Lowered(s.E(root)))
    ensures Freed(s, g, d, t, g, [])
  {
    assert OpenFreed(0);
    assert Elements([]) == {} && g.alloc - {} == g.alloc;
    assert g.alloc <= g.len.Keys by {
      assert OpenLayout(0);
    }
    if !IsInteger(root) {
      EntriesAfterPut(s, root, Lowered(s.E(root)));
      RootCounted(s, g, d, root);
    }
    QuietChange(s, t, g);
    NothingExact(s, g, d, root, t);
    forall p, i | p in g.alloc
      ensures WordOf(t, p, i) == WordOf(s, p, i)
    {
      CountSame(s, t, root, p);
    }
  }

  lemma {:induction false} NothingExact(s: State, g: Layout, d: Drop, root: int, t: State)
    requires Closed(s, g.alloc, NO_HOLE)
    requires if IsInteger(root) then t == s && Exact(s, g.alloc, d.hole, d.ext)
             else
               0 <= root < |s.ot| && ExactBefore(s, g.alloc, d, root) && 2 <= s.E(root).count <= STUCK &&
               t == PutEntry(s, root, Lowered(s.E(root)))
    ensures Exact(t, g.alloc, d.hole, d.ext) && Closed(t, g.alloc, d.hole)
  {
    EntriesAfterPut(s, root, Lowered(s.E(root)));
    forall q
      ensures LastPointer(t, q) == LastPointer(s, q) && forall i :: WordOf(t, q, i) == WordOf(s, q, i)
    {
      CountSame(s, t, root, q);
    }
    forall p | p in g.alloc
      ensures t.E(p).count == STUCK || (t.E(p).count < STUCK && t.E(p).count == Refs(t, g.alloc, d.hole, p) + d.ext[p])
    {
      RefsSame(s, t, g.alloc, d.hole, p);
      assert s.E(p) == s.E(p);
    }
    forall p, i, q | p in g.alloc && PointsTo(t, p, i, q)
      ensures q in g.alloc
    {
      assert PointsTo(s, p, i, q);
    }
  }

  lemma {:induction false} CountSame(s: State, t: State, root: int, q: int)
    requires t == s || t == PutEntry(s, root, s.E(root).(count := t.E(root).count))
    ensures LastPointer(t, q) == LastPointer(s, q) && forall i :: WordOf(t, q, i) == WordOf(s, q, i)
    ensures t.E(q) == s.E(q).(count := t.E(q).count)
  {
    if t != s {
      EntriesAfterPut(s, root, s.E(root).(count := t.E(root).count));
      assert t.E(q).(count := 0) == s.E(q).(count := 0);
    }
  }
}
