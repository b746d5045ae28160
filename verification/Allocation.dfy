// Taking a chunk from the free lists: exact fits, splits, and the object table entry they need.
module Allocation {
  import opened Words
  import opened Memory
  import opened Layouts

  // Laid out but for p, which is in use and neither allocated nor on a list: a chunk in hand.
  ghost predicate InHand(s: State, g: Layout, p: int) {
    forall k {:trigger OpenLayout(k)} :: OpenLayout(k) ==> InHandUnfolded(s, g, p)
  }

  ghost predicate InHandUnfolded(s: State, g: Layout, p: int) {
    Framed(s, g) && AllListed(g, {p}) && p in g.len && p !in g.alloc && !Listed(g, p) &&
    SizeOf(s, p) == g.len[p] && s.E(p).count == 0
  }

  // The allocated objects are untouched.
  ghost predicate Untouched(s: State, t: State, g: Layout) {
    forall p {:trigger t.E(p)} {:trigger p in g.alloc} :: p in g.alloc ==>
      t.E(p) == s.E(p) && p in g.len && forall i {:trigger WordOf(t, p, i)} :: 0 <= i < g.len[p] ==>
        WordOf(t, p, i) == WordOf(s, p, i)
  }

  function Without<T>(list: seq<T>, i: int): seq<T>
    requires 0 <= i < |list|
  {
    list[..i] + list[i + 1..]
  }

  // Where the link to element i of the list at head a is kept.
  ghost function LinkTo(s: State, g: Layout, a: int, i: int): int
    requires a in g.lists && 0 <= i < |g.lists[a]|
  {
    if i == 0 then a else Address(s.E(g.lists[a][i - 1])) + 1
  }

  ghost function Unlinked(s: State, g: Layout, a: int, i: int): State
    requires a in g.lists && 0 <= i < |g.lists[a]|
  {
    PutWord(s, LinkTo(s, g, a, i), ClassOf(s, g.lists[a][i]))
  }

  ghost function WithoutChunk(g: Layout, a: int, i: int): Layout
    requires a in g.lists && 0 <= i < |g.lists[a]|
  {
    g.(lists := g.lists[a := Without(g.lists[a], i)])
  }

  lemma {:induction false} ListMember(s: State, g: Layout, a: int, i: int)
    requires LaidOut(s, g) && a in g.lists && 0 <= i < |g.lists[a]|
    ensures var p := g.lists[a][i];
      OnList(s, g, a, p) && Placed(s, p, g.len[p]) && ClassOf(s, p) == Next(g.lists[a], i + 1) && IsHead(a) && Oop(p)
  {
    assert OpenLayout(0);
    assert Linked(s, a, g.lists[a]) && ClassLink(s, g.lists[a], i);
    assert OnList(s, g, a, g.lists[a][i]);
  }

  // The link is a list head, or the class of the element before.
  lemma {:induction false} LinkPlace(s: State, g: Layout, a: int, i: int)
    requires LaidOut(s, g) && a in g.lists && 0 <= i < |g.lists[a]|
    ensures 0 <= LinkTo(s, g, a, i) < |s.words| && IsHead(a) && |s.words| == HEAP_WORDS
    ensures i > 0 ==> var r := g.lists[a][i - 1]; r in g.len && 2 <= g.len[r] && r !in g.alloc && Placed(s, r, g.len[r])
  {
    ListMember(s, g, a, i);
    assert |s.words| == HEAP_WORDS by {
      assert OpenLayout(0);
    }
    if i > 0 {
      ListMember(s, g, a, i - 1);
    }
  }

  // Only the word that holds the link changes.
  lemma {:induction false} UnlinkWord(s: State, g: Layout, a: int, i: int, q: int, k: int)
    requires LaidOut(s, g) && a in g.lists && 0 <= i < |g.lists[a]| && q in g.len && 0 <= k < g.len[q]
    requires !(i > 0 && q == g.lists[a][i - 1] && k == 1)
    ensures WordOf(Unlinked(s, g, a, i), q, k) == WordOf(s, q, k)
  {
    LinkPlace(s, g, a, i);
    assert Chunks(s, g) by {
      assert OpenLayout(0);
    }
    var link := LinkTo(s, g, a, i);
    assert Address(s.E(q)) + k != link by {
      if i == 0 {
        HeadOutside(s, g, q, k, a);
      } else if q != g.lists[a][i - 1] {
        ElsewhereInHeap(s, g, g.lists[a][i - 1], 1, q, k);
      }
    }
    PutElsewhere(s.words, link, ClassOf(s, g.lists[a][i]), Address(s.E(q)) + k);
  }

  lemma {:induction false} PutElsewhere(words: seq<Word>, a: int, v: Word, b: int)
    requires a != b
    ensures At(Put<Word>(words, a, v), b) == At(words, b)
  {
  }

  lemma {:induction false} UnlinkHead(s: State, g: Layout, a: int, i: int, b: int)
    requires LaidOut(s, g) && a in g.lists && 0 <= i < |g.lists[a]| && IsHead(b) && !(i == 0 && b == a)
    ensures At(Unlinked(s, g, a, i).words, b) == At(s.words, b)
  {
    LinkPlace(s, g, a, i);
    if i > 0 {
      assert Chunks(s, g) by {
        assert OpenLayout(0);
      }
      HeadOutside(s, g, g.lists[a][i - 1], 1, b);
    }
  }

  // No size changes, and no class but the predecessor's.
  lemma {:induction false} UnlinkWords(s: State, g: Layout, a: int, i: int)
    requires LaidOut(s, g) && a in g.lists && 0 <= i < |g.lists[a]|
    ensures var t := Unlinked(s, g, a, i);
      && |t.words| == |s.words| && 0 <= LinkTo(s, g, a, i) < |s.words|
      && (forall q, k {:trigger WordOf(t, q, k)} ::
        q in g.len && 0 <= k < g.len[q] && !(i > 0 && q == g.lists[a][i - 1] && k == 1) ==>
            WordOf(t, q, k) == WordOf(s, q, k))
      && (i > 0 ==> ClassOf(t, g.lists[a][i - 1]) == ClassOf(s, g.lists[a][i]))
      && (i == 0 ==> At(t.words, a) == ClassOf(s, g.lists[a][i]))
      && (forall b {:trigger IsHead(b)} :: IsHead(b) && !(i == 0 && b == a) ==> At(t.words, b) == At(s.words, b))
  {
    LinkPlace(s, g, a, i);
    forall q, k | q in g.len && 0 <= k < g.len[q] && !(i > 0 && q == g.lists[a][i - 1] && k == 1)
      ensures WordOf(Unlinked(s, g, a, i), q, k) == WordOf(s, q, k)
    {
      UnlinkWord(s, g, a, i, q, k);
    }
    forall b | IsHead(b) && !(i == 0 && b == a)
      ensures At(Unlinked(s, g, a, i).words, b) == At(s.words, b)
    {
      UnlinkHead(s, g, a, i, b);
    }
  }

  // The lists are as before, one element of one of them apart.
  lemma {:induction false} WithoutOnce(g: Layout, a: int, i: int)
    requires a in g.lists && 0 <= i < |g.lists[a]|
    requires forall a, b, i, j {:trigger g.lists[a][i], g.lists[b][j]} ::
       (a in g.lists && b in g.lists && 0 <= i < |g.lists[a]| && 0 <= j < |g.lists[b]| &&
         g.lists[a][i] == g.lists[b][j])
       ==> a == b && i == j
    requires AllListed(g, {})
    ensures var g' := WithoutChunk(g, a, i);
      && (forall b, j {:trigger g'.lists[b][j]} :: b in g'.lists && 0 <= j < |g'.lists[b]| ==>
            g'.lists[b][j] == g.lists[b][if b == a && j >= i then j + 1 else j] && g'.lists[b][j] != g.lists[a][i])
      && AllListed(g', {g.lists[a][i]}) && !Listed(g', g.lists[a][i])
  {
    var g' := WithoutChunk(g, a, i);
    forall b, j | b in g'.lists && 0 <= j < |g'.lists[b]|
      ensures g'.lists[b][j] == g.lists[b][if b == a && j >= i then j + 1 else j] && g'.lists[b][j] != g.lists[a][i]
    {
    }
    forall q | q in g.len && q !in g.alloc && q != g.lists[a][i]
      ensures Listed(g', q)
    {
      assert Listed(g, q);
      var b, j :| b in g.lists && 0 <= j < |g.lists[b]| && g.lists[b][j] == q;
      assert g'.lists[b][if b == a && j > i then j - 1 else j] == q;
    }
  }

  // Every other element keeps its size and, but for the predecessor, its class.
  lemma {:induction false} UnlinkElement(s: State, g: Layout, a: int, i: int, b: int, k: int)
    requires LaidOut(s, g) && a in g.lists && 0 <= i < |g.lists[a]| && b in g.lists && 0 <= k < |g.lists[b]|
    ensures var t, q := Unlinked(s, g, a, i), g.lists[b][k];
      && t.E(q) == s.E(q) && SizeOf(t, q) == SizeOf(s, q)
      && ClassOf(t, q) == if b == a && k == i - 1 then Next(g.lists[a], i + 1) else Next(g.lists[b], k + 1)
  {
    var t, q := Unlinked(s, g, a, i), g.lists[b][k];
    UnlinkWords(s, g, a, i);
    ListMember(s, g, b, k);
    ListMember(s, g, a, i);
    assert WordOf(t, q, 0) == WordOf(s, q, 0);
    assert SizeOf(t, q) == WordOf(t, q, 0) && ClassOf(t, q) == WordOf(t, q, 1);
    if i > 0 && !(b == a && k == i - 1) {
      assert q != g.lists[a][i - 1] by {
        assert OpenLayout(0);
      }
      assert WordOf(t, q, 1) == WordOf(s, q, 1);
    }
  }

  lemma {:induction false} WithoutNext(list: seq<int>, i: int, k: int)
    requires 0 <= i < |list| && -1 <= k < |list| && k != i
    ensures Next(Without(list, i), (if k > i then k - 1 else k) + 1) == if k == i - 1 then Next(list, i + 1)
      else Next(list, k + 1)
  {
  }

  lemma {:induction false} UnlinkLinked(s: State, g: Layout, a: int, i: int, b: int)
    requires LaidOut(s, g) && a in g.lists && 0 <= i < |g.lists[a]| && b in g.lists
    ensures Linked(Unlinked(s, g, a, i), b, WithoutChunk(g, a, i).lists[b])
  {
    var t, list, was := Unlinked(s, g, a, i), WithoutChunk(g, a, i).lists[b], g.lists[b];
    assert At(t.words, b) == Next(list, 0) by {
      UnlinkWords(s, g, a, i);
      ListMember(s, g, a, i);
      assert Linked(s, b, was) && IsHead(b) by {
        assert OpenLayout(0);
      }
    }
    forall j | 0 <= j < |list|
      ensures ClassOf(t, list[j]) == Next(list, j + 1)
    {
      var k := if b == a && j >= i then j + 1 else j;
      assert list[j] == was[k];
      UnlinkElement(s, g, a, i, b, k);
      if b == a {
        WithoutNext(was, i, k);
      }
    }
  }

  lemma {:induction false} UnlinkLists(s: State, g: Layout, a: int, i: int)
    requires LaidOut(s, g) && a in g.lists && 0 <= i < |g.lists[a]|
    ensures Lists(Unlinked(s, g, a, i), WithoutChunk(g, a, i))
    ensures AllListed(WithoutChunk(g, a, i), {g.lists[a][i]}) && !Listed(WithoutChunk(g, a, i), g.lists[a][i])
  {
    var t, g' := Unlinked(s, g, a, i), WithoutChunk(g, a, i);
    assert Lists(s, g) && AllListed(g, {}) by {
      assert OpenLayout(0);
    }
    WithoutOnce(g, a, i);
    forall b, j | b in g'.lists && 0 <= j < |g'.lists[b]|
      ensures OnList(t, g', b, g'.lists[b][j])
    {
      var k := if b == a && j >= i then j + 1 else j;
      UnlinkElement(s, g, a, i, b, k);
      ListMember(s, g, b, k);
    }
    forall b | b in g'.lists
      ensures Linked(t, b, g'.lists[b])
    {
      UnlinkLinked(s, g, a, i, b);
    }
  }

  // An element taken off its list is in hand.
  lemma {:induction false} UnlinkInHand(s: State, g: Layout, a: int, i: int)
    requires LaidOut(s, g) && a in g.lists && 0 <= i < |g.lists[a]|
    ensures InHand(Unlinked(s, g, a, i), WithoutChunk(g, a, i), g.lists[a][i])
    ensures Untouched(s, Unlinked(s, g, a, i), g)
  {
    var t, g', p := Unlinked(s, g, a, i), WithoutChunk(g, a, i), g.lists[a][i];
    UnlinkWords(s, g, a, i);
    UnlinkLists(s, g, a, i);
    ListMember(s, g, a, i);
    if i > 0 {
      ListMember(s, g, a, i - 1);
    }
    assert OpenLayout(0);
    assert forall q :: t.E(q) == s.E(q);
    assert WordOf(t, p, 0) == WordOf(s, p, 0);
    SameChunks(s, t, g, g');
    SameFrees(s, t, g.frees);
    forall q | q in g.alloc
      ensures Sized(t, q, g'.len[q]) && q in g.len
      ensures forall k {:trigger WordOf(t, q, k)} :: 0 <= k < g.len[q] ==> WordOf(t, q, k) == WordOf(s, q, k)
    {
      assert Sized(s, q, g.len[q]);
      SameShape(s, t, q, g.len[q]);
    }
  }

  // An object table entry for a new chunk

  method RemoveFromFreePointerList(om: ObjectMemory, ghost frees: seq<int>) returns (p: Word)
    requires om.Valid() && Frees(om.st, frees)
    modifies om`st, om.mem
    ensures om.Valid()
    ensures frees == [] ==> p == NIL_POINTER && om.st == old(om.st)
    ensures frees != [] ==> p == frees[0] && om.st == old(om.st).(freeHead := old(om.st).E(p).location)
  {
    p := om.HeadOfFreePointerList();
    if p == NON_POINTER {
      return NIL_POINTER;
    }
    var next := om.LocationBitsOf(p);
    om.HeadOfFreePointerListPut(next);
  }

  // The entry p taken from the free-pointer list for a chunk of the current segment.
  ghost function Obtained(s: State, p: int, size: Word, location: Word): State {
    var segment := if 0 <= s.currentSegment < HEAP_SEGMENT_COUNT then s.currentSegment else 0;
    var e := Cleared(segment, location);
    s.(freeHead := s.E(p).location, ot := Put(s.ot, p, e), words := Put<Word>(s.words, Address(e), size))
  }

  method ObtainPointer(om: ObjectMemory, size: Word, location: Word, ghost frees: seq<int>) returns (p: Word)
    requires om.Valid() && Frees(om.st, frees) && NIL_POINTER !in frees
    requires 0 <= om.currentSegment < HEAP_SEGMENT_COUNT
    modifies om`st, om.mem
    ensures om.Valid()
    ensures frees == [] ==> p == NIL_POINTER && om.st == old(om.st)
    ensures frees != [] ==> p == frees[0] && p != NIL_POINTER && om.st == Obtained(old(om.st), p, size, location)
  {
    p := RemoveFromFreePointerList(om, frees);
    if p == NIL_POINTER {
      return;
    }
    ClearedIs(om.currentSegment, location);
    om.OtPut(p, 0);
    om.SegmentBitsPut(p, om.currentSegment);
    om.LocationBitsPut(p, location);
    om.SizeBitsPut(p, size);
  }

  // Splitting: the first `excess` words of chunk c stay on its list, the rest goes to entry n.

  ghost function Split(s: State, c: int, n: int, size: Word, excess: Word): State {
    var location := s.E(c).location + excess;
    PutWord(Obtained(s, n, size, if location < 65536 then location else 0), Address(s.E(c)), excess)
  }

  ghost function SplitLayout(g: Layout, c: int, n: int, size: nat, excess: nat): Layout
    requires g.frees != []
  {
    g.(len := g.len[c := excess][n := size], frees := g.frees[1..])
  }

  // n, the first free entry, can take the end of c, a chunk in the current segment.
  ghost predicate CanSplit(s: State, g: Layout, c: int, n: int, size: Word, excess: Word) {
    LaidOut(s, g) && g.frees != [] && n == g.frees[0] && c in g.len && c !in g.alloc &&
    g.len[c] == excess + size && size >= HEADER_SIZE && excess >= HEADER_SIZE &&
    s.E(c).segment == s.currentSegment
  }

  lemma {:induction false} SplitEntries(s: State, g: Layout, c: int, n: int, size: Word, excess: Word)
    requires CanSplit(s, g, c, n, size, excess)
    ensures var t := Split(s, c, n, size, excess);
      && Oop(n) && n !in g.len && Placed(s, c, g.len[c])
      && s.E(c).location + excess + size <= HEAP_SPACE_STOP + 1
      && (forall q {:trigger t.E(q)} ::
        t.E(q) == if q == n then Cleared(s.E(c).segment, s.E(c).location + excess) else s.E(q))
      && |t.ot| == |s.ot| && |t.words| == |s.words|
      && Address(t.E(n)) == Address(s.E(c)) + excess && t.freeHead == Next(g.frees, 1)
  {
    assert OpenLayout(0);
    assert Placed(s, c, g.len[c]);
    assert Oop(g.frees[0]) && s.E(g.frees[0]).free == 1 && FreeLink(s, g.frees, 0);
  }

  // The split writes the two sizes and nothing else.
  lemma {:induction false} SplitAt(s: State, g: Layout, c: int, n: int, size: Word, excess: Word, a: int)
    requires CanSplit(s, g, c, n, size, excess)
    ensures At(Split(s, c, n, size, excess).words, a) ==
      if a == Address(s.E(c)) then excess else if a == Address(s.E(c)) + excess then size else At(s.words, a)
  {
    SplitEntries(s, g, c, n, size, excess);
    assert |s.words| == HEAP_WORDS by {
      assert OpenLayout(0);
    }
  }

  lemma {:induction false} SplitWord(s: State, g: Layout, c: int, n: int, size: Word, excess: Word, q: int, k: int)
    requires CanSplit(s, g, c, n, size, excess) && q in g.len && 0 <= k < g.len[q] &&
      !(q == c && (k == 0 || k == excess))
    ensures WordOf(Split(s, c, n, size, excess), q, k) == WordOf(s, q, k)
  {
    SplitEntries(s, g, c, n, size, excess);
    assert Chunks(s, g) by {
      assert OpenLayout(0);
    }
    assert q in g.len && q != n && Split(s, c, n, size, excess).E(q) == s.E(q);
    SplitAt(s, g, c, n, size, excess, Address(s.E(q)) + k);
    if q != c {
      ElsewhereInHeap(s, g, c, 0, q, k);
      ElsewhereInHeap(s, g, c, excess, q, k);
    }
  }

  lemma {:induction false} SplitWords(s: State, g: Layout, c: int, n: int, size: Word, excess: Word)
    requires CanSplit(s, g, c, n, size, excess)
    ensures var t := Split(s, c, n, size, excess);
      && SizeOf(t, c) == excess && SizeOf(t, n) == size
      && (forall q, k {:trigger WordOf(t, q, k)} ::
        q in g.len && 0 <= k < g.len[q] && !(q == c && (k == 0 || k == excess)) ==>
            WordOf(t, q, k) == WordOf(s, q, k))
      && (forall b {:trigger IsHead(b)} :: IsHead(b) ==> At(t.words, b) == At(s.words, b))
  {
    var t := Split(s, c, n, size, excess);
    SplitEntries(s, g, c, n, size, excess);
    SplitAt(s, g, c, n, size, excess, Address(s.E(c)));
    SplitAt(s, g, c, n, size, excess, Address(s.E(c)) + excess);
    assert t.E(c) == s.E(c) && Address(t.E(n)) == Address(s.E(c)) + excess;
    forall q, k | q in g.len && 0 <= k < g.len[q] && !(q == c && (k == 0 || k == excess))
      ensures WordOf(t, q, k) == WordOf(s, q, k)
    {
      SplitWord(s, g, c, n, size, excess, q, k);
    }
    assert Chunks(s, g) by {
      assert OpenLayout(0);
    }
    forall h | IsHead(h)
      ensures At(t.words, h) == At(s.words, h)
    {
      HeadOutside(s, g, c, 0, h);
      HeadOutside(s, g, c, excess, h);
      SplitAt(s, g, c, n, size, excess, h);
    }
  }

  lemma {:induction false} SplitChunks(s: State, g: Layout, c: int, n: int, size: Word, excess: Word)
    requires CanSplit(s, g, c, n, size, excess)
    ensures Chunks(Split(s, c, n, size, excess), SplitLayout(g, c, n, size, excess))
  {
    var t, g' := Split(s, c, n, size, excess), SplitLayout(g, c, n, size, excess);
    SplitEntries(s, g, c, n, size, excess);
    assert Chunks(s, g) by {
      assert OpenLayout(0);
    }
    forall q | q in g'.len
      ensures Placed(t, q, g'.len[q])
    {
      if q != n {
        assert Placed(s, q, g.len[q]) && t.E(q) == s.E(q);
      }
    }
    forall q, r | q in g'.len && r in g'.len && q != r
      ensures Separate(t, q, g'.len[q], r, g'.len[r])
    {
      var q', r' := if q == n then c else q, if r == n then c else r;
      assert t.E(q) == t.E(q) && t.E(r) == t.E(r);
      if q' != r' {
        assert Separate(s, q', g.len[q'], r', g.len[r']);
      }
    }
  }

  lemma {:induction false} FreesPop(t: State, frees: seq<int>, u: State)
    requires Frees(t, frees) && frees != [] && u.freeHead == t.E(frees[0]).location && u.E(frees[0]).free == 0
    requires forall q {:trigger u.E(q)} :: q != frees[0] ==> u.E(q) == t.E(q)
    ensures Frees(u, frees[1..])
  {
    var rest := frees[1..];
    forall i | 0 <= i < |rest|
      ensures Oop(rest[i]) && u.E(rest[i]).free == 1 && FreeLink(u, rest, i)
    {
      PoppedAt(t, frees, u, i);
    }
    forall p | Oop(p) && u.E(p).free == 1
      ensures p in rest
    {
      assert u.E(p) == t.E(p) && p in frees;
      var i :| 0 <= i < |frees| && frees[i] == p;
      assert i > 0 && rest[i - 1] == p;
    }
    assert FreeLink(t, frees, 0);
  }

  lemma {:induction false} PoppedAt(t: State, frees: seq<int>, u: State, i: int)
    requires Frees(t, frees) && 0 <= i < |frees| - 1
    requires forall q {:trigger u.E(q)} :: q != frees[0] ==> u.E(q) == t.E(q)
    ensures var rest := frees[1..]; Oop(rest[i]) && u.E(rest[i]).free == 1 && FreeLink(u, rest, i)
  {
    assert frees[1..][i] == frees[i + 1] && frees[0] != frees[i + 1] && FreeLink(t, frees, i + 1);
  }

  lemma {:induction false} SplitFrees(s: State, g: Layout, c: int, n: int, size: Word, excess: Word)
    requires CanSplit(s, g, c, n, size, excess)
    ensures Frees(Split(s, c, n, size, excess), g.frees[1..])
  {
    SplitEntries(s, g, c, n, size, excess);
    assert Frees(s, g.frees) by {
      assert OpenLayout(0);
    }
    SplitPops(s, g.frees, Split(s, c, n, size, excess), n);
  }

  lemma {:induction false} SplitPops(s: State, frees: seq<int>, t: State, n: int)
    requires Frees(s, frees) && frees != [] && n == frees[0] && t.freeHead == Next(frees, 1) && t.E(n).free == 0
    requires forall q {:trigger t.E(q)} :: q != n ==> t.E(q) == s.E(q)
    ensures Frees(t, frees[1..])
  {
    assert FreeLink(s, frees, 0);
    FreesPop(s, frees, t);
  }

  lemma {:induction false} SplitLists(s: State, g: Layout, c: int, n: int, size: Word, excess: Word, a: int, i: int)
    requires CanSplit(s, g, c, n, size, excess)
    requires a in g.lists && 0 <= i < |g.lists[a]| && g.lists[a][i] == c && ListSize(a) == BIG_SIZE
    ensures Lists(Split(s, c, n, size, excess), SplitLayout(g, c, n, size, excess))
  {
    var t, g' := Split(s, c, n, size, excess), SplitLayout(g, c, n, size, excess);
    SplitEntries(s, g, c, n, size, excess);
    SplitWords(s, g, c, n, size, excess);
    assert Lists(s, g) by {
      assert OpenLayout(0);
    }
    forall b, j | b in g.lists && 0 <= j < |g.lists[b]|
      ensures OnList(t, g', b, g.lists[b][j]) && ClassOf(t, g.lists[b][j]) == ClassOf(s, g.lists[b][j])
    {
      var q := g.lists[b][j];
      ListMember(s, g, b, j);
      assert t.E(q) == s.E(q) && q != n;
      assert WordOf(t, q, 1) == WordOf(s, q, 1);
      if q != c {
        assert WordOf(t, q, 0) == WordOf(s, q, 0);
      }
    }
    forall b | b in g.lists
      ensures Linked(t, b, g.lists[b])
    {
      assert Linked(s, b, g.lists[b]) && IsHead(b);
      SameLinked(s, t, b, g.lists[b]);
    }
  }

  // The part split off is in hand.
  lemma {:induction false} SplitInHand(s: State, g: Layout, c: int, n: int, size: Word, excess: Word, a: int, i: int)
    requires CanSplit(s, g, c, n, size, excess)
    requires a in g.lists && 0 <= i < |g.lists[a]| && g.lists[a][i] == c && ListSize(a) == BIG_SIZE
    ensures InHand(Split(s, c, n, size, excess), SplitLayout(g, c, n, size, excess), n)
    ensures Untouched(s, Split(s, c, n, size, excess), g)
  {
    var t, g' := Split(s, c, n, size, excess), SplitLayout(g, c, n, size, excess);
    SplitEntries(s, g, c, n, size, excess);
    SplitWords(s, g, c, n, size, excess);
    SplitChunks(s, g, c, n, size, excess);
    SplitFrees(s, g, c, n, size, excess);
    SplitLists(s, g, c, n, size, excess, a, i);
    assert OpenLayout(0);
    forall q | q in g.alloc
      ensures q in g.len && t.E(q) == s.E(q) && Sized(t, q, g'.len[q])
      ensures forall k {:trigger WordOf(t, q, k)} :: 0 <= k < g.len[q] ==> WordOf(t, q, k) == WordOf(s, q, k)
    {
      assert Sized(s, q, g.len[q]) && q != n && q != c;
      SameShape(s, t, q, g.len[q]);
    }
    SplitListed(g, g', n);
    assert forall q :: Oop(q) && t.E(q).free == 0 && q != n ==> s.E(q).free == 0;
  }

  lemma {:induction false} SplitListed(g: Layout, g': Layout, n: int)
    requires AllListed(g, {}) && g'.lists == g.lists && g'.alloc == g.alloc && n !in g.len &&
      g'.len.Keys == g.len.Keys + {n}
    requires forall a, i {:trigger g.lists[a][i]} :: a in g.lists && 0 <= i < |g.lists[a]| ==> g.lists[a][i] in g.len
    ensures AllListed(g', {n}) && !Listed(g', n)
  {
    forall q | q in g'.len && q !in g'.alloc && q != n
      ensures Listed(g', q)
    {
      assert Listed(g, q);
      var a, i :| a in g.lists && 0 <= i < |g.lists[a]| && g.lists[a][i] == q;
      assert g'.lists[a][i] == q;
    }
  }

  // Removing the first chunk of the current segment's list for `size`.
  method RemoveFromFreeChunkList(om: ObjectMemory, size: int, ghost g: Layout) returns (p: Word, ghost g': Layout)
    requires om.Valid() && LaidOut(om.st, g) && 0 <= om.currentSegment < HEAP_SEGMENT_COUNT &&
      HEADER_SIZE <= size <= BIG_SIZE
    requires NIL_POINTER in g.alloc
    modifies om`st, om.mem
    ensures om.Valid()
    ensures var a := HeadAddress(size, old(om.st).currentSegment);
      a in g.lists &&
      if g.lists[a] == [] then p == NIL_POINTER && om.st == old(om.st) && g' == g
      else
        p == g.lists[a][0] && p != NIL_POINTER && om.st == Unlinked(old(om.st), g, a, 0) &&
        g' == WithoutChunk(g, a, 0)
  {
    ghost var a := HeadAddress(size, om.currentSegment);
    g' := g;
    assert a in g.lists && Linked(om.st, a, g.lists[a]) by {
      assert OpenLayout(0);
      assert IsHead(a);
    }
    p := om.HeadOfFreeChunkList(size, om.currentSegment);
    if g.lists[a] != [] {
      ListMember(om.st, g, a, 0);
    }
    if p == NON_POINTER {
      return NIL_POINTER, g;
    }
    var secondChunk := om.ClassBitsOf(p);
    om.HeadOfFreeChunkListPut(size, om.currentSegment, secondChunk);
    g' := WithoutChunk(g, a, 0);
  }

  // A chunk of n words can serve a request for `size` words.
  predicate Serves(n: int, size: int) {
    n == size || n - size >= HEADER_SIZE
  }

  // The list for `size` in a segment.
  ghost function ListFor(g: Layout, size: int, segment: int): seq<int> {
    if HeadAddress(size, segment) in g.lists then g.lists[HeadAddress(size, segment)] else []
  }

  // Element i of the list of big chunks is the first that serves; there is none if i is its length.
  ghost predicate FirstToServe(g: Layout, segment: int, size: int, i: int) {
    var big := ListFor(g, BIG_SIZE, segment);
    0 <= i <= |big| &&
    (forall j {:trigger big[j]} :: 0 <= j < i ==> big[j] in g.len && !Serves(g.len[big[j]], size)) &&
    (i < |big| ==> big[i] in g.len && Serves(g.len[big[i]], size))
  }

  // Which entry a search in the segment gives: the first of the list for `size`, or the first big chunk that
  // serves, whole if it fits and otherwise split, for which the first free entry is needed.
  ghost predicate Picks(g: Layout, segment: int, size: int, p: int) {
    var small, big := ListFor(g, size, segment), ListFor(g, BIG_SIZE, segment);
    if size < BIG_SIZE && small != [] then p == small[0]
    else
      exists i {:trigger FirstToServe(g, segment, size, i)} :: FirstToServe(g, segment, size, i) &&
        if i < |big| && g.len[big[i]] == size then p == big[i]
        else if i < |big| && g.frees != [] then p == g.frees[0]
        else p == NIL_POINTER
  }

  // A chunk of `size` words for p, taken from the lists; everything allocated is untouched.
  ghost predicate Taken(s: State, g: Layout, t: State, g': Layout, p: int, size: int) {
    forall k {:trigger OpenTaken(k)} :: OpenTaken(k) ==> TakenUnfolded(s, g, t, g', p, size)
  }

  ghost predicate SameLengths(g: Layout, g': Layout) {
    forall q {:trigger q in g.alloc} :: q in g.alloc ==> q in g.len && q in g'.len && g'.len[q] == g.len[q]
  }

  ghost predicate OpenTaken(k: int) {
    true
  }

  ghost predicate TakenUnfolded(s: State, g: Layout, t: State, g': Layout, p: int, size: int) {
    InHand(t, g', p) && p in g'.len && g'.len[p] == size && g'.alloc == g.alloc && p != NIL_POINTER &&
    Untouched(s, t, g) && SameLengths(g, g') && (Tiled(s, g) ==> Tiled(t, g')) &&
      |g'.len| + |g'.frees| == |g.len| + |g.frees| &&
    t.currentSegment == s.currentSegment && t.freeWords == s.freeWords && t.freeOops == s.freeOops
  }

  lemma {:induction false} TakenByUnlink(s: State, g: Layout, a: int, i: int)
    requires LaidOut(s, g) && a in g.lists && 0 <= i < |g.lists[a]| && NIL_POINTER in g.alloc
    ensures g.lists[a][i] in g.len
    ensures Taken(s, g, Unlinked(s, g, a, i), WithoutChunk(g, a, i), g.lists[a][i], g.len[g.lists[a][i]])
  {
    var t := Unlinked(s, g, a, i);
    ListMember(s, g, a, i);
    UnlinkInHand(s, g, a, i);
    if Tiled(s, g) {
      forall segment, w | 0 <= segment < HEAP_SEGMENT_COUNT && 0 <= w < HEAP_SPACE_STOP
        ensures InChunk(t, WithoutChunk(g, a, i), segment, w)
      {
        assert InChunk(s, g, segment, w);
        var q :| q in g.len && s.E(q).segment == segment && s.E(q).location <= w < s.E(q).location + g.len[q];
        assert t.E(q) == s.E(q);
      }
    }
  }

  lemma {:induction false} TakenBySplit(s: State, g: Layout, c: int, n: int, size: Word, excess: Word, a: int, i: int)
    requires CanSplit(s, g, c, n, size, excess) && n != NIL_POINTER
    requires a in g.lists && 0 <= i < |g.lists[a]| && g.lists[a][i] == c && ListSize(a) == BIG_SIZE
    ensures Taken(s, g, Split(s, c, n, size, excess), SplitLayout(g, c, n, size, excess), n, size)
  {
    var t, g' := Split(s, c, n, size, excess), SplitLayout(g, c, n, size, excess);
    SplitEntries(s, g, c, n, size, excess);
    SplitInHand(s, g, c, n, size, excess, a, i);
    if Tiled(s, g) {
      forall segment, w | 0 <= segment < HEAP_SEGMENT_COUNT && 0 <= w < HEAP_SPACE_STOP
        ensures InChunk(t, g', segment, w)
      {
        assert InChunk(s, g, segment, w);
        var q :| q in g.len && s.E(q).segment == segment && s.E(q).location <= w < s.E(q).location + g.len[q];
        var r := if q == c && w >= s.E(c).location + excess then n else q;
        assert t.E(r) == t.E(r) && r in g'.len;
      }
    }
    assert g'.len.Keys == g.len.Keys + {n};
  }

  // Element i of the list of big chunks, and where the link to it is.
  lemma {:induction false} BigReads(s: State, g: Layout, i: int, p: int)
    requires LaidOut(s, g) && 0 <= s.currentSegment < HEAP_SEGMENT_COUNT && BigAt(s, g, i, p)
    ensures p in g.len && Oop(p) && InHeap(s.E(p), 1)
    ensures LinkTo(s, g, HeadAddress(BIG_SIZE, s.currentSegment), i) == if i == 0 then
      HeadAddress(BIG_SIZE, s.currentSegment) else Address(s.E(BigChunks(s, g)[i - 1])) + 1
    ensures i > 0 ==> Oop(BigChunks(s, g)[i - 1]) && InHeap(s.E(BigChunks(s, g)[i - 1]), 1)
  {
    var a := HeadAddress(BIG_SIZE, s.currentSegment);
    ListMember(s, g, a, i);
    if i > 0 {
      ListMember(s, g, a, i - 1);
    }
  }

  // An exact fit: take element i off the list of big chunks.
  method TakeWhole(om: ObjectMemory, p: Word, predecessor: Word, ghost g: Layout, ghost i: int)
    returns (ghost g': Layout)
    requires om.Valid() && LaidOut(om.st, g) && 0 <= om.currentSegment < HEAP_SEGMENT_COUNT && NIL_POINTER in g.alloc
    requires BigAt(om.st, g, i, p) && predecessor == if i == 0 then NON_POINTER else BigChunks(om.st, g)[i - 1]
    modifies om`st, om.mem
    ensures om.Valid() && p in g.len && Taken(old(om.st), g, om.st, g', p, g.len[p])
  {
    ghost var s, a := om.st, HeadAddress(BIG_SIZE, om.currentSegment);
    BigReads(s, g, i, p);
    var next := om.ClassBitsOf(p);
    if predecessor == NON_POINTER {
      om.HeadOfFreeChunkListPut(BIG_SIZE, om.currentSegment, next);
    } else {
      om.ClassBitsPut(predecessor, next);
    }
    g' := WithoutChunk(g, a, i);
    TakenByUnlink(s, g, a, i);
  }

  // Too big by `excess`: split off the end, if the table has an entry for it.
  method SplitChunk(om: ObjectMemory, p: Word, size: Word, excess: Word, ghost g: Layout, ghost i: int)
    returns (newPointer: Word, ghost g': Layout)
    requires om.Valid() && LaidOut(om.st, g) && 0 <= om.currentSegment < HEAP_SEGMENT_COUNT && NIL_POINTER in g.alloc
    requires BigAt(om.st, g, i, p) && HEADER_SIZE <= size && HEADER_SIZE <= excess && SizeOf(om.st, p) == size + excess
    modifies om`st, om.mem
    ensures om.Valid()
    ensures newPointer == if g.frees == [] then NIL_POINTER else g.frees[0]
    ensures newPointer == NIL_POINTER ==> g.frees == [] && om.st == old(om.st) && g' == g
    ensures newPointer != NIL_POINTER ==> Taken(old(om.st), g, om.st, g', newPointer, size)
    ensures newPointer != NIL_POINTER ==>
      om.st.E(newPointer).location == old(om.st).E(p).location + excess &&
      om.st.E(newPointer).segment == om.currentSegment && om.st.E(p) == old(om.st).E(p) && SizeOf(om.st, p) == excess
  {
    ghost var s, a := om.st, HeadAddress(BIG_SIZE, om.currentSegment);
    ListMember(s, g, a, i);
    BigList(s, g);
    FreesOf(s, g);
    var location := om.LocationBitsOf(p);
    newPointer := ObtainPointer(om, size, location + excess, g.frees);
    if newPointer == NIL_POINTER {
      g' := g;
    } else {
      SplitEntries(s, g, p, newPointer, size, excess);
      SplitObtained(s, g, p, newPointer, size, excess, om.st);
      om.SizeBitsPut(p, excess);
      g' := SplitLayout(g, p, newPointer, size, excess);
      TakenBySplit(s, g, p, newPointer, size, excess, a, i);
    }
  }

  lemma {:induction false} SplitObtained(s: State, g: Layout, c: int, n: int, size: Word, excess: Word, t: State)
    requires CanSplit(s, g, c, n, size, excess)
    requires s.E(c).location + excess < 65536 && t == Obtained(s, n, size, s.E(c).location + excess)
    ensures t.E(c) == s.E(c) && Oop(c) && InHeap(t.E(c), 0)
    ensures PutWord(t, Address(t.E(c)), excess) == Split(s, c, n, size, excess)
  {
    SplitEntries(s, g, c, n, size, excess);
  }

  // The current segment's list of big chunks.
  ghost function BigChunks(s: State, g: Layout): seq<int> {
    ListFor(g, BIG_SIZE, s.currentSegment)
  }

  ghost predicate BigAt(s: State, g: Layout, i: int, p: int) {
    HeadAddress(BIG_SIZE, s.currentSegment) in g.lists && 0 <= i < |BigChunks(s, g)| && BigChunks(s, g)[i] == p
  }

  lemma {:induction false} BigOops(s: State, g: Layout)
    requires LaidOut(s, g)
    ensures forall i {:trigger BigChunks(s, g)[i]} :: 0 <= i < |BigChunks(s, g)| ==> Oop(BigChunks(s, g)[i])
  {
    var a := HeadAddress(BIG_SIZE, s.currentSegment);
    forall i | 0 <= i < |BigChunks(s, g)|
      ensures Oop(BigChunks(s, g)[i])
    {
      ListMember(s, g, a, i);
    }
  }

  method AttemptToAllocateChunkInCurrentSegment(om: ObjectMemory, size: Word, ghost g: Layout)
    returns (p: Word, ghost g': Layout)
    requires om.Valid() && LaidOut(om.st, g) && 0 <= om.currentSegment < HEAP_SEGMENT_COUNT && HEADER_SIZE <= size
    requires NIL_POINTER in g.alloc
    modifies om`st, om.mem
    ensures om.Valid()
    ensures Picks(g, om.currentSegment, size, p)
    ensures p == NIL_POINTER ==> om.st == old(om.st) && g' == g
    ensures p != NIL_POINTER ==> Taken(old(om.st), g, om.st, g', p, size)
  {
    ghost var s := om.st;
    p, g' := NIL_POINTER, g;
    if size < BIG_SIZE {
      p, g' := RemoveFromFreeChunkList(om, size, g);
    }
    if p != NIL_POINTER {
      SmallTaken(s, g, size);
      return;
    }
    ghost var list, i := BigChunks(s, g), 0;
    BigList(s, g);
    BigOops(s, g);
    var predecessor := NON_POINTER;
    p := om.HeadOfFreeChunkList(BIG_SIZE, om.currentSegment);
    while p != NON_POINTER
      invariant om.Valid() && om.st == s && g' == g
      invariant 0 <= i <= |list| && p == Next(list, i)
      invariant predecessor == if i == 0 then NON_POINTER else list[i - 1]
      invariant forall j {:trigger list[j]} :: 0 <= j < i ==> list[j] in g.len && !Serves(g.len[list[j]], size)
      decreases |list| - i
    {
      ListMember(s, g, HeadAddress(BIG_SIZE, om.currentSegment), i);
      var availableSize := om.SizeBitsOf(p);
      assert Serves(availableSize, size) ==> FirstToServe(g, om.currentSegment, size, i);
      if availableSize == size {
        g' := TakeWhole(om, p, predecessor, g, i);
        return;
      }
      var excessSize: int := availableSize - size;
      if excessSize >= HEADER_SIZE {
        p, g' := SplitChunk(om, p, size, excessSize, g, i);
        return;
      }
      predecessor := p;
      p := om.ClassBitsOf(p);
      i := i + 1;
    }
    assert FirstToServe(g, om.currentSegment, size, i);
    p := NIL_POINTER;
  }

  lemma {:induction false} BigList(s: State, g: Layout)
    requires LaidOut(s, g) && 0 <= s.currentSegment < HEAP_SEGMENT_COUNT
    ensures var a := HeadAddress(BIG_SIZE, s.currentSegment);
      a in g.lists && At(s.words, a) == Next(g.lists[a], 0) && ListSize(a) == BIG_SIZE && a / 65536 == s.currentSegment
  {
    assert OpenLayout(0);
    var a := HeadAddress(BIG_SIZE, s.currentSegment);
    assert IsHead(a) && Linked(s, a, g.lists[a]);
  }

  lemma {:induction false} FreesOf(s: State, g: Layout)
    requires LaidOut(s, g) && NIL_POINTER in g.alloc
    ensures Frees(s, g.frees) && NIL_POINTER !in g.frees
  {
    assert OpenLayout(0);
    assert Placed(s, NIL_POINTER, g.len[NIL_POINTER]);
  }

  // The chunks on the lists below BigSize have exactly the list's size.
  lemma {:induction false} SmallTaken(s: State, g: Layout, size: int)
    requires LaidOut(s, g) && 0 <= s.currentSegment < HEAP_SEGMENT_COUNT && HEADER_SIZE <= size < BIG_SIZE &&
      NIL_POINTER in g.alloc
    requires var a := HeadAddress(size, s.currentSegment); a in g.lists && g.lists[a] != []
    ensures var a := HeadAddress(size, s.currentSegment);
      Taken(s, g, Unlinked(s, g, a, 0), WithoutChunk(g, a, 0), g.lists[a][0], size)
  {
    var a := HeadAddress(size, s.currentSegment);
    ListMember(s, g, a, 0);
    TakenByUnlink(s, g, a, 0);
  }
}
