// How the heap is laid out: chunks, free-chunk lists and the free-pointer list.
module Layouts {
  import opened Words
  import opened Memory

  // alloc: the allocated objects.  len: the length of the chunk of every entry in use, allocated
  // or free chunk.  lists: the free-chunk list at each head.  frees: the free-pointer list.
  datatype Layout = Layout(alloc: set<int>, len: map<int, nat>, lists: map<int, seq<int>>, frees: seq<int>)

  predicate IsHead(a: int) {
    0 <= a < HEAP_WORDS && HEADER_SIZE <= a % 65536 - FIRST_FREE_CHUNK_LIST <= BIG_SIZE
  }

  // The size that the list at head a is for.
  function ListSize(a: int): int {
    a % 65536 - FIRST_FREE_CHUNK_LIST
  }

  function Min(a: int, b: int): int {
    if a < b then a else b
  }

  function HeadFor(space: int, segment: int): int {
    HeadAddress(Min(space, BIG_SIZE), segment)
  }

  function Next(list: seq<int>, i: int): int {
    if 0 <= i < |list| then list[i] else NON_POINTER
  }

  // p's chunk of n words lies in the object space of a heap segment.
  ghost predicate Placed(s: State, p: int, n: nat) {
    Oop(p) && HEADER_SIZE <= n && s.E(p).free == 0 && s.E(p).segment < HEAP_SEGMENT_COUNT &&
    s.E(p).location + n <= HEAP_SPACE_STOP + 1
  }

  ghost predicate Separate(s: State, p: int, n: nat, q: int, m: nat) {
    Address(s.E(p)) + n <= Address(s.E(q)) || Address(s.E(q)) + m <= Address(s.E(p))
  }

  // The entries in use have disjoint chunks.
  ghost predicate Chunks(s: State, g: Layout) {
    (forall p {:trigger p in g.len} :: p in g.len ==> Placed(s, p, g.len[p])) &&
    (forall p, q {:trigger Separate(s, p, g.len[p], q, g.len[q])} ::
       p in g.len && q in g.len && p != q ==> Separate(s, p, g.len[p], q, g.len[q]))
  }

  // Every word of object space but perhaps the last of a segment belongs to a chunk.
  ghost predicate InChunk(s: State, g: Layout, segment: int, w: int) {
    exists p :: p in g.len && s.E(p).segment == segment && s.E(p).location <= w < s.E(p).location + g.len[p]
  }

  ghost predicate Tiled(s: State, g: Layout) {
    forall segment, w :: 0 <= segment < HEAP_SEGMENT_COUNT && 0 <= w < HEAP_SPACE_STOP ==> InChunk(s, g, segment, w)
  }

  // p is allocated: its chunk is as long as its size says, and its pointers lie in it.
  ghost predicate Sized(s: State, p: int, n: nat) {
    Space(s, p) == n && HEADER_SIZE <= SizeOf(s, p) && LastPointer(s, p) <= SizeOf(s, p)
  }

  // p is a free chunk on the list at head a.
  ghost predicate OnList(s: State, g: Layout, a: int, p: int) {
    p in g.len && p !in g.alloc && s.E(p).segment == a / 65536 && s.E(p).count == 0 &&
    SizeOf(s, p) == g.len[p] && (ListSize(a) < BIG_SIZE ==> SizeOf(s, p) == ListSize(a))
  }

  ghost predicate Linked(s: State, a: int, list: seq<int>) {
    At(s.words, a) == Next(list, 0) && forall i {:trigger ClassLink(s, list, i)} :: 0 <= i < |list| ==>
      ClassLink(s, list, i)
  }

  // The chunk at place i is linked to the next.
  ghost predicate ClassLink(s: State, list: seq<int>, i: int) {
    0 <= i < |list| ==> ClassOf(s, list[i]) == Next(list, i + 1)
  }

  lemma {:induction false} SameLinked(s: State, t: State, a: int, list: seq<int>)
    requires Linked(s, a, list) && At(t.words, a) == At(s.words, a)
    requires forall i {:trigger list[i]} :: 0 <= i < |list| ==> ClassOf(t, list[i]) == ClassOf(s, list[i])
    ensures Linked(t, a, list)
  {
    forall i | 0 <= i < |list|
      ensures ClassLink(t, list, i)
    {
      assert ClassLink(s, list, i);
    }
  }

  ghost predicate Listed(g: Layout, p: int) {
    exists a, i :: a in g.lists && 0 <= i < |g.lists[a]| && g.lists[a][i] == p
  }

  // The lists are linked through the class words, and no chunk is on them twice.
  ghost predicate Lists(s: State, g: Layout) {
    (forall a {:trigger IsHead(a)} :: IsHead(a) <==> a in g.lists) &&
    (forall a {:trigger Linked(s, a, g.lists[a])} :: a in g.lists ==> Linked(s, a, g.lists[a])) &&
    (forall a, i {:trigger g.lists[a][i]} :: a in g.lists && 0 <= i < |g.lists[a]| ==>
      OnList(s, g, a, g.lists[a][i])) &&
    (forall a, b, i, j {:trigger g.lists[a][i], g.lists[b][j]} ::
       (a in g.lists && b in g.lists && 0 <= i < |g.lists[a]| && 0 <= j < |g.lists[b]| &&
         g.lists[a][i] == g.lists[b][j])
       ==> a == b && i == j)
  }

  // Every chunk in use that is not allocated is on a list, those of `except` apart.
  ghost predicate AllListed(g: Layout, except: set<int>) {
    forall p {:trigger Listed(g, p)} :: p in g.len && p !in g.alloc && p !in except ==> Listed(g, p)
  }

  // The entry at place i is linked to the next.
  ghost predicate FreeLink(s: State, frees: seq<int>, i: int) {
    0 <= i < |frees| ==> s.E(frees[i]).location == Next(frees, i + 1)
  }

  // The free-pointer list holds exactly the entries whose free bit is set.
  ghost predicate Frees(s: State, frees: seq<int>) {
    s.freeHead == Next(frees, 0) &&
    (forall i {:trigger frees[i]} :: 0 <= i < |frees| ==> Oop(frees[i]) && s.E(frees[i]).free == 1) &&
    (forall i {:trigger FreeLink(s, frees, i)} :: 0 <= i < |frees| ==> FreeLink(s, frees, i)) &&
    (forall i, j :: 0 <= i < j < |frees| ==> frees[i] != frees[j]) &&
    (forall p {:trigger Oop(p)} :: Oop(p) && s.E(p).free == 1 ==> p in frees)
  }

  // Like Unfold, for LaidOut alone.
  ghost predicate OpenLayout(k: int) {
    true
  }

  ghost predicate LaidOut(s: State, g: Layout) {
    forall k {:trigger OpenLayout(k)} :: OpenLayout(k) ==> LaidOutUnfolded(s, g)
  }

  ghost predicate LaidOutUnfolded(s: State, g: Layout) {
    Framed(s, g) && AllListed(g, {})
  }

  ghost predicate Framed(s: State, g: Layout) {
    Shaped(s) && g.alloc <= g.len.Keys && Chunks(s, g) &&
    (forall p {:trigger Oop(p)} :: Oop(p) && s.E(p).free == 0 ==> p in g.len) &&
    (forall p {:trigger p in g.alloc} :: p in g.alloc ==> Sized(s, p, g.len[p])) &&
    Lists(s, g) && Frees(s, g.frees)
  }

  // Word i of q's chunk is where p's chunk is not.
  lemma {:induction false} ElsewhereInHeap(s: State, g: Layout, p: int, i: int, q: int, j: int)
    requires Chunks(s, g) && p in g.len && q in g.len && p != q
    requires 0 <= i < g.len[p] && 0 <= j < g.len[q]
    ensures Address(s.E(p)) + i != Address(s.E(q)) + j
  {
    assert Separate(s, p, g.len[p], q, g.len[q]);
  }

  lemma {:induction false} HeadOutside(s: State, g: Layout, p: int, i: int, a: int)
    requires Chunks(s, g) && p in g.len && 0 <= i < g.len[p] && IsHead(a)
    ensures Address(s.E(p)) + i != a
  {
    assert Placed(s, p, g.len[p]);
    assert (Address(s.E(p)) + i) % 65536 == s.E(p).location + i;
  }

  lemma {:induction false} HeadForIsHead(space: int, segment: int)
    requires HEADER_SIZE <= space && 0 <= segment < HEAP_SEGMENT_COUNT
    ensures IsHead(HeadFor(space, segment)) && ListSize(HeadFor(space, segment)) == Min(space, BIG_SIZE)
    ensures HeadFor(space, segment) / 65536 == segment
  {
  }

  // The first words of q's chunk are the same in t, so all that the layout says of q is.
  lemma {:induction false} SameShape(s: State, t: State, q: int, n: nat)
    requires t.E(q).(count := 0) == s.E(q).(count := 0)
    requires forall i :: 0 <= i < n ==> WordOf(t, q, i) == WordOf(s, q, i)
    requires Sized(s, q, n)
    ensures Sized(t, q, n) && LastPointer(t, q) == LastPointer(s, q) && SizeOf(t, q) == SizeOf(s, q)
    ensures ClassOf(t, q) == ClassOf(s, q)
  {
    assert SizeOf(s, q) == WordOf(s, q, 0) && ClassOf(s, q) == WordOf(s, q, 1);
  }

  // What deallocate leaves.
  ghost function Deallocated(s: State, p: int): State {
    var h := HeadFor(Space(s, p), s.E(p).segment);
    var sized := Put<Word>(s.words, Address(s.E(p)), if Space(s, p) < 65536 then Space(s, p) else 0);
    s.(words := Put<Word>(Put<Word>(sized, Address(s.E(p)) + 1, At(s.words, h)), h, if 0 <= p < 65536 then p else 0))
  }

  ghost function WithoutObject(s: State, g: Layout, p: int): Layout
    requires HeadFor(Space(s, p), s.E(p).segment) in g.lists
  {
    var h := HeadFor(Space(s, p), s.E(p).segment);
    g.(alloc := g.alloc - {p}, lists := g.lists[h := [p] + g.lists[h]])
  }

  // Deallocating writes two words of p's chunk and one list head.
  lemma {:induction false} DeallocatedWords(s: State, g: Layout, p: int)
    requires Shaped(s) && Chunks(s, g) && p in g.len && HEADER_SIZE <= Space(s, p) < 65536
    ensures var h := HeadFor(Space(s, p), s.E(p).segment);
      var t := Deallocated(s, p);
      && IsHead(h) && Shaped(t)
      && SizeOf(t, p) == Space(s, p) && ClassOf(t, p) == At(s.words, h) && At(t.words, h) == p
      && (forall a {:trigger At(t.words, a)} :: a != h && a != Address(s.E(p)) && a != Address(s.E(p)) + 1 ==>
        At(t.words, a) == At(s.words, a))
      && (forall q, i {:trigger WordOf(t, q, i)} :: q in g.len && q != p && 0 <= i < g.len[q] ==>
        WordOf(t, q, i) == WordOf(s, q, i))
  {
    assert Placed(s, p, g.len[p]);
    var h := HeadFor(Space(s, p), s.E(p).segment);
    var t := Deallocated(s, p);
    HeadForIsHead(Space(s, p), s.E(p).segment);
    HeadOutside(s, g, p, 0, h);
    HeadOutside(s, g, p, 1, h);
    forall q, i | q in g.len && q != p && 0 <= i < g.len[q]
      ensures WordOf(t, q, i) == WordOf(s, q, i)
    {
      ElsewhereInHeap(s, g, p, 0, q, i);
      ElsewhereInHeap(s, g, p, 1, q, i);
      HeadOutside(s, g, q, i, h);
    }
  }

  lemma {:induction false} DeallocateKeepsLists(s: State, g: Layout, p: int)
    requires Shaped(s) && Chunks(s, g) && Lists(s, g) && AllListed(g, {}) && g.alloc <= g.len.Keys
    requires p in g.alloc && Space(s, p) == g.len[p] && s.E(p).count == 0
    requires HeadFor(Space(s, p), s.E(p).segment) in g.lists
    ensures Lists(Deallocated(s, p), WithoutObject(s, g, p)) && AllListed(WithoutObject(s, g, p), {})
  {
    var h := HeadFor(Space(s, p), s.E(p).segment);
    var t := Deallocated(s, p);
    var g' := WithoutObject(s, g, p);
    assert Placed(s, p, g.len[p]);
    DeallocatedWords(s, g, p);
    HeadForIsHead(Space(s, p), s.E(p).segment);
    forall a, i | a in g.lists && 0 <= i < |g.lists[a]|
      ensures g.lists[a][i] != p && OnList(t, g', a, g.lists[a][i]) &&
        ClassOf(t, g.lists[a][i]) == ClassOf(s, g.lists[a][i])
    {
      var q := g.lists[a][i];
      assert OnList(s, g, a, q) && Placed(s, q, g.len[q]);
      assert WordOf(t, q, 0) == WordOf(s, q, 0) && WordOf(t, q, 1) == WordOf(s, q, 1);
    }
    forall a | a in g'.lists
      ensures Linked(t, a, g'.lists[a])
    {
      assert Linked(s, a, g.lists[a]) && IsHead(a);
      if a == h {
        assert g'.lists[h] == [p] + g.lists[h];
        forall i | 0 <= i < |g'.lists[h]|
          ensures ClassLink(t, g'.lists[h], i)
        {
          if i > 0 {
            assert g'.lists[h][i] == g.lists[h][i - 1] && ClassLink(s, g.lists[h], i - 1);
          }
        }
      } else {
        HeadOutside(s, g, p, 0, a);
        HeadOutside(s, g, p, 1, a);
        SameLinked(s, t, a, g.lists[a]);
      }
    }
    forall a, i | a in g'.lists && 0 <= i < |g'.lists[a]|
      ensures OnList(t, g', a, g'.lists[a][i])
    {
      if a == h && i > 0 {
        assert g'.lists[h][i] == g.lists[h][i - 1];
      }
    }
    PushedOnce(g, g', h, p);
  }

  lemma {:induction false} PushedOnce(g: Layout, g': Layout, h: int, p: int)
    requires h in g.lists && g'.lists == g.lists[h := [p] + g.lists[h]] && g'.len == g.len && g'.alloc == g.alloc - {p}
    requires forall a, i {:trigger g.lists[a][i]} :: a in g.lists && 0 <= i < |g.lists[a]| ==> g.lists[a][i] != p
    requires forall a, b, i, j {:trigger g.lists[a][i], g.lists[b][j]} ::
       (a in g.lists && b in g.lists && 0 <= i < |g.lists[a]| && 0 <= j < |g.lists[b]| &&
         g.lists[a][i] == g.lists[b][j])
       ==> a == b && i == j
    requires AllListed(g, {})
    ensures forall a, b, i, j {:trigger g'.lists[a][i], g'.lists[b][j]} ::
       (a in g'.lists && b in g'.lists && 0 <= i < |g'.lists[a]| && 0 <= j < |g'.lists[b]| &&
         g'.lists[a][i] == g'.lists[b][j])
       ==> a == b && i == j
    ensures AllListed(g', {})
  {
    forall a, b, i, j | a in g'.lists && b in g'.lists && 0 <= i < |g'.lists[a]| && 0 <= j < |g'.lists[b]| &&
      g'.lists[a][i] == g'.lists[b][j]
      ensures a == b && i == j
    {
      var i' := if a == h then i - 1 else i;
      var j' := if b == h then j - 1 else j;
      assert i' >= 0 ==> g'.lists[a][i] == g.lists[a][i'];
      assert j' >= 0 ==> g'.lists[b][j] == g.lists[b][j'];
    }
    forall q | q in g'.len && q !in g'.alloc
      ensures Listed(g', q)
    {
      if q == p {
        assert g'.lists[h][0] == p;
      } else {
        assert Listed(g, q);
        var a, i :| a in g.lists && 0 <= i < |g.lists[a]| && g.lists[a][i] == q;
        assert g'.lists[a][if a == h then i + 1 else i] == q;
      }
    }
  }

  // Deallocating an object whose count is 0 makes its chunk the first on its list.
  lemma {:induction false} DeallocateLaidOut(s: State, g: Layout, p: int)
    requires LaidOut(s, g) && p in g.alloc && s.E(p).count == 0
    ensures HeadFor(Space(s, p), s.E(p).segment) in g.lists
    ensures LaidOut(Deallocated(s, p), WithoutObject(s, g, p))
  {
    assert OpenLayout(0);
    assert Sized(s, p, g.len[p]) && Placed(s, p, g.len[p]);
    HeadForIsHead(Space(s, p), s.E(p).segment);
    var t := Deallocated(s, p);
    var g' := WithoutObject(s, g, p);
    DeallocatedWords(s, g, p);
    DeallocateKeepsLists(s, g, p);
    assert forall q :: t.E(q) == s.E(q);
    forall q | q in g'.alloc
      ensures Sized(t, q, g'.len[q])
    {
      SameShape(s, t, q, g.len[q]);
    }
    SameChunks(s, t, g, g');
    SameFrees(s, t, g.frees);
  }

  lemma {:induction false} SameChunks(s: State, t: State, g: Layout, g': Layout)
    requires Chunks(s, g) && g'.len == g.len
    requires forall p {:trigger t.E(p)} :: t.E(p).(count := 0) == s.E(p).(count := 0)
    ensures Chunks(t, g')
  {
    forall p, q | p in g.len && q in g.len && p != q
      ensures Separate(t, p, g.len[p], q, g.len[q])
    {
      assert Separate(s, p, g.len[p], q, g.len[q]);
      assert t.E(p).(count := 0) == s.E(p).(count := 0) && t.E(q).(count := 0) == s.E(q).(count := 0);
    }
    forall p | p in g.len
      ensures Placed(t, p, g.len[p])
    {
      assert Placed(s, p, g.len[p]);
      assert t.E(p).(count := 0) == s.E(p).(count := 0);
    }
  }

  lemma {:induction false} SameFrees(s: State, t: State, frees: seq<int>)
    requires Frees(s, frees) && t.freeHead == s.freeHead
    requires forall p {:trigger t.E(p)} :: t.E(p).(count := 0) == s.E(p).(count := 0)
    ensures Frees(t, frees)
  {
    forall i | 0 <= i < |frees|
      ensures Oop(frees[i]) && t.E(frees[i]).free == 1 && FreeLink(t, frees, i)
    {
      assert FreeLink(s, frees, i);
      assert t.E(frees[i]).(count := 0) == s.E(frees[i]).(count := 0);
    }
    forall p | Oop(p) && t.E(p).free == 1
      ensures p in frees
    {
      assert t.E(p).(count := 0) == s.E(p).(count := 0);
    }
  }

  // Put p on the free-chunk list for `size` in its segment.
  method ToFreeChunkListAdd(om: ObjectMemory, size: int, p: Word)
    requires om.Valid() && InTable(p) && InHeap(om.st.E(p), 1) && HEADER_SIZE <= size <= BIG_SIZE
    modifies om`st, om.mem
    ensures om.Valid()
    ensures var s, h := old(om.st), HeadAddress(size, old(om.st).E(p).segment);
      om.st == s.(words := Put<Word>(Put<Word>(s.words, Address(s.E(p)) + 1, At(s.words, h)), h, p))
  {
    var segment := om.SegmentBitsOf(p);
    var head := om.HeadOfFreeChunkList(size, segment);
    om.ClassBitsPut(p, head);
    om.HeadOfFreeChunkListPut(size, segment, p);
  }

  method Deallocate(om: ObjectMemory, p: Word)
    requires om.Valid() && InTable(p) && InHeap(om.st.E(p), 1) && HEADER_SIZE <= Space(om.st, p) < 65536
    requires om.st.E(p).location <= HEAP_SPACE_STOP
    modifies om`st, om.mem
    ensures om.Valid() && om.st == Deallocated(old(om.st), p)
  {
    var space := om.SpaceOccupiedBy(p);
    om.SizeBitsPut(p, space);
    ToFreeChunkListAdd(om, if space < BIG_SIZE then space else BIG_SIZE, p);
  }

  // Changing nothing but counts and words of allocated objects, and not their shape, keeps the layout.
  lemma {:induction false} ShapesKeepLayout(s: State, t: State, g: Layout)
    requires LaidOut(s, g) && Shaped(t) && t.freeHead == s.freeHead
    requires forall p {:trigger t.E(p)} :: t.E(p) == if p in g.alloc then s.E(p).(count := t.E(p).count) else s.E(p)
    requires forall a {:trigger IsHead(a)} :: IsHead(a) ==> At(t.words, a) == At(s.words, a)
    requires forall p {:trigger p in g.alloc} :: p in g.alloc ==> p in g.len && Sized(t, p, g.len[p])
    requires forall p {:trigger p in g.len} :: p in g.len && p !in g.alloc ==>
      SizeOf(t, p) == SizeOf(s, p) && ClassOf(t, p) == ClassOf(s, p)
    ensures LaidOut(t, g)
  {
    assert OpenLayout(0);
    assert forall q :: t.E(q).(count := 0) == s.E(q).(count := 0);
    SameChunks(s, t, g, g);
    SameFrees(s, t, g.frees);
    assert forall p :: Oop(p) && t.E(p).free == 0 ==> s.E(p).free == 0;
    SameLists(s, t, g);
  }

  lemma {:induction false} SameLists(s: State, t: State, g: Layout)
    requires Lists(s, g)
    requires forall p {:trigger t.E(p)} :: t.E(p) == if p in g.alloc then s.E(p).(count := t.E(p).count) else s.E(p)
    requires forall a {:trigger IsHead(a)} :: IsHead(a) ==> At(t.words, a) == At(s.words, a)
    requires forall p {:trigger p in g.len} :: p in g.len && p !in g.alloc ==>
      SizeOf(t, p) == SizeOf(s, p) && ClassOf(t, p) == ClassOf(s, p)
    ensures Lists(t, g)
  {
    forall a, i | a in g.lists && 0 <= i < |g.lists[a]|
      ensures OnList(t, g, a, g.lists[a][i]) && ClassOf(t, g.lists[a][i]) == ClassOf(s, g.lists[a][i])
    {
      var q := g.lists[a][i];
      assert OnList(s, g, a, q) && t.E(q) == s.E(q);
    }
    forall a | a in g.lists
      ensures Linked(t, a, g.lists[a])
    {
      assert Linked(s, a, g.lists[a]) && IsHead(a);
      SameLinked(s, t, a, g.lists[a]);
    }
  }

  // Changing nothing but counts of allocated objects, and words beyond the sizes, keeps the layout.
  lemma {:induction false} QuietChange(s: State, t: State, g: Layout)
    requires LaidOut(s, g) && Shaped(t) && t.freeHead == s.freeHead
    requires forall p {:trigger t.E(p)} :: t.E(p) == if p in g.alloc then s.E(p).(count := t.E(p).count) else s.E(p)
    requires forall a {:trigger IsHead(a)} :: IsHead(a) ==> At(t.words, a) == At(s.words, a)
    requires forall p, i {:trigger WordOf(t, p, i)} :: p in g.len && 0 <= i < SizeOf(s, p) ==>
      WordOf(t, p, i) == WordOf(s, p, i)
    ensures LaidOut(t, g)
  {
    forall q | q in g.alloc
      ensures q in g.len && Sized(t, q, g.len[q])
    {
      assert OpenLayout(0);
      assert Sized(s, q, g.len[q]) && t.E(q) == s.E(q).(count := t.E(q).count);
      QuietShape(s, t, q, g.len[q]);
    }
    forall q | q in g.len && q !in g.alloc
      ensures SizeOf(t, q) == SizeOf(s, q) && ClassOf(t, q) == ClassOf(s, q)
    {
      ListedSize(s, g, q);
      assert t.E(q) == s.E(q) && WordOf(t, q, 0) == WordOf(s, q, 0) && WordOf(t, q, 1) == WordOf(s, q, 1);
    }
    ShapesKeepLayout(s, t, g);
  }

  lemma {:induction false} ListedSize(s: State, g: Layout, p: int)
    requires LaidOut(s, g) && p in g.len && p !in g.alloc
    ensures SizeOf(s, p) == g.len[p] >= HEADER_SIZE && s.E(p).count == 0
  {
    assert OpenLayout(0);
    assert Listed(g, p);
    var a, i :| a in g.lists && 0 <= i < |g.lists[a]| && g.lists[a][i] == p;
    assert OnList(s, g, a, g.lists[a][i]) && Placed(s, p, g.len[p]);
  }

  lemma {:induction false} QuietShape(s: State, t: State, q: int, n: nat)
    requires t.E(q).(count := 0) == s.E(q).(count := 0)
    requires forall i {:trigger WordOf(t, q, i)} :: 0 <= i < SizeOf(s, q) ==> WordOf(t, q, i) == WordOf(s, q, i)
    requires Sized(s, q, n)
    ensures Sized(t, q, n) && LastPointer(t, q) == LastPointer(s, q) && SizeOf(t, q) == SizeOf(s, q)
    ensures ClassOf(t, q) == ClassOf(s, q)
  {
    assert SizeOf(t, q) == WordOf(t, q, 0) && ClassOf(t, q) == WordOf(t, q, 1);
  }
}
