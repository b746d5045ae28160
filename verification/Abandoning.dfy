// Before a segment is swept: its free chunks are abandoned, and the pointers to the objects above
// the first of them reversed.
module Abandoning {
  import opened Words
  import opened Memory
  import opened Layouts
  import opened Allocation

  // The free chunks of a segment.
  ghost function Holes(s: State, g: Layout, segment: int): set<int> {
    set p | p in g.len && p !in g.alloc && s.E(p).segment == segment
  }

  function AsWord(p: int): Word {
    if 0 <= p < 65536 then p else 0
  }

  // What entry p and word i of its chunk have become, where the chunks of `done` are abandoned and
  // the pointers to the objects of `rev` reversed.
  ghost function EntryNow(s: State, t: State, done: set<int>, rev: set<int>, p: int): Entry {
    if p in done then s.E(p).(free := 1, location := t.E(p).location)
    else if p in rev then s.E(p).(location := SizeOf(s, p))
    else s.E(p)
  }

  ghost function WordNow(s: State, done: set<int>, rev: set<int>, p: int, i: int): Word {
    if p in done && i == 1 then NON_POINTER else if p in rev && i == 0 then AsWord(p) else WordOf(s, p, i)
  }

  // Every word of a chunk of s, where s had it.
  ghost predicate ChunksNow(s: State, g: Layout, words: seq<Word>, done: set<int>, rev: set<int>) {
    forall p, i {:trigger Chunk(words, s.E(p), i)} :: p in g.len && 0 <= i < g.len[p] ==>
      Chunk(words, s.E(p), i) == WordNow(s, done, rev, p, i)
  }

  // The list heads of the segment below `size` are reset; the others are as they were.
  ghost predicate HeadsNow(s: State, words: seq<Word>, segment: int, size: int) {
    forall a {:trigger IsHead(a)} :: IsHead(a) ==>
      At(words, a) == if a / 65536 == segment && ListSize(a) < size then NON_POINTER else At(s.words, a)
  }

  ghost predicate SameSizes(s: State, t: State) {
    t.currentSegment == s.currentSegment && t.freeWords == s.freeWords && t.freeOops == s.freeOops &&
    |t.words| == |s.words| && |t.ot| == |s.ot|
  }

  ghost predicate Upset(s: State, g: Layout, segment: int, t: State, done: set<int>, rev: set<int>, frees: seq<int>,
                        size: int) {
    forall k {:trigger OpenUpset(k)} :: OpenUpset(k) ==> UpsetUnfolded(s, g, segment, t, done, rev, frees, size)
  }

  ghost predicate OpenUpset(k: int) {
    true
  }

  ghost predicate UpsetUnfolded(s: State, g: Layout, segment: int, t: State, done: set<int>, rev: set<int>,
                                frees: seq<int>, size: int) {
    SameSizes(s, t) && done <= Holes(s, g, segment) && rev <= g.alloc &&
    (forall p {:trigger t.E(p)} :: t.E(p) == EntryNow(s, t, done, rev, p)) &&
    ChunksNow(s, g, t.words, done, rev) && HeadsNow(s, t.words, segment, size) &&
    Frees(t, frees) && |frees| == |g.frees| + |done| && (done == {} ==> frees == g.frees)
  }

  // Abandoning

  // An abandoned chunk: its class marks it for the sweep, and its entry is released.
  ghost function Released(t: State, c: int): State {
    t.(words := Put<Word>(t.words, Address(t.E(c)) + 1, NON_POINTER),
       ot := Put(t.ot, c, t.E(c).(free := 1, location := t.freeHead)), freeHead := AsWord(c))
  }

  lemma {:induction false} PlacedAt(s: State, g: Layout, p: int, i: int)
    requires LaidOut(s, g) && p in g.len && 0 <= i < g.len[p]
    ensures Placed(s, p, g.len[p]) && Oop(p) && |s.words| == HEAP_WORDS && |s.ot| == OBJECT_TABLE_SIZE
    ensures 0 <= Address(s.E(p)) + i < HEAP_WORDS && (Address(s.E(p)) + i) / 65536 == s.E(p).segment
    ensures !IsHead(Address(s.E(p)) + i)
  {
    assert OpenLayout(0);
    assert Placed(s, p, g.len[p]);
    if IsHead(Address(s.E(p)) + i) {
      HeadOutside(s, g, p, i, Address(s.E(p)) + i);
    }
  }

  // One word of one chunk put.
  lemma {:induction false} PutInChunk(s: State, g: Layout, words: seq<Word>, c: int, k: int, v: Word, p: int, i: int)
    requires LaidOut(s, g) && |words| == |s.words| && c in g.len && p in g.len && 0 <= k < g.len[c] && 0 <= i < g.len[p]
    ensures Chunk(Put<Word>(words, Address(s.E(c)) + k, v), s.E(p), i) == if p == c && i == k then v
      else Chunk(words, s.E(p), i)
  {
    PlacedAt(s, g, c, k);
    PlacedAt(s, g, p, i);
    if p != c {
      assert Chunks(s, g) by {
        assert OpenLayout(0);
      }
      ElsewhereInHeap(s, g, c, k, p, i);
    }
  }

  lemma {:induction false} FreesPush(s: State, frees: seq<int>, c: int, t: State)
    requires Frees(s, frees) && Oop(c) && c !in frees && c < |s.ot|
    requires t.ot == Put(s.ot, c, s.E(c).(free := 1, location := s.freeHead)) && t.freeHead == AsWord(c)
    ensures Frees(t, [c] + frees)
  {
    var frees' := [c] + frees;
    forall i | 0 <= i < |frees'|
      ensures Oop(frees'[i]) && t.E(frees'[i]).free == 1 && FreeLink(t, frees', i)
    {
      if i > 0 {
        assert frees'[i] == frees[i - 1] && FreeLink(s, frees, i - 1);
        assert t.E(frees[i - 1]) == s.E(frees[i - 1]);
      }
    }
    forall p | Oop(p) && t.E(p).free == 1
      ensures p in frees'
    {
      if p != c {
        assert t.E(p) == s.E(p);
      }
    }
  }

  lemma {:induction false} AbandonWord(s: State, g: Layout, words: seq<Word>, done: set<int>, c: int, p: int, i: int)
    requires LaidOut(s, g) && |words| == |s.words| && c in g.len && 1 < g.len[c] && p in g.len && 0 <= i < g.len[p]
    requires Chunk(words, s.E(p), i) == WordNow(s, done, {}, p, i)
    ensures Chunk(Put<Word>(words, Address(s.E(c)) + 1, NON_POINTER), s.E(p), i) == WordNow(s, done + {c}, {}, p, i)
  {
    PutInChunk(s, g, words, c, 1, NON_POINTER, p, i);
  }

  lemma {:induction false} AbandonWords(s: State, g: Layout, words: seq<Word>, done: set<int>, c: int)
    requires LaidOut(s, g) && |words| == |s.words| && ChunksNow(s, g, words, done, {}) && c in g.len && 1 < g.len[c]
    ensures ChunksNow(s, g, Put<Word>(words, Address(s.E(c)) + 1, NON_POINTER), done + {c}, {})
  {
    forall p, i | p in g.len && 0 <= i < g.len[p]
      ensures Chunk(Put<Word>(words, Address(s.E(c)) + 1, NON_POINTER), s.E(p), i) == WordNow(s, done + {c}, {}, p, i)
    {
      assert Chunk(words, s.E(p), i) == WordNow(s, done, {}, p, i);
      AbandonWord(s, g, words, done, c, p, i);
    }
  }

  lemma {:induction false} HeadsKept(s: State, g: Layout, words: seq<Word>, segment: int, size: int, c: int, k: int,
                                     v: Word)
    requires LaidOut(s, g) && HeadsNow(s, words, segment, size) && c in g.len && 0 <= k < g.len[c]
    ensures HeadsNow(s, Put<Word>(words, Address(s.E(c)) + k, v), segment, size)
  {
    PlacedAt(s, g, c, k);
  }

  lemma {:induction false} ReleasedEntries(s: State, t: State, done: set<int>, rev: set<int>, c: int)
    requires forall p {:trigger t.E(p)} :: t.E(p) == EntryNow(s, t, done, rev, p)
    requires t.E(c) == s.E(c) && 0 <= c < |t.ot|
    ensures forall p {:trigger Released(t, c).E(p)} ::
      Released(t, c).E(p) == EntryNow(s, Released(t, c), done + {c}, rev, p)
  {
    forall p
      ensures Released(t, c).E(p) == EntryNow(s, Released(t, c), done + {c}, rev, p)
    {
      assert t.E(p) == EntryNow(s, t, done, rev, p);
    }
  }

  lemma {:induction false} AbandonStep(s: State, g: Layout, segment: int, t: State, done: set<int>, frees: seq<int>,
                                       size: int, c: int)
    requires LaidOut(s, g) && Upset(s, g, segment, t, done, {}, frees, size)
    requires c in Holes(s, g, segment) && c !in done
    ensures t.E(c) == s.E(c) && Upset(s, g, segment, Released(t, c), done + {c}, {}, [c] + frees, size)
  {
    assert OpenUpset(0);
    assert t.E(c) == EntryNow(s, t, done, {}, c);
    assert Placed(s, c, g.len[c]) by {
      assert OpenLayout(0);
    }
    PlacedAt(s, g, c, 1);
    assert c !in frees by {
      assert forall i :: 0 <= i < |frees| ==> t.E(frees[i]).free == 1;
    }
    FreesPush(t, frees, c, Released(t, c));
    ReleasedEntries(s, t, done, {}, c);
    AbandonWords(s, g, t.words, done, c);
    HeadsKept(s, g, t.words, segment, size, c, 1, NON_POINTER);
    assert |done + {c}| == |done| + 1;
  }

  lemma {:induction false} ResetWord(s: State, g: Layout, words: seq<Word>, h: int, p: int, i: int)
    requires LaidOut(s, g) && IsHead(h) && p in g.len && 0 <= i < g.len[p]
    ensures Chunk(Put<Word>(words, h, NON_POINTER), s.E(p), i) == Chunk(words, s.E(p), i)
  {
    PlacedAt(s, g, p, i);
    PutElsewhere(words, h, NON_POINTER, Address(s.E(p)) + i);
  }

  lemma {:induction false} ResetHeads(s: State, words: seq<Word>, segment: int, size: int)
    requires HeadsNow(s, words, segment, size) && |words| == HEAP_WORDS
    requires 0 <= segment < HEAP_SEGMENT_COUNT && HEADER_SIZE <= size <= BIG_SIZE
    ensures IsHead(HeadAddress(size, segment)) &&
      HeadsNow(s, Put<Word>(words, HeadAddress(size, segment), NON_POINTER), segment, size + 1)
  {
  }

  lemma {:induction false} ResetStep(s: State, g: Layout, segment: int, t: State, done: set<int>, frees: seq<int>,
                                     size: int)
    requires LaidOut(s, g) && Upset(s, g, segment, t, done, {}, frees, size)
    requires 0 <= segment < HEAP_SEGMENT_COUNT && HEADER_SIZE <= size <= BIG_SIZE
    ensures Upset(s, g, segment, PutWord(t, HeadAddress(size, segment), NON_POINTER), done, {}, frees, size + 1)
  {
    assert OpenUpset(0);
    var h := HeadAddress(size, segment);
    var u := PutWord(t, h, NON_POINTER);
    assert |s.words| == HEAP_WORDS by {
      assert OpenLayout(0);
    }
    ResetHeads(s, t.words, segment, size);
    assert forall p :: u.E(p) == t.E(p);
    forall p, i | p in g.len && 0 <= i < g.len[p]
      ensures Chunk(u.words, s.E(p), i) == WordNow(s, done, {}, p, i)
    {
      ResetWord(s, g, t.words, h, p, i);
      assert Chunk(t.words, s.E(p), i) == WordNow(s, done, {}, p, i);
    }
    SameFrees(t, u, frees);
  }

  // The chunks abandoned when the lists below `size` and the first i chunks of the list for it are done.
  ghost predicate DoneTo(g: Layout, segment: int, done: set<int>, size: int, i: int) {
    (forall n, j {:trigger ListFor(g, n, segment)[j]} ::
      HEADER_SIZE <= n <= BIG_SIZE && 0 <= j < |ListFor(g, n, segment)| ==>
       (ListFor(g, n, segment)[j] in done <==> n < size || (n == size && j < i)))
  }

  // The lowest location of the chunks abandoned.
  ghost predicate Lowest(s: State, done: set<int>, low: int) {
    0 <= low <= HEAP_SPACE_STOP && (forall c :: c in done ==> low <= s.E(c).location) &&
    if done == {} then low == HEAP_SPACE_STOP else exists c :: c in done && s.E(c).location == low
  }

  lemma {:induction false} ListForMember(s: State, g: Layout, size: int, segment: int, i: int)
    requires LaidOut(s, g) && 0 <= segment < HEAP_SEGMENT_COUNT && HEADER_SIZE <= size <= BIG_SIZE
    ensures HeadAddress(size, segment) in g.lists && IsHead(HeadAddress(size, segment))
    ensures At(s.words, HeadAddress(size, segment)) == Next(ListFor(g, size, segment), 0)
    ensures 0 <= i < |ListFor(g, size, segment)| ==> var c := ListFor(g, size, segment)[i];
      c in Holes(s, g, segment) && Oop(c) && ClassOf(s, c) == Next(ListFor(g, size, segment), i + 1) &&
      Placed(s, c, g.len[c]) && c in g.len
  {
    var a := HeadAddress(size, segment);
    assert IsHead(a);
    assert a in g.lists && Linked(s, a, g.lists[a]) by {
      assert OpenLayout(0);
    }
    if 0 <= i < |g.lists[a]| {
      ListMember(s, g, a, i);
    }
  }

  // Each free chunk is on one list only.
  lemma {:induction false} OnOneList(s: State, g: Layout, segment: int, done: set<int>, size: int, i: int)
    requires LaidOut(s, g) && DoneTo(g, segment, done, size, i) && 0 <= segment < HEAP_SEGMENT_COUNT
    requires HEADER_SIZE <= size <= BIG_SIZE && 0 <= i < |ListFor(g, size, segment)|
    ensures DoneTo(g, segment, done + {ListFor(g, size, segment)[i]}, size, i + 1)
  {
    assert OpenLayout(0);
    var c := ListFor(g, size, segment)[i];
    forall n, j | HEADER_SIZE <= n <= BIG_SIZE && 0 <= j < |ListFor(g, n, segment)|
      ensures ListFor(g, n, segment)[j] in done + {c} <==> n < size || (n == size && j < i + 1)
    {
      assert ListFor(g, n, segment)[j] in done <==> n < size || (n == size && j < i);
      if ListFor(g, n, segment)[j] == c {
        assert g.lists[HeadAddress(n, segment)][j] == g.lists[HeadAddress(size, segment)][i];
      }
    }
  }

  lemma {:induction false} AllDone(s: State, g: Layout, segment: int, done: set<int>)
    requires LaidOut(s, g) && done <= Holes(s, g, segment) && DoneTo(g, segment, done, BIG_SIZE + 1, 0)
    ensures done == Holes(s, g, segment)
  {
    forall p | p in Holes(s, g, segment)
      ensures p in done
    {
      assert Listed(g, p) by {
        assert OpenLayout(0);
      }
      var a, i :| a in g.lists && 0 <= i < |g.lists[a]| && g.lists[a][i] == p;
      ListMember(s, g, a, i);
      assert a == HeadAddress(ListSize(a), segment);
      assert ListFor(g, ListSize(a), segment)[i] == p;
    }
  }

  method ReleasePointer(om: ObjectMemory, p: Word)
    requires om.Valid() && InTable(p)
    modifies om`st, om.mem
    ensures om.Valid()
    ensures var s := old(om.st);
      om.st == s.(ot := Put(s.ot, p, s.E(p).(free := 1, location := s.freeHead)), freeHead := p)
  {
    om.FreeBitPut(p, 1);
    var head := om.HeadOfFreePointerList();
    om.LocationBitsPut(p, head);
    om.HeadOfFreePointerListPut(p);
  }

  // One free chunk: mark it for the sweep and release its entry.
  method AbandonChunk(om: ObjectMemory, p: Word) returns (nextPointer: Word)
    requires om.Valid() && InTable(p) && InHeap(om.st.E(p), 1)
    modifies om`st, om.mem
    ensures om.Valid() && nextPointer == ClassOf(old(om.st), p) && om.st == Released(old(om.st), p)
  {
    nextPointer := om.ClassBitsOf(p);
    om.ClassBitsPut(p, NON_POINTER);
    ReleasePointer(om, p);
  }

  lemma {:induction false} AbandonReads(s: State, g: Layout, segment: int, t: State, done: set<int>, frees: seq<int>,
                                        size: int, c: int)
    requires LaidOut(s, g) && Upset(s, g, segment, t, done, {}, frees, size) && c in Holes(s, g, segment) && c !in done
    ensures t.E(c) == s.E(c) && ClassOf(t, c) == ClassOf(s, c) && Oop(c) && InHeap(t.E(c), 1) &&
      s.E(c).location <= HEAP_SPACE_STOP
  {
    assert OpenUpset(0);
    assert t.E(c) == EntryNow(s, t, done, {}, c);
    assert Placed(s, c, g.len[c]) by {
      assert OpenLayout(0);
    }
    assert Chunk(t.words, s.E(c), 1) == WordNow(s, done, {}, c, 1);
  }

  lemma {:induction false} HeadReads(s: State, g: Layout, segment: int, t: State, done: set<int>, frees: seq<int>,
                                     size: int)
    requires LaidOut(s, g) && Upset(s, g, segment, t, done, {}, frees, size) && 0 <= segment < HEAP_SEGMENT_COUNT &&
      HEADER_SIZE <= size <= BIG_SIZE
    ensures At(t.words, HeadAddress(size, segment)) == Next(ListFor(g, size, segment), 0)
  {
    assert OpenUpset(0);
    ListForMember(s, g, size, segment, 0);
  }

  lemma {:induction false} ListDone(s: State, g: Layout, segment: int, done: set<int>, size: int, i: int)
    requires LaidOut(s, g) && 0 <= segment < HEAP_SEGMENT_COUNT && HEADER_SIZE <= size <= BIG_SIZE
    requires DoneTo(g, segment, done, size, i) && 0 <= i <= |ListFor(g, size, segment)| &&
      Next(ListFor(g, size, segment), i) == NON_POINTER
    ensures DoneTo(g, segment, done, size + 1, 0)
  {
    ListForMember(s, g, size, segment, i);
    forall n, j | HEADER_SIZE <= n <= BIG_SIZE && 0 <= j < |ListFor(g, n, segment)|
      ensures ListFor(g, n, segment)[j] in done <==> n < size + 1
    {
      assert ListFor(g, n, segment)[j] in done <==> n < size || (n == size && j < i);
    }
  }

  method AbandonList(om: ObjectMemory, size: int, segment: Nibble, lowest: int, ghost s: State, ghost g: Layout,
                     ghost done0: set<int>, ghost frees0: seq<int>)
    returns (low: int, ghost done: set<int>, ghost frees: seq<int>)
    requires om.Valid() && LaidOut(s, g) && segment < HEAP_SEGMENT_COUNT && HEADER_SIZE <= size <= BIG_SIZE
    requires Upset(s, g, segment, om.st, done0, {}, frees0, size) && DoneTo(g, segment, done0, size, 0) &&
      Lowest(s, done0, lowest)
    modifies om`st, om.mem
    ensures om.Valid()
    ensures Upset(s, g, segment, om.st, done, {}, frees, size + 1) && DoneTo(g, segment, done, size + 1, 0) &&
      Lowest(s, done, low)
  {
    low, done, frees := lowest, done0, frees0;
    ghost var i := 0;
    HeadReads(s, g, segment, om.st, done, frees, size);
    var p := om.HeadOfFreeChunkList(size, segment);
    while p != NON_POINTER
      invariant om.Valid() && 0 <= i <= |ListFor(g, size, segment)| && p == Next(ListFor(g, size, segment), i)
      invariant Upset(s, g, segment, om.st, done, {}, frees, size) && DoneTo(g, segment, done, size, i) &&
        Lowest(s, done, low)
      decreases |ListFor(g, size, segment)| - i
    {
      ListForMember(s, g, size, segment, i);
      AbandonReads(s, g, segment, om.st, done, frees, size, p);
      AbandonStep(s, g, segment, om.st, done, frees, size, p);
      OnOneList(s, g, segment, done, size, i);
      LowestMore(s, done, low, p);
      var loc := om.LocationBitsOf(p);
      low := if low < loc then low else loc;
      done, frees := done + {p}, [p] + frees;
      p := AbandonChunk(om, p);
      i := i + 1;
    }
    ListDone(s, g, segment, done, size, i);
    ResetStep(s, g, segment, om.st, done, frees, size);
    om.HeadOfFreeChunkListPut(size, segment, NON_POINTER);
  }

  lemma {:induction false} LowestMore(s: State, done: set<int>, low: int, p: int)
    requires Lowest(s, done, low) && s.E(p).location <= HEAP_SPACE_STOP
    ensures Lowest(s, done + {p}, Min(low, s.E(p).location))
  {
    if s.E(p).location > low {
      assert done != {};
    } else {
      assert p in done + {p};
    }
  }

  method AbandonFreeChunksInSegment(om: ObjectMemory, segment: Nibble, ghost g: Layout)
    returns (lowWaterMark: int, ghost frees: seq<int>)
    requires om.Valid() && LaidOut(om.st, g) && segment < HEAP_SEGMENT_COUNT
    modifies om`st, om.mem
    ensures om.Valid()
    ensures var s := old(om.st); var holes := Holes(s, g, segment);
      Upset(s, g, segment, om.st, holes, {}, frees, BIG_SIZE + 1) && Lowest(s, holes, lowWaterMark)
  {
    ghost var s, done := om.st, {};
    frees := g.frees;
    lowWaterMark := HEAP_SPACE_STOP;
    UpsetBegins(s, g, segment);
    for size := HEADER_SIZE to BIG_SIZE + 1
      invariant om.Valid()
      invariant Upset(s, g, segment, om.st, done, {}, frees, size) && DoneTo(g, segment, done, size, 0) &&
        Lowest(s, done, lowWaterMark)
    {
      lowWaterMark, done, frees := AbandonList(om, size, segment, lowWaterMark, s, g, done, frees);
    }
    assert done <= Holes(s, g, segment) by {
      assert OpenUpset(0);
    }
    AllDone(s, g, segment, done);
  }

  lemma {:induction false} UpsetBegins(s: State, g: Layout, segment: int)
    requires LaidOut(s, g)
    ensures Upset(s, g, segment, s, {}, {}, g.frees, HEADER_SIZE)
  {
    assert OpenLayout(0);
  }

  // Reversing

  // The objects of the segment at or above the low-water mark.
  ghost function Swept(s: State, g: Layout, segment: int, low: int): set<int> {
    set p | p in g.alloc && s.E(p).segment == segment && s.E(p).location >= low
  }

  ghost function SweptTo(s: State, g: Layout, segment: int, low: int, to: int): set<int> {
    set p | p in g.alloc && s.E(p).segment == segment && s.E(p).location >= low && p < to
  }

  // The size of p's object in its entry, and p in the place of the size.
  ghost function Reversed(t: State, p: int): State {
    t.(words := Put<Word>(t.words, Address(t.E(p)), AsWord(p)), ot := Put(t.ot, p, t.E(p).(location := SizeOf(t, p))))
  }

  lemma {:induction false} ReversedWord(s: State, g: Layout, words: seq<Word>, done: set<int>, rev: set<int>, p: int,
                                        q: int, i: int)
    requires LaidOut(s, g) && |words| == |s.words| && p in g.len && 0 < g.len[p] && p !in done && q in g.len &&
      0 <= i < g.len[q]
    requires Chunk(words, s.E(q), i) == WordNow(s, done, rev, q, i)
    ensures Chunk(Put<Word>(words, Address(s.E(p)), AsWord(p)), s.E(q), i) == WordNow(s, done, rev + {p}, q, i)
  {
    var words' := Put<Word>(words, Address(s.E(p)) + 0, AsWord(p));
    assert Chunk(words', s.E(q), i) == if q == p && i == 0 then AsWord(p) else Chunk(words, s.E(q), i) by {
      PutInChunk(s, g, words, p, 0, AsWord(p), q, i);
    }
    assert words' == Put<Word>(words, Address(s.E(p)), AsWord(p));
  }

  lemma {:induction false} ReversedWords(s: State, g: Layout, words: seq<Word>, done: set<int>, rev: set<int>, p: int)
    requires LaidOut(s, g) && |words| == |s.words| && ChunksNow(s, g, words, done, rev) && p in g.len && 0 < g.len[p] &&
      p !in done
    ensures ChunksNow(s, g, Put<Word>(words, Address(s.E(p)), AsWord(p)), done, rev + {p})
  {
    forall q, i | q in g.len && 0 <= i < g.len[q]
      ensures Chunk(Put<Word>(words, Address(s.E(p)), AsWord(p)), s.E(q), i) == WordNow(s, done, rev + {p}, q, i)
    {
      assert Chunk(words, s.E(q), i) == WordNow(s, done, rev, q, i);
      ReversedWord(s, g, words, done, rev, p, q, i);
    }
  }

  // Entries in use may change while they stay in use.
  lemma {:induction false} FreesKept(t: State, u: State, frees: seq<int>)
    requires Frees(t, frees) && u.freeHead == t.freeHead
    requires forall q {:trigger u.E(q)} :: u.E(q) == t.E(q) || (t.E(q).free == 0 && u.E(q).free == 0)
    ensures Frees(u, frees)
  {
    forall i | 0 <= i < |frees|
      ensures Oop(frees[i]) && u.E(frees[i]).free == 1 && FreeLink(u, frees, i)
    {
      assert FreeLink(t, frees, i);
      assert u.E(frees[i]) == t.E(frees[i]);
    }
    forall p | Oop(p) && u.E(p).free == 1
      ensures p in frees
    {
      assert u.E(p) == t.E(p);
    }
  }

  lemma {:induction false} ReverseStep(s: State, g: Layout, segment: int, t: State, done: set<int>, rev: set<int>,
                                       frees: seq<int>, size: int, p: int)
    requires LaidOut(s, g) && Upset(s, g, segment, t, done, rev, frees, size)
    requires p in g.alloc && p !in rev && done == Holes(s, g, segment)
    ensures t.E(p) == s.E(p) && SizeOf(t, p) == SizeOf(s, p) && InHeap(t.E(p), 0) && Oop(p)
    ensures Upset(s, g, segment, Reversed(t, p), done, rev + {p}, frees, size)
  {
    assert OpenUpset(0);
    assert t.E(p) == EntryNow(s, t, done, rev, p);
    assert p in g.len && Placed(s, p, g.len[p]) by {
      assert OpenLayout(0);
    }
    assert Chunk(t.words, s.E(p), 0) == WordNow(s, done, rev, p, 0);
    var u := Reversed(t, p);
    assert Oop(p) && p < |t.ot| by {
      PlacedAt(s, g, p, 0);
    }
    ReversedWords(s, g, t.words, done, rev, p);
    HeadsKept(s, g, t.words, segment, size, p, 0, AsWord(p));
    forall q
      ensures u.E(q) == EntryNow(s, u, done, rev + {p}, q)
    {
      assert t.E(q) == EntryNow(s, t, done, rev, q);
    }
    FreesKept(t, u, frees);
  }

  // The test for an object to be swept sees exactly those objects.
  lemma {:induction false} SweptTest(s: State, g: Layout, segment: int, low: int, t: State, rev: set<int>,
                                     frees: seq<int>, size: int, p: int)
    requires LaidOut(s, g) && Upset(s, g, segment, t, Holes(s, g, segment), rev, frees, size)
    requires Oop(p) && p !in rev
    ensures (t.E(p).free == 0 && t.E(p).segment == segment && t.E(p).location >= low) <==>
      p in Swept(s, g, segment, low)
  {
    assert OpenUpset(0);
    assert t.E(p) == EntryNow(s, t, Holes(s, g, segment), rev, p);
    assert p in g.alloc ==> p in g.len && Placed(s, p, g.len[p]) by {
      assert OpenLayout(0);
    }
    assert s.E(p).free == 0 ==> p in g.len by {
      assert OpenLayout(0);
    }
  }

  method ReverseHeapPointersAbove(om: ObjectMemory, lowWaterMark: int, ghost s: State, ghost g: Layout,
                                  ghost frees: seq<int>)
    requires om.Valid() && LaidOut(s, g) && 0 <= om.currentSegment < HEAP_SEGMENT_COUNT &&
      s.currentSegment == om.currentSegment
    requires Upset(s, g, om.currentSegment, om.st, Holes(s, g, om.currentSegment), {}, frees, BIG_SIZE + 1)
    modifies om`st, om.mem
    ensures om.Valid()
    ensures Upset(s, g, om.currentSegment, om.st, Holes(s, g, om.currentSegment),
      Swept(s, g, om.currentSegment, lowWaterMark), frees, BIG_SIZE + 1)
  {
    ghost var segment := om.currentSegment;
    var p := 2;
    ghost var rev := {};
    assert forall q :: q in g.alloc ==> Oop(q) by {
      AllocOops(s, g);
    }
    assert SweptTo(s, g, segment, lowWaterMark, 2) == {};
    while p <= OBJECT_TABLE_SIZE - 2
      invariant om.Valid() && 2 <= p <= OBJECT_TABLE_SIZE && p % 2 == 0 && om.currentSegment == segment
      invariant rev == SweptTo(s, g, segment, lowWaterMark, p)
      invariant Upset(s, g, segment, om.st, Holes(s, g, segment), rev, frees, BIG_SIZE + 1)
      decreases OBJECT_TABLE_SIZE - p
    {
      SweptTest(s, g, segment, lowWaterMark, om.st, rev, frees, BIG_SIZE + 1, p);
      var free := om.FreeBitOf(p);
      var inSegment := om.SegmentBitsOf(p);
      var location := om.LocationBitsOf(p);
      if free == 0 && inSegment == om.currentSegment && location >= lowWaterMark {
        ReverseStep(s, g, segment, om.st, Holes(s, g, segment), rev, frees, BIG_SIZE + 1, p);
        var size := om.SizeBitsOf(p);
        om.SizeBitsPut(p, p);
        om.LocationBitsPut(p, size);
        rev := rev + {p};
      }
      assert rev == SweptTo(s, g, segment, lowWaterMark, p + 2);
      p := p + 2;
    }
    assert rev == Swept(s, g, segment, lowWaterMark);
  }

  lemma {:induction false} AllocOops(s: State, g: Layout)
    requires LaidOut(s, g)
    ensures forall q {:trigger q in g.alloc} :: q in g.alloc ==> Oop(q) && q in g.len
  {
    assert OpenLayout(0);
    forall q | q in g.alloc
      ensures Oop(q) && q in g.len
    {
      assert q in g.len && Placed(s, q, g.len[q]);
    }
  }
}
