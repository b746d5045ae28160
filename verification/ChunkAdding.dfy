// A free chunk made of room that no chunk covers.
module ChunkAdding {
  import opened Words
  import opened Memory
  import opened Layouts
  import opened Allocation
  import opened Abandoning

  // No chunk covers a word from `low` on in the segment.
  ghost predicate Bare(t: State, h: Layout, segment: int, low: int) {
    forall q {:trigger q in h.len} :: q in h.len ==> t.E(q).segment != segment || t.E(q).location + h.len[q] <= low
  }

  // The entry n, the first that is free, is to take the last `size` words of the current segment.
  ghost predicate CanAdd(t: State, h: Layout, segment: Nibble, n: int, size: Word, location: Word) {
    LaidOut(t, h) && h.frees != [] && n == h.frees[0] && segment < HEAP_SEGMENT_COUNT && segment == t.currentSegment &&
    HEADER_SIZE <= size && location + size <= HEAP_SPACE_STOP + 1 && Bare(t, h, segment, location)
  }

  ghost function Added(t: State, n: int, size: Word, location: Word): State {
    Deallocated(Obtained(t, n, size, location), n)
  }

  // With n as if it were allocated,
  ghost function Taken(h: Layout, n: int, size: nat): Layout
    requires h.frees != []
  {
    Layout(h.alloc + {n}, h.len[n := size], h.lists, h.frees[1..])
  }

  // and with n on its list.
  ghost function AddedLayout(t: State, h: Layout, n: int, size: Word, location: Word): Layout
    requires h.frees != [] &&
      HeadFor(Space(Obtained(t, n, size, location), n), Obtained(t, n, size, location).E(n).segment) in h.lists
  {
    WithoutObject(Obtained(t, n, size, location), Taken(h, n, size), n)
  }

  lemma {:induction false} TakenEntries(t: State, h: Layout, segment: Nibble, n: int, size: Word, location: Word,
                                        u: State)
    requires CanAdd(t, h, segment, n, size, location) && u == Obtained(t, n, size, location)
    ensures Oop(n) && n !in h.len && Shaped(u) && u.freeHead == Next(h.frees, 1)
    ensures forall q {:trigger u.E(q)} :: u.E(q) == if q == n then Cleared(segment, location) else t.E(q)
    ensures SizeOf(u, n) == size && Space(u, n) == size
    ensures forall a {:trigger At(u.words, a)} ::
      At(u.words, a) == if a == segment * 65536 + location then size else At(t.words, a)
  {
    assert OpenLayout(0);
    assert FreeLink(t, h.frees, 0);
    EntryFree(t, h);
    assert SizeOf(u, n) == At(u.words, segment * 65536 + location);
  }

  lemma {:induction false} EntryFree(t: State, h: Layout)
    requires LaidOut(t, h) && h.frees != []
    ensures Oop(h.frees[0]) && t.E(h.frees[0]).free == 1 && h.frees[0] !in h.len
  {
    assert OpenLayout(0);
    forall q | q in h.len
      ensures t.E(q).free == 0
    {
      assert Placed(t, q, h.len[q]);
    }
    assert FreeLink(t, h.frees, 0);
  }

  // The others' words are not written.
  lemma {:induction false} TakenWords(t: State, h: Layout, segment: Nibble, n: int, size: Word, location: Word,
                                      u: State, q: int)
    requires CanAdd(t, h, segment, n, size, location) && u == Obtained(t, n, size, location) && q in h.len
    ensures Placed(t, q, h.len[q]) && u.E(q) == t.E(q) && q != n
    ensures forall i {:trigger WordOf(u, q, i)} :: 0 <= i < h.len[q] ==> WordOf(u, q, i) == WordOf(t, q, i)
    ensures SizeOf(u, q) == SizeOf(t, q) && ClassOf(u, q) == ClassOf(t, q)
  {
    TakenEntries(t, h, segment, n, size, location, u);
    assert OpenLayout(0);
    assert Placed(t, q, h.len[q]);
    forall i | 0 <= i < h.len[q]
      ensures WordOf(u, q, i) == WordOf(t, q, i)
    {
      assert WordOf(u, q, i) == At(u.words, Address(t.E(q)) + i);
    }
    assert WordOf(u, q, 0) == WordOf(t, q, 0) && WordOf(u, q, 1) == WordOf(t, q, 1);
  }

  lemma {:induction false} TakenChunks(t: State, h: Layout, segment: Nibble, n: int, size: Word, location: Word,
                                       u: State)
    requires CanAdd(t, h, segment, n, size, location) && u == Obtained(t, n, size, location)
    ensures Chunks(u, Taken(h, n, size))
  {
    var g := Taken(h, n, size);
    TakenEntries(t, h, segment, n, size, location, u);
    forall p | p in g.len
      ensures Placed(u, p, g.len[p])
    {
      if p != n {
        TakenWords(t, h, segment, n, size, location, u, p);
      }
    }
    forall p, q | p in g.len && q in g.len && p != q
      ensures Separate(u, p, g.len[p], q, g.len[q])
    {
      if p == n {
        TakenApart(t, h, segment, n, size, location, u, q);
      } else if q == n {
        TakenApart(t, h, segment, n, size, location, u, p);
      } else {
        assert Separate(t, p, h.len[p], q, h.len[q]) by {
          assert OpenLayout(0);
        }
      }
    }
  }

  lemma {:induction false} TakenApart(t: State, h: Layout, segment: Nibble, n: int, size: Word, location: Word,
                                      u: State, q: int)
    requires CanAdd(t, h, segment, n, size, location) && u == Obtained(t, n, size, location) && q in h.len
    ensures Separate(u, n, size, q, h.len[q]) && Separate(u, q, h.len[q], n, size)
  {
    TakenEntries(t, h, segment, n, size, location, u);
    TakenWords(t, h, segment, n, size, location, u, q);
  }

  lemma {:induction false} TakenLists(t: State, h: Layout, segment: Nibble, n: int, size: Word, location: Word,
                                      u: State)
    requires CanAdd(t, h, segment, n, size, location) && u == Obtained(t, n, size, location)
    ensures Lists(u, Taken(h, n, size)) && AllListed(Taken(h, n, size), {})
  {
    var g := Taken(h, n, size);
    TakenEntries(t, h, segment, n, size, location, u);
    assert Lists(t, h) && AllListed(h, {}) by {
      assert OpenLayout(0);
    }
    forall a, i | a in h.lists && 0 <= i < |h.lists[a]|
      ensures OnList(u, g, a, h.lists[a][i]) && ClassOf(u, h.lists[a][i]) == ClassOf(t, h.lists[a][i])
    {
      assert OnList(t, h, a, h.lists[a][i]);
      TakenWords(t, h, segment, n, size, location, u, h.lists[a][i]);
    }
    forall a | a in h.lists
      ensures Linked(u, a, h.lists[a])
    {
      assert Linked(t, a, h.lists[a]) && IsHead(a);
      SameLinked(t, u, a, h.lists[a]);
    }
    forall p | p in g.len && p !in g.alloc
      ensures Listed(g, p)
    {
      assert Listed(h, p);
    }
  }

  lemma {:induction false} HeadThere(t: State, h: Layout, segment: Nibble, n: int, size: Word, location: Word)
    requires CanAdd(t, h, segment, n, size, location)
    ensures HeadFor(Space(Obtained(t, n, size, location), n), Obtained(t, n, size, location).E(n).segment) in h.lists
  {
    TakenEntries(t, h, segment, n, size, location, Obtained(t, n, size, location));
    HeadForIsHead(size, segment);
    assert OpenLayout(0);
  }

  lemma {:induction false} AddedWords(t: State, h: Layout, segment: Nibble, n: int, size: Word, location: Word,
                                      v: State)
    requires CanAdd(t, h, segment, n, size, location) && v == Added(t, n, size, location)
    ensures Shaped(v) && v.freeHead == Next(h.frees, 1) && n !in h.len
    ensures forall q {:trigger v.E(q)} :: v.E(q) == if q == n then Cleared(segment, location) else t.E(q)
    ensures forall q, i {:trigger WordOf(v, q, i)} :: q in h.len && 0 <= i < h.len[q] ==>
      WordOf(v, q, i) == WordOf(t, q, i)
  {
    var u := Obtained(t, n, size, location);
    TakenEntries(t, h, segment, n, size, location, u);
    TakenChunks(t, h, segment, n, size, location, u);
    DeallocatedWords(u, Taken(h, n, size), n);
    assert forall q :: v.E(q) == u.E(q);
    forall q, i | q in h.len && 0 <= i < h.len[q]
      ensures WordOf(v, q, i) == WordOf(t, q, i)
    {
      TakenWords(t, h, segment, n, size, location, u, q);
      assert WordOf(v, q, i) == WordOf(u, q, i);
    }
  }

  lemma {:induction false} AddedSized(t: State, h: Layout, segment: Nibble, n: int, size: Word, location: Word,
                                      v: State, q: int)
    requires CanAdd(t, h, segment, n, size, location) && v == Added(t, n, size, location) && q in h.alloc
    ensures q in h.len && q != n && Sized(v, q, h.len[q])
  {
    AddedWords(t, h, segment, n, size, location, v);
    assert OpenLayout(0);
    assert Sized(t, q, h.len[q]);
    assert v.E(q) == t.E(q);
    SameShape(t, v, q, h.len[q]);
  }

  lemma {:induction false} AddedFrees(t: State, h: Layout, segment: Nibble, n: int, size: Word, location: Word,
                                      v: State)
    requires CanAdd(t, h, segment, n, size, location) && v == Added(t, n, size, location)
    ensures Frees(v, h.frees[1..])
  {
    AddedWords(t, h, segment, n, size, location, v);
    assert OpenLayout(0);
    assert FreeLink(t, h.frees, 0);
    FreesPop(t, h.frees, v);
  }

  lemma {:induction false} AddedLists(t: State, h: Layout, segment: Nibble, n: int, size: Word, location: Word,
                                      v: State, h': Layout)
    requires CanAdd(t, h, segment, n, size, location) && v == Added(t, n, size, location)
    requires HeadFor(Space(Obtained(t, n, size, location), n), Obtained(t, n, size, location).E(n).segment) in h.lists
    requires h' == AddedLayout(t, h, n, size, location)
    ensures Chunks(v, h') && Lists(v, h') && AllListed(h', {})
  {
    var u, g := Obtained(t, n, size, location), Taken(h, n, size);
    TakenEntries(t, h, segment, n, size, location, u);
    TakenChunks(t, h, segment, n, size, location, u);
    TakenLists(t, h, segment, n, size, location, u);
    AllocOops(t, h);
    DeallocateKeepsLists(u, g, n);
    assert forall q :: v.E(q) == u.E(q);
    SameChunks(u, v, g, h');
  }

  lemma {:induction false} ChunkAdded(t: State, h: Layout, segment: Nibble, n: int, size: Word, location: Word,
                                      v: State)
    returns (h': Layout)
    requires CanAdd(t, h, segment, n, size, location) && v == Added(t, n, size, location)
    ensures LaidOut(v, h') && n !in h.len && h'.len == h.len[n := size] && h'.alloc == h.alloc &&
      h'.frees == h.frees[1..]
    ensures forall q {:trigger v.E(q)} :: v.E(q) == if q == n then Cleared(segment, location) else t.E(q)
    ensures forall q, i {:trigger WordOf(v, q, i)} :: q in h.len && 0 <= i < h.len[q] ==>
      WordOf(v, q, i) == WordOf(t, q, i)
  {
    HeadThere(t, h, segment, n, size, location);
    h' := AddedLayout(t, h, n, size, location);
    AddedWords(t, h, segment, n, size, location, v);
    AddedLists(t, h, segment, n, size, location, v, h');
    AddedFrees(t, h, segment, n, size, location, v);
    AllocOops(t, h);
    assert n !in h.alloc;
    assert h'.alloc == h.alloc;
    forall q | q in h'.alloc
      ensures Sized(v, q, h'.len[q])
    {
      AddedSized(t, h, segment, n, size, location, v, q);
    }
    assert forall p :: Oop(p) && t.E(p).free == 0 ==> p in h.len by {
      assert OpenLayout(0);
    }
  }

  // What is left when there is no entry to take: nil is put on the list.
  ghost function NilListed(t: State, segment: int, size: int): State {
    var h := HeadFor(size, segment);
    t.(words := Put<Word>(Put<Word>(t.words, Address(t.E(NIL_POINTER)) + 1, At(t.words, h)), h, NIL_POINTER))
  }

  // The chunk of so many words at the location is made a free one of the current segment.
  method AddChunk(om: ObjectMemory, size: Word, location: Word, ghost frees: seq<int>, ghost h: Layout)
    returns (ghost h': Layout)
    requires om.Valid() && Frees(om.st, frees) && NIL_POINTER !in frees && 0 <= om.currentSegment < HEAP_SEGMENT_COUNT
    requires HEADER_SIZE <= size && location + size <= HEAP_SPACE_STOP + 1 && InHeap(om.st.E(NIL_POINTER), 1)
    requires frees != [] ==> frees == h.frees && CanAdd(om.st, h, om.currentSegment, frees[0], size, location)
    modifies om`st, om.mem
    ensures om.Valid()
    ensures frees == [] ==> om.st == NilListed(old(om.st), old(om.st).E(NIL_POINTER).segment, size)
    ensures frees != [] ==>
      LaidOut(om.st, h') && om.st == Added(old(om.st), frees[0], size, location) && frees[0] !in h.len
    ensures frees != [] ==> h'.len == h.len[frees[0] := size] && h'.alloc == h.alloc && h'.frees == frees[1..]
    ensures frees != [] ==> forall q {:trigger om.st.E(q)} ::
      om.st.E(q) == if q == frees[0] then Cleared(old(om.currentSegment), location) else old(om.st).E(q)
    ensures frees != [] ==> forall q, i {:trigger WordOf(om.st, q, i)} ::
      q in h.len && 0 <= i < h.len[q] ==> WordOf(om.st, q, i) == WordOf(old(om.st), q, i)
  {
    ghost var t, segment := om.st, om.currentSegment;
    h' := h;
    var n := ObtainPointer(om, size, location, frees);
    if frees != [] {
      TakenEntries(t, h, segment, n, size, location, om.st);
      HeadForIsHead(size, segment);
    }
    ToFreeChunkListAdd(om, if size < BIG_SIZE then size else BIG_SIZE, n);
    if frees != [] {
      h' := ChunkAdded(t, h, segment, n, size, location, om.st);
    }
  }
}
