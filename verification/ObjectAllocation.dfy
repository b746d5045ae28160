// Making an object of a chunk.
module ObjectAllocation {
  import opened Words
  import opened Memory
  import opened Traversal
  import opened RefCounts
  import opened Layouts
  import opened Freeing
  import opened StorePointers
  import opened Allocation
  import opened Abandoning
  import opened Compaction
  import opened ChunkAllocation
  import opened Accounts

  // The chunk of p made an object, as far as field i; its size word is still the chunk's.
  ghost predicate FieldsSet(t: State, p: int, odd: Bit, pointer: Bit, class_: Word, value: Word, i: int, u: State) {
    SameSizes(t, u) && u.freeHead == t.freeHead &&
    (forall q {:trigger u.E(q)} :: u.E(q) == if q == p then t.E(p).(odd := odd, pointer := pointer) else t.E(q)) &&
    (forall a {:trigger At(u.words, a)} :: At(u.words, a) ==
       var k := a - Address(t.E(p)); if k == 1 then class_ else if HEADER_SIZE <= k < i then value else At(t.words, a))
  }

  // The counters apart.
  ghost predicate Made(t: State, p: int, size: Word, odd: Bit, pointer: Bit, class_: Word, value: Word, u: State) {
    |u.words| == |t.words| && |u.ot| == |t.ot| && u.currentSegment == t.currentSegment && u.freeHead == t.freeHead &&
    (forall q {:trigger u.E(q)} :: u.E(q) == if q == p then t.E(p).(odd := odd, pointer := pointer) else t.E(q)) &&
    (forall a {:trigger At(u.words, a)} :: At(u.words, a) ==
       var k := a - Address(t.E(p));
       if k == 0 then size else if k == 1 then class_ else if HEADER_SIZE <= k < size then value else At(t.words, a))
  }

  lemma {:induction false} PutReads(words: seq<Word>, b: int, v: Word, a: int)
    requires 0 <= b < |words|
    ensures At(Put<Word>(words, b, v), a) == if a == b then v else At(words, a)
  {
  }

  lemma {:induction false} SetField(t: State, p: int, odd: Bit, pointer: Bit, class_: Word, value: Word, i: int,
                                    u: State, v: State)
    requires FieldsSet(t, p, odd, pointer, class_, value, i, u) && HEADER_SIZE <= i &&
      0 <= Address(t.E(p)) + i < |t.words|
    requires v == PutWord(u, Address(t.E(p)) + i, value)
    ensures FieldsSet(t, p, odd, pointer, class_, value, i + 1, v)
  {
    assert forall q :: v.E(q) == u.E(q);
    forall a
      ensures At(v.words, a) == var k := a - Address(t.E(p)); if k == 1 then class_
        else if HEADER_SIZE <= k < i + 1 then value else At(t.words, a)
    {
      PutReads(u.words, Address(t.E(p)) + i, value, a);
      assert At(u.words, a) == var k := a - Address(t.E(p)); if k == 1 then class_
        else if HEADER_SIZE <= k < i then value else At(t.words, a);
    }
  }

  lemma {:induction false} SetSize(t: State, p: int, odd: Bit, pointer: Bit, class_: Word, value: Word, size: Word,
                                   u: State, v: State)
    requires FieldsSet(t, p, odd, pointer, class_, value, size, u) && 0 <= Address(t.E(p)) < |t.words|
    requires v == PutWord(u, Address(t.E(p)), size)
    ensures Made(t, p, size, odd, pointer, class_, value, v)
  {
    assert forall q :: v.E(q) == u.E(q);
    forall a
      ensures At(v.words, a) == var k := a - Address(t.E(p));
        if k == 0 then size else if k == 1 then class_ else if HEADER_SIZE <= k < size then value else At(t.words, a)
    {
      PutReads(u.words, Address(t.E(p)), size, a);
      assert At(u.words, a) == var k := a - Address(t.E(p)); if k == 1 then class_
        else if HEADER_SIZE <= k < size then value else At(t.words, a);
    }
  }

  lemma {:induction false} SetHeader(t: State, p: int, odd: Bit, pointer: Bit, class_: Word, value: Word, u: State)
    requires 0 <= p < |t.ot| && 0 <= Address(t.E(p)) + 1 < |t.words|
    requires u == t.(ot := Put(Put(t.ot, p, t.E(p).(odd := odd)), p, t.E(p).(odd := odd, pointer := pointer)),
                     words := Put<Word>(t.words, Address(t.E(p)) + 1, class_))
    ensures FieldsSet(t, p, odd, pointer, class_, value, HEADER_SIZE, u)
  {
  }

  // The stores that make an object of the chunk of p.
  method MakeObject(om: ObjectMemory, p: Word, size: Word, oddBit: Bit, pointerBit: Bit, classPointer: Word)
    requires om.Valid() && InTable(p) && HEADER_SIZE <= size && InHeap(om.st.E(p), size - 1)
    modifies om`st, om.mem
    ensures om.Valid()
    ensures Made(old(om.st), p, size, oddBit, pointerBit, classPointer, if pointerBit == 0 then 0
      else NIL_POINTER, om.st)
    ensures om.st.freeWords == old(om.st.freeWords) && om.st.freeOops == old(om.st.freeOops)
  {
    ghost var t := om.st;
    om.OddBitPut(p, oddBit);
    om.PointerBitPut(p, pointerBit);
    om.ClassBitsPut(p, classPointer);
    var defaultValue: Word := if pointerBit == 0 then 0 else NIL_POINTER;
    SetHeader(t, p, oddBit, pointerBit, classPointer, defaultValue, om.st);
    for i := HEADER_SIZE to size
      invariant om.Valid() && FieldsSet(t, p, oddBit, pointerBit, classPointer, defaultValue, i, om.st)
    {
      ghost var u := om.st;
      assert u.E(p) == t.E(p).(odd := oddBit, pointer := pointerBit);
      om.HeapChunkWordPut(p, i, defaultValue);
      SetField(t, p, oddBit, pointerBit, classPointer, defaultValue, i, u, om.st);
    }
    ghost var u := om.st;
    assert u.E(p) == t.E(p).(odd := oddBit, pointer := pointerBit);
    om.SizeBitsPut(p, size);
    SetSize(t, p, oddBit, pointerBit, classPointer, defaultValue, size, u, om.st);
  }

  ghost function WithObject(h: Layout, p: int): Layout {
    h.(alloc := h.alloc + {p})
  }

  function ExtraWord(size: int, pointerBit: Bit): int {
    if pointerBit == 1 && size >= HUGE_SIZE then 1 else 0
  }

  // p, in hand with a chunk of the right length, has been made an object.
  ghost predicate NewObject(t: State, h: Layout, p: int, size: Word, odd: Bit, pointer: Bit, class_: Word, u: State) {
    InHand(t, h, p) && p in h.len && h.len[p] == size + ExtraWord(size, pointer) && HEADER_SIZE <= size &&
    (pointer == 1 || class_ != CLASS_COMPILED_METHOD) &&
    Made(t, p, size, odd, pointer, class_, if pointer == 0 then 0 else NIL_POINTER, u)
  }

  // The allocation of p, when no collection is needed: the class counted, a chunk found, made an
  // object, and the counters settled.
  ghost predicate Allotted(s: State, g: Layout, u: State, h: Layout, p: int, size: Word, odd: Bit, pointer: Bit,
                           class_: Word, t: State) {
    0 <= size + ExtraWord(size, pointer) && Served(CountedUp(s, class_), g, u, h, p, size + ExtraWord(size, pointer)) &&
    NewObject(u, h, p, size, odd, pointer, class_, t) && t.freeWords == u.freeWords - size - ExtraWord(size, pointer) &&
    t.freeOops == u.freeOops - 1 && 0 <= t.currentSegment < HEAP_SEGMENT_COUNT
  }

  lemma {:induction false} HandParts(t: State, h: Layout, p: int)
    requires InHand(t, h, p)
    ensures Framed(t, h) && AllListed(h, {p}) && p in h.len && p !in h.alloc && !Listed(h, p)
    ensures SizeOf(t, p) == h.len[p] && t.E(p).count == 0 && Placed(t, p, h.len[p]) && Oop(p)
    ensures forall q {:trigger q in h.alloc} :: q in h.alloc ==>
      Oop(q) && q in h.len && Placed(t, q, h.len[q]) && Sized(t, q, h.len[q])
  {
    assert OpenLayout(0);
    assert Placed(t, p, h.len[p]);
    forall q | q in h.alloc
      ensures Oop(q) && q in h.len && Placed(t, q, h.len[q]) && Sized(t, q, h.len[q])
    {
      assert q in h.len && Placed(t, q, h.len[q]);
    }
  }

  lemma {:induction false} MadeWord(t: State, h: Layout, p: int, size: Word, odd: Bit, pointer: Bit, class_: Word,
                                    u: State, q: int, i: int)
    requires NewObject(t, h, p, size, odd, pointer, class_, u) && q in h.len && q != p && 0 <= i < h.len[q]
    ensures WordOf(u, q, i) == WordOf(t, q, i) && u.E(q) == t.E(q)
  {
    HandParts(t, h, p);
    var k := Address(t.E(q)) + i - Address(t.E(p));
    if 0 <= k < h.len[p] {
      ElsewhereInHeap(t, h, p, k, q, i);
    }
  }

  lemma {:induction false} MadeHead(t: State, h: Layout, p: int, size: Word, odd: Bit, pointer: Bit, class_: Word,
                                    u: State, a: int)
    requires NewObject(t, h, p, size, odd, pointer, class_, u) && IsHead(a)
    ensures At(u.words, a) == At(t.words, a)
  {
    HandParts(t, h, p);
    var k := a - Address(t.E(p));
    if 0 <= k < h.len[p] {
      HeadOutside(t, h, p, k, a);
    }
  }

  // The words of the new object.
  lemma {:induction false} MadeItself(t: State, h: Layout, p: int, size: Word, odd: Bit, pointer: Bit, class_: Word,
                                      u: State)
    requires NewObject(t, h, p, size, odd, pointer, class_, u)
    ensures u.E(p) == t.E(p).(odd := odd, pointer := pointer) && SizeOf(u, p) == size && ClassOf(u, p) == class_
    ensures forall i {:trigger WordOf(u, p, i)} :: HEADER_SIZE <= i < size ==>
      WordOf(u, p, i) == if pointer == 0 then 0 else NIL_POINTER
    ensures LastPointer(u, p) == (if pointer == 1 then size else HEADER_SIZE) && Sized(u, p, h.len[p]) &&
      Placed(u, p, h.len[p])
  {
    HandParts(t, h, p);
  }

  lemma {:induction false} MadeListed(t: State, h: Layout, p: int, size: Word, odd: Bit, pointer: Bit, class_: Word,
                                      u: State)
    requires NewObject(t, h, p, size, odd, pointer, class_, u)
    ensures Lists(u, WithObject(h, p)) && AllListed(WithObject(h, p), {})
  {
    HandParts(t, h, p);
    var h' := WithObject(h, p);
    forall a, i | a in h.lists && 0 <= i < |h.lists[a]|
      ensures OnList(u, h', a, h.lists[a][i]) && ClassOf(u, h.lists[a][i]) == ClassOf(t, h.lists[a][i])
    {
      var q := h.lists[a][i];
      assert OnList(t, h, a, q) && q != p;
      assert Placed(t, q, h.len[q]);
      MadeWord(t, h, p, size, odd, pointer, class_, u, q, 0);
      MadeWord(t, h, p, size, odd, pointer, class_, u, q, 1);
    }
    forall a | a in h.lists
      ensures Linked(u, a, h.lists[a])
    {
      assert Linked(t, a, h.lists[a]) && IsHead(a);
      MadeHead(t, h, p, size, odd, pointer, class_, u, a);
      SameLinked(t, u, a, h.lists[a]);
    }
    forall q | q in h'.len && q !in h'.alloc
      ensures Listed(h', q)
    {
      assert Listed(h, q);
      var a, i :| a in h.lists && 0 <= i < |h.lists[a]| && h.lists[a][i] == q;
      assert h'.lists[a][i] == q;
    }
  }

  lemma {:induction false} MadeChunks(t: State, h: Layout, p: int, size: Word, odd: Bit, pointer: Bit, class_: Word,
                                      u: State)
    requires NewObject(t, h, p, size, odd, pointer, class_, u)
    ensures Chunks(u, WithObject(h, p)) && Frees(u, h.frees)
  {
    HandParts(t, h, p);
    FreesKept(t, u, h.frees);
    forall q | q in h.len
      ensures Placed(u, q, h.len[q])
    {
      assert Placed(t, q, h.len[q]) && u.E(q) == if q == p then t.E(p).(odd := odd, pointer := pointer) else t.E(q);
    }
    forall q, r | q in h.len && r in h.len && q != r
      ensures Separate(u, q, h.len[q], r, h.len[r])
    {
      assert Separate(t, q, h.len[q], r, h.len[r]);
      assert u.E(q) == if q == p then t.E(p).(odd := odd, pointer := pointer) else t.E(q);
      assert u.E(r) == if r == p then t.E(p).(odd := odd, pointer := pointer) else t.E(r);
    }
  }

  lemma {:induction false} MadeLaidOut(t: State, h: Layout, p: int, size: Word, odd: Bit, pointer: Bit, class_: Word,
                                       u: State)
    requires NewObject(t, h, p, size, odd, pointer, class_, u)
    ensures LaidOut(u, WithObject(h, p)) && (Tiled(t, h) ==> Tiled(u, WithObject(h, p)))
  {
    HandParts(t, h, p);
    MadeItself(t, h, p, size, odd, pointer, class_, u);
    MadeListed(t, h, p, size, odd, pointer, class_, u);
    MadeChunks(t, h, p, size, odd, pointer, class_, u);
    forall q | q in h.alloc
      ensures Sized(u, q, h.len[q])
    {
      MadeShape(t, h, p, size, odd, pointer, class_, u, q);
    }
    forall q | Oop(q) && u.E(q).free == 0
      ensures q in h.len
    {
      assert t.E(q).free == 0;
    }
    assert LaidOutUnfolded(u, WithObject(h, p));
    if Tiled(t, h) {
      forall segment, w | 0 <= segment < HEAP_SEGMENT_COUNT && 0 <= w < HEAP_SPACE_STOP
        ensures InChunk(u, WithObject(h, p), segment, w)
      {
        assert InChunk(t, h, segment, w);
        var q :| q in h.len && t.E(q).segment == segment && t.E(q).location <= w < t.E(q).location + h.len[q];
        assert u.E(q) == if q == p then t.E(p).(odd := odd, pointer := pointer) else t.E(q);
      }
    }
  }

  lemma {:induction false} MadeShape(t: State, h: Layout, p: int, size: Word, odd: Bit, pointer: Bit, class_: Word,
                                     u: State, q: int)
    requires NewObject(t, h, p, size, odd, pointer, class_, u) && q in h.alloc
    ensures q in h.len && q != p && u.E(q) == t.E(q) && Sized(u, q, h.len[q]) && LastPointer(u, q) == LastPointer(t, q)
    ensures forall i {:trigger WordOf(u, q, i)} :: 0 <= i < h.len[q] ==> WordOf(u, q, i) == WordOf(t, q, i)
    ensures LastPointer(t, q) <= SizeOf(t, q) <= h.len[q] && HEADER_SIZE <= SizeOf(t, q)
  {
    HandParts(t, h, p);
    assert u.E(q) == t.E(q);
    forall i | 0 <= i < h.len[q]
      ensures WordOf(u, q, i) == WordOf(t, q, i)
    {
      MadeWord(t, h, p, size, odd, pointer, class_, u, q, i);
    }
    SameSize(t, u, q, h.len[q]);
  }

  // A place that holds q holds it already, or is the class of the new object.
  lemma {:induction false} MadeHolds(t: State, h: Layout, p: int, size: Word, odd: Bit, pointer: Bit, class_: Word,
                                     u: State, q: int, r: int, i: int)
    requires NewObject(t, h, p, size, odd, pointer, class_, u) && q != NIL_POINTER
    ensures (r in h.alloc + {p} && 1 <= i < LastPointer(u, r) && WordOf(u, r, i) == q) <==>
      ((r in h.alloc && 1 <= i < LastPointer(t, r) && WordOf(t, r, i) == q) || (q == class_ && r == p && i == 1))
  {
    HandParts(t, h, p);
    if r in h.alloc {
      MadeShape(t, h, p, size, odd, pointer, class_, u, r);
      if 1 <= i < LastPointer(t, r) {
        assert WordOf(u, r, i) == WordOf(t, r, i);
      }
    } else {
      MadeItself(t, h, p, size, odd, pointer, class_, u);
      if r == p {
        assert ClassOf(u, p) == WordOf(u, p, 1);
        assert HEADER_SIZE <= i < size ==> WordOf(u, p, i) == if pointer == 0 then 0 else NIL_POINTER;
      }
    }
  }

  // The references of the new object: one to its class, the rest to nil.
  lemma {:induction false} MadeRefs(t: State, h: Layout, p: int, size: Word, odd: Bit, pointer: Bit, class_: Word,
                                    u: State, q: int)
    requires NewObject(t, h, p, size, odd, pointer, class_, u) && q != NIL_POINTER
    ensures Refs(u, h.alloc + {p}, NO_HOLE, q) == Refs(t, h.alloc, NO_HOLE, q) + (if q == class_ then 1 else 0)
  {
    assert p !in h.alloc by {
      HandParts(t, h, p);
    }
    var before := Holders(t, Places(t, h.alloc) - NO_HOLE, q);
    var after := Holders(u, Places(u, h.alloc + {p}) - NO_HOLE, q);
    var more := if q == class_ then {(p, 1)} else {};
    forall r, i
      ensures (r, i) in after <==> (r, i) in before || (r, i) in more
    {
      MadeHolds(t, h, p, size, odd, pointer, class_, u, q, r, i);
    }
    assert after == before + more;
    assert (p, 1) !in before;
  }

  // Nothing refers to what is not allocated.
  lemma {:induction false} NoRefs(t: State, A: set<int>, p: int)
    requires Closed(t, A, NO_HOLE) && Oop(p) && p !in A
    ensures Refs(t, A, NO_HOLE, p) == 0
  {
    forall x | x in Places(t, A)
      ensures WordOf(t, x.0, x.1) != p
    {
      var w := WordOf(t, x.0, x.1);
      if !IsInteger(w) {
        assert PointsTo(t, x.0, x.1, w);
      }
    }
    assert Holders(t, Places(t, A) - NO_HOLE, p) == {};
  }

  lemma {:induction false} MadeExact(t: State, h: Layout, p: int, size: Word, odd: Bit, pointer: Bit, class_: Word,
                                     u: State, ext: multiset<int>)
    requires NewObject(t, h, p, size, odd, pointer, class_, u)
    requires Closed(t, h.alloc, NO_HOLE) && Exact(t, h.alloc, NO_HOLE, Register(ext, class_)) && class_ in h.alloc &&
      NilStuck(t, h.alloc)
    requires RegistersIn(ext, h.alloc)
    ensures Closed(u, h.alloc + {p}, NO_HOLE) && Exact(u, h.alloc + {p}, NO_HOLE, ext)
  {
    HandParts(t, h, p);
    MadeItself(t, h, p, size, odd, pointer, class_, u);
    forall r, i, q | r in h.alloc + {p} && PointsTo(u, r, i, q)
      ensures q in h.alloc + {p}
    {
      if r != p {
        MadeShape(t, h, p, size, odd, pointer, class_, u, r);
        assert WordOf(u, r, i) == WordOf(t, r, i);
        assert PointsTo(t, r, i, q);
      } else {
        assert ClassOf(u, p) == WordOf(u, p, 1);
        assert i >= HEADER_SIZE ==> WordOf(u, p, i) == NIL_POINTER;
      }
    }
    forall q | q in h.alloc + {p}
      ensures u.E(q).count == STUCK ||
        (u.E(q).count < STUCK && u.E(q).count == Refs(u, h.alloc + {p}, NO_HOLE, q) + ext[q])
    {
      assert u.E(q) == if q == p then t.E(p).(odd := odd, pointer := pointer) else t.E(q);
      if q != NIL_POINTER {
        MadeRefs(t, h, p, size, odd, pointer, class_, u, q);
        if q == p {
          NoRefs(t, h.alloc, p);
        }
      }
    }
  }

  // The counter covers every chunk that can be had.
  lemma {:induction false} EnoughWords(s: State, g: Layout, u: State, h: Layout, p: int, size: int)
    requires Accounted(s, g) && Served(s, g, u, h, p, size)
    ensures u.freeWords >= size && h.alloc + {p} <= h.len.Keys && p !in h.alloc
    ensures u.freeWords - size + TotalLength(h.len, h.alloc + {p}) == HEAP_ROOM
  {
    HandParts(u, h, p);
    forall q | q in g.alloc
      ensures q in h.len && h.len[q] == g.len[q]
    {
      assert Carried(s, g, u, h, q);
    }
    TotalSame(g.len, h.len, g.alloc);
    TotalWithout(h.len, h.alloc + {p}, p);
    assert h.alloc + {p} - {p} == h.alloc;
    ChunksFit(u, h, h.alloc + {p});
  }

  // q is what it was, but that it may have moved, and its count may have gone up.
  ghost predicate Kept(s: State, g: Layout, t: State, q: int) {
    t.E(q) == s.E(q).(location := t.E(q).location, count := t.E(q).count) && q in g.len &&
    forall i {:trigger WordOf(t, q, i)} :: 0 <= i < g.len[q] ==> WordOf(t, q, i) == WordOf(s, q, i)
  }

  ghost predicate AllKept(s: State, g: Layout, t: State) {
    forall q {:trigger q in g.alloc} :: q in g.alloc ==> Kept(s, g, t, q)
  }

  // p is a new object of t: no references, the fields nil or zero.
  ghost predicate Newborn(t: State, g: Layout, p: int, size: Word, odd: Bit, pointer: Bit, class_: Word) {
    p !in g.alloc && t.E(p).count == 0 && t.E(p).odd == odd && t.E(p).pointer == pointer &&
    SizeOf(t, p) == size && ClassOf(t, p) == class_ &&
    forall i {:trigger WordOf(t, p, i)} :: HEADER_SIZE <= i < size ==>
      WordOf(t, p, i) == if pointer == 0 then 0 else NIL_POINTER
  }

  // After counting up the class: ready to look for a chunk.
  lemma {:induction false} ClassCounted(s: State, g: Layout, ext: multiset<int>, class_: int)
    requires Sound(s, g, ext) && class_ in g.alloc && !IsInteger(class_)
    ensures Sound(CountedUp(s, class_), g, Register(ext, class_)) && Oop(class_)
    ensures AllKept(s, g, CountedUp(s, class_))
  {
    SoundCountUp(s, g, ext, class_);
    assert OpenSound(0) && OpenHealthy(0);
    AllocInTable(s, g);
    forall q | q in g.alloc
      ensures Kept(s, g, CountedUp(s, class_), q)
    {
      CountUpSame(s, class_, q);
    }
  }

  lemma {:induction false} KeptOn(s: State, g: Layout, t: State, u: State, h: Layout, w: State, p: int, size: Word,
                                  odd: Bit, pointer: Bit, class_: Word)
    requires AllKept(s, g, t) && AllCarried(t, g, u, h) && NewObject(u, h, p, size, odd, pointer, class_, w)
    ensures AllKept(s, g, w)
  {
    forall q | q in g.alloc
      ensures Kept(s, g, w, q)
    {
      assert Kept(s, g, t, q) && Carried(t, g, u, h, q);
      MadeShape(u, h, p, size, odd, pointer, class_, w, q);
      forall i | 0 <= i < g.len[q]
        ensures WordOf(w, q, i) == WordOf(s, q, i)
      {
        assert WordOf(w, q, i) == WordOf(u, q, i);
        assert WordOf(u, q, i) == WordOf(t, q, i);
      }
    }
  }

  // The new object, its class counted and the counters brought up to date, leaves the memory sound.
  lemma {:induction false} AllocatedSound(t: State, g: Layout, ext: multiset<int>, u: State, h: Layout, p: int,
                                          size: Word, odd: Bit, pointer: Bit, class_: Word, w: State)
    requires Sound(t, g, Register(ext, class_)) && class_ in g.alloc && !IsInteger(class_) && RegistersIn(ext, g.alloc)
    requires Served(t, g, u, h, p, size + ExtraWord(size, pointer)) && NewObject(u, h, p, size, odd, pointer, class_, w)
    requires w.freeWords == u.freeWords - size - ExtraWord(size, pointer) && w.freeOops == u.freeOops - 1
    requires 0 <= w.currentSegment < HEAP_SEGMENT_COUNT
    ensures Sound(w, WithObject(h, p), ext)
  {
    assert OpenSound(0) && OpenHealthy(0);
    CarriedExact(t, g, u, h, NO_HOLE, Register(ext, class_));
    EnoughWords(t, g, u, h, p, size + ExtraWord(size, pointer));
    MadeLaidOut(u, h, p, size, odd, pointer, class_, w);
    AllocInTable(t, g);
    assert Carried(t, g, u, h, NIL_POINTER);
    MadeExact(u, h, p, size, odd, pointer, class_, w, ext);
    MadeShape(u, h, p, size, odd, pointer, class_, w, NIL_POINTER);
    assert Shaped(w) by {
      assert OpenLayout(0);
    }
    assert Healthy(w, WithObject(h, p), ext);
    assert Accounted(w, WithObject(h, p)) by {
      assert |h.alloc + {p}| == |h.alloc| + 1;
    }
    AllocatedClasses(t, g, u, h, p, size, odd, pointer, class_, w);
  }

  lemma {:induction false} AllocatedClasses(t: State, g: Layout, u: State, h: Layout, p: int, size: Word, odd: Bit,
                                            pointer: Bit, class_: Word, w: State)
    requires ClassesAreObjects(t, g) && LaidOut(t, g) && AllCarried(t, g, u, h) &&
      NewObject(u, h, p, size, odd, pointer, class_, w) && !IsInteger(class_)
    ensures ClassesAreObjects(w, WithObject(h, p))
  {
    MadeItself(u, h, p, size, odd, pointer, class_, w);
    forall q | q in h.alloc
      ensures ClassOf(w, q) != NON_POINTER
    {
      assert Carried(t, g, u, h, q);
      CarriedShape(t, g, u, h, q);
      MadeShape(u, h, p, size, odd, pointer, class_, w, q);
      assert ClassOf(w, q) == WordOf(w, q, 1) && ClassOf(u, q) == WordOf(u, q, 1);
    }
  }

  lemma {:induction false} AllocateEnds(s: State, t: State, g: Layout, ext: multiset<int>, u: State, h: Layout, p: int,
                                        size: Word, odd: Bit, pointer: Bit, class_: Word, paid: State, made: State,
                                        w: State)
    requires Sound(s, g, ext) && AllKept(s, g, t) && Sound(t, g, Register(ext, class_)) && class_ in g.alloc &&
      !IsInteger(class_)
    requires pointer == 1 || class_ != CLASS_COMPILED_METHOD
    requires HEADER_SIZE <= size && Served(t, g, u, h, p, size + ExtraWord(size, pointer))
    requires paid == u.(freeWords := u.freeWords - (size + ExtraWord(size, pointer)))
    requires Made(paid, p, size, odd, pointer, class_, if pointer == 0 then 0 else NIL_POINTER, made)
    requires made.freeWords == paid.freeWords && made.freeOops == paid.freeOops &&
      w == made.(freeOops := made.freeOops - 1)
    requires 0 <= w.currentSegment < HEAP_SEGMENT_COUNT
    ensures AllKept(s, g, w) && Sound(w, WithObject(h, p), ext) && Newborn(w, g, p, size, odd, pointer, class_)
    ensures WithObject(h, p).alloc == g.alloc + {p}
  {
    NowObject(u, h, p, size, odd, pointer, class_, paid, made, w);
    SoundRegisters(s, g, ext);
    AllocatedSound(t, g, ext, u, h, p, size, odd, pointer, class_, w);
    HandParts(u, h, p);
    MadeItself(u, h, p, size, odd, pointer, class_, w);
    KeptOn(s, g, t, u, h, w, p, size, odd, pointer, class_);
  }

  lemma {:induction false} NowObject(u: State, h: Layout, p: int, size: Word, odd: Bit, pointer: Bit, class_: Word,
                                     paid: State, made: State, w: State)
    requires InHand(u, h, p) && p in h.len && h.len[p] == size + ExtraWord(size, pointer) && HEADER_SIZE <= size
    requires pointer == 1 || class_ != CLASS_COMPILED_METHOD
    requires paid == u.(freeWords := paid.freeWords) && w == made.(freeOops := w.freeOops)
    requires Made(paid, p, size, odd, pointer, class_, if pointer == 0 then 0 else NIL_POINTER, made)
    ensures NewObject(u, h, p, size, odd, pointer, class_, w)
  {
    forall q
      ensures w.E(q) == if q == p then u.E(p).(odd := odd, pointer := pointer) else u.E(q)
    {
      assert w.E(q) == made.E(q) && paid.E(q) == u.E(q);
    }
    assert paid.E(p) == u.E(p);
  }

  lemma {:induction false} KeptUnseen(s: State, g: Layout, t: State, u: State, h: Layout)
    requires AllKept(s, g, t) && Unseen(t, g, u, h)
    ensures AllKept(s, g, u)
  {
    assert OpenUnseen(0);
    forall q | q in g.alloc
      ensures Kept(s, g, u, q)
    {
      assert Kept(s, g, t, q) && Carried(t, g, u, h, q);
      forall i | 0 <= i < g.len[q]
        ensures WordOf(u, q, i) == WordOf(s, q, i)
      {
        assert WordOf(u, q, i) == WordOf(t, q, i);
      }
    }
  }
}
