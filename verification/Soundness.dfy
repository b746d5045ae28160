// Every operation between collections keeps the memory sound.
module Soundness {
  import opened Words
  import opened Memory
  import opened RefCounts
  import opened Layouts
  import opened Freeing
  import opened StorePointers
  import opened Compaction
  import opened ChunkAllocation
  import opened Accounts

  // Freeing keeps everything but the freed objects.
  lemma {:induction false} SoundBalanced(s: State, g: Layout, ext: multiset<int>, t: State, g': Layout,
                                         ext': multiset<int>)
    requires Sound(s, g, ext) && Balanced(s, g, t, g') && Healthy(t, g', ext') && ClassesAreObjects(t, g')
    requires RegistersKept(g, g', ext') && ext' <= ext
    ensures Sound(t, g', ext')
  {
    assert OpenSound(0);
    TiledSame(s, g, t, g');
    TotalSame(g.len, g'.len, g'.alloc);
    forall q | ext'[q] > 0
      ensures q in g'.alloc
    {
      assert ext[q] > 0;
    }
    assert NilStuck(t, g'.alloc) by {
      assert NIL_POINTER in g.alloc && s.E(NIL_POINTER).count == STUCK;
    }
    assert Accounted(t, g');
  }

  // storePointer:ofObject:withValue:
  lemma {:induction false} SoundStored(s: State, g: Layout, ext: multiset<int>, t: State, g': Layout, order: seq<int>,
                                       p: int, i: int, v: int)
    requires Sound(s, g, ext) && Stored(s, g, ext, t, g', order, p, i, v) && HEADER_SIZE <= i
    requires Balanced(s, g, t, g') && RegistersKept(g, g', ext)
    ensures Sound(t, g', ext)
  {
    assert OpenSound(0) && OpenHealthy(0);
    AllocInTable(s, g);
    forall q | q in g'.alloc
      ensures ClassOf(t, q) != NON_POINTER
    {
      assert Sized(s, q, g.len[q]);
      assert WordOf(t, q, 1) == WordOf(s, q, 1);
      assert ClassOf(t, q) == WordOf(t, q, 1) && ClassOf(s, q) == WordOf(s, q, 1);
    }
    SoundBalanced(s, g, ext, t, g', ext);
  }

  lemma {:induction false} SoundCompacted(s: State, g: Layout, ext: multiset<int>, segment: int, t: State, g': Layout)
    requires Sound(s, g, ext) && Compacted(s, g, segment, t, g')
    ensures Sound(t, g', ext) && g'.alloc == g.alloc
  {
    SoundReady(s, g, ext);
    UnseenSelf(s, g);
    CompactedUnseen(s, g, s, g, segment, t, g');
    assert t.currentSegment == s.currentSegment by {
      assert OpenSweep(0);
    }
    SoundUnseen(s, g, ext, t, g');
  }

  method IncreaseReferencesTo(om: ObjectMemory, p: Word, ghost g: Layout, ghost ext: multiset<int>)
    requires om.Valid() && Sound(om.st, g, ext) && (IsInteger(p) || p in g.alloc)
    modifies om`st, om.mem
    ensures om.Valid() && om.st == CountedUp(old(om.st), p) && Sound(om.st, g, Register(ext, p))
    ensures !IsInteger(p) ==>
      om.st.E(p).count == if old(om.st).E(p).count < 128 then old(om.st).E(p).count + 1 else old(om.st).E(p).count
  {
    assert !IsInteger(p) ==> InTable(p) by {
      assert OpenSound(0) && OpenHealthy(0);
      AllocInTable(om.st, g);
    }
    SoundCountUp(om.st, g, ext, p);
    CountUpSame(om.st, p, p);
    CountUp(om, p);
  }

  // A register gives up its reference.
  lemma {:induction false} ReadyToDrop(s: State, g: Layout, ext: multiset<int>, p: int)
    requires Sound(s, g, ext) && (!IsInteger(p) ==> ext[p] > 0)
    ensures DropReady(s, g, Drop(if IsInteger(p) then ext else ext - multiset{p}, NO_HOLE, {}), p)
  {
    assert OpenSound(0) && OpenHealthy(0);
    var d := Drop(if IsInteger(p) then ext else ext - multiset{p}, NO_HOLE, {});
    if !IsInteger(p) {
      assert p in g.alloc;
      forall q | q in g.alloc
        ensures s.E(q).count == STUCK ||
                (s.E(q).count < STUCK &&
                  s.E(q).count == Refs(s, g.alloc, d.hole, q) + d.ext[q] + (if q == p then 1 else 0))
      {
      }
    }
    assert Supported(s, g.alloc, d);
    assert DropReadyUnfolded(s, g, d, p);
  }

  // The objects that remain hold the same words.
  lemma {:induction false} SoundFreed(s: State, g: Layout, ext: multiset<int>, d: Drop, t: State, g': Layout,
                                      order: seq<int>)
    requires Sound(s, g, ext) && Freed(s, g, d, t, g', order) && d.hole == NO_HOLE && d.ext <= ext
    ensures Sound(t, g', d.ext)
  {
    assert OpenSound(0) && OpenHealthy(0);
    AllocInTable(s, g);
    assert CountedUp(s, 1) == s;
    FreedBalanced(s, g, d, t, g', order, 1);
    FreedParts(s, g, d, t, g', order);
    forall q | q in g'.alloc
      ensures ClassOf(t, q) != NON_POINTER
    {
      assert Sized(s, q, g.len[q]);
      assert WordOf(t, q, 1) == WordOf(s, q, 1) by {
        assert OpenFreed(0);
      }
      assert ClassOf(t, q) == WordOf(t, q, 1) && ClassOf(s, q) == WordOf(s, q, 1);
    }
    assert Healthy(t, g', d.ext);
    SoundBalanced(s, g, ext, t, g', d.ext);
  }

  method DecreaseReferencesTo(om: ObjectMemory, p: Word, ghost g: Layout, ghost ext: multiset<int>)
    returns (ghost g': Layout, ghost order: seq<int>)
    requires om.Valid() && Sound(om.st, g, ext) && (!IsInteger(p) ==> ext[p] > 0)
    modifies om`st, om`freeWords, om`freeOops, om.mem
    ensures om.Valid()
    ensures Sound(om.st, g', if IsInteger(p) then ext else ext - multiset{p})
    ensures Freed(old(om.st), g, Drop(if IsInteger(p) then ext else ext - multiset{p}, NO_HOLE, {}), om.st, g', order)
  {
    ghost var s, d := om.st, Drop(if IsInteger(p) then ext else ext - multiset{p}, NO_HOLE, {});
    ReadyToDrop(s, g, ext, p);
    g', order := CountDown(om, p, g, d);
    SoundFreed(s, g, ext, d, om.st, g', order);
  }
}
