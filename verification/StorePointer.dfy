// Counting up, storing a pointer, and what exactly a count down frees.
module StorePointers {
  import opened Words
  import opened Memory
  import opened Traversal
  import opened RefCounts
  import opened Layouts
  import opened Freeing

  // A count up sticks at 128.
  function Raised(e: Entry): Entry {
    if e.count < STUCK then e.(count := e.count + 1) else e
  }

  // What a count up leaves.
  ghost function CountedUp(s: State, p: int): State {
    if IsInteger(p) || s.E(p).count >= STUCK then s else PutEntry(s, p, Raised(s.E(p)))
  }

  method CountUp(om: ObjectMemory, p: Word)
    requires om.Valid() && (!IsInteger(p) ==> InTable(p))
    modifies om`st, om.mem
    ensures om.Valid() && om.st == CountedUp(old(om.st), p)
  {
    if !IsInteger(p) {
      var count: int := om.CountBitsOf(p);
      if count + 1 < 129 {
        om.CountBitsPut(p, count + 1);
      }
    }
  }

  lemma {:induction false} CountUpSame(s: State, p: int, q: int)
    ensures LastPointer(CountedUp(s, p), q) == LastPointer(s, q) && forall i ::
      WordOf(CountedUp(s, p), q, i) == WordOf(s, q, i)
    ensures CountedUp(s, p).E(q) == if q == p && !IsInteger(p) && 0 <= p < |s.ot| then Raised(s.E(q)) else s.E(q)
  {
    EntriesAfterPut(s, p, Raised(s.E(p)));
  }

  // A counted reference to v in a register.
  function Register(ext: multiset<int>, v: int): multiset<int> {
    if IsInteger(v) then ext else ext + multiset{v}
  }

  lemma {:induction false} CountUpKeeps(s: State, g: Layout, ext: multiset<int>, v: int)
    requires Shaped(s) && LaidOut(s, g) && Closed(s, g.alloc, NO_HOLE) && Exact(s, g.alloc, NO_HOLE, ext)
    requires IsInteger(v) || v in g.alloc
    ensures LaidOut(CountedUp(s, v), g) && Closed(CountedUp(s, v), g.alloc, NO_HOLE)
    ensures Exact(CountedUp(s, v), g.alloc, NO_HOLE, Register(ext, v))
  {
    var t := CountedUp(s, v);
    forall q
      ensures LastPointer(t, q) == LastPointer(s, q) && (forall i :: WordOf(t, q, i) == WordOf(s, q, i))
      ensures t.E(q) == if q == v && !IsInteger(v) && 0 <= v < |s.ot| then Raised(s.E(q)) else s.E(q)
    {
      CountUpSame(s, v, q);
    }
    QuietChange(s, t, g);
    forall p, i, q | p in g.alloc && PointsTo(t, p, i, q)
      ensures q in g.alloc
    {
      assert PointsTo(s, p, i, q);
    }
    AllocInTable(s, g);
    forall p | p in g.alloc
      ensures t.E(p).count == STUCK ||
        (t.E(p).count < STUCK && t.E(p).count == Refs(t, g.alloc, NO_HOLE, p) + Register(ext, v)[p])
    {
      RefsSame(s, t, g.alloc, NO_HOLE, p);
      assert s.E(p) == s.E(p);
    }
  }

  lemma {:induction false} AllocInTable(s: State, g: Layout)
    requires LaidOut(s, g)
    ensures forall p {:trigger p in g.alloc} :: p in g.alloc ==>
      Oop(p) && p in g.len && Placed(s, p, g.len[p]) && Sized(s, p, g.len[p])
    ensures |s.ot| == OBJECT_TABLE_SIZE && |s.words| == HEAP_WORDS
  {
    assert OpenLayout(0);
    forall p | p in g.alloc
      ensures Oop(p) && p in g.len && Placed(s, p, g.len[p]) && Sized(s, p, g.len[p])
    {
    }
  }

  // The hole at a place that holds `held`: one reference to it counts no longer.
  lemma {:induction false} RefsAtHole(s: State, A: set<int>, x: (int, int), p: int)
    requires x in Places(s, A)
    ensures Refs(s, A, NO_HOLE, p) == Refs(s, A, {x}, p) + (if WordOf(s, x.0, x.1) == p then 1 else 0)
  {
    assert Places(s, A) - NO_HOLE == Places(s, A);
    HoldersWithout(s, Places(s, A), x, p);
  }

  // Field `fieldIndex` of p is one that the traversals follow, and no method header.
  ghost predicate PointerField(s: State, p: int, i: int) {
    HEADER_SIZE <= i < LastPointer(s, p) && (s.E(p).pointer == 1 || i > HEADER_SIZE)
  }

  // Before the count down: the place still holds the old object, which counts no longer for it.
  lemma {:induction false} OpenHole(s: State, g: Layout, ext: multiset<int>, p: int, i: int, v: int, keep: set<int>)
    requires Shaped(s) && LaidOut(s, g) && Closed(s, g.alloc, NO_HOLE) && Exact(s, g.alloc, NO_HOLE, ext)
    requires p in g.alloc && PointerField(s, p, i) && (IsInteger(v) || v in g.alloc)
    requires Supported(s, g.alloc, Drop(ext, {(p, i)}, keep)) && p in keep
    ensures var t, d, was := CountedUp(s, v), Drop(Register(ext, v), {(p, i)}, keep), WordOf(s, p, i);
      && Supported(t, g.alloc, d) && WordOf(t, p, i) == was
      && (if IsInteger(was) then Exact(t, g.alloc, d.hole, d.ext)
        else was in g.alloc && ExactBefore(t, g.alloc, d, was))
  {
    var t, d, was := CountedUp(s, v), Drop(Register(ext, v), {(p, i)}, keep), WordOf(s, p, i);
    CountUpKeeps(s, g, ext, v);
    CountUpSame(s, v, p);
    AllocInTable(s, g);
    assert (p, i) in Places(t, g.alloc);
    if !IsInteger(was) {
      assert PointsTo(s, p, i, was);
    }
    forall q | q in g.alloc
      ensures t.E(q).count == STUCK ||
              (t.E(q).count < STUCK &&
                t.E(q).count == Refs(t, g.alloc, d.hole, q) + d.ext[q] + (if q == was then 1 else 0))
    {
      RefsAtHole(t, g.alloc, (p, i), q);
      assert t.E(q) == t.E(q);
    }
    SupportOutlasts(s, g, ext, v, d);
  }

  lemma {:induction false} SupportOutlasts(s: State, g: Layout, ext: multiset<int>, v: int, d: Drop)
    requires Shaped(s) && Supported(s, g.alloc, d.(ext := ext)) && d.ext == Register(ext, v) && (IsInteger(v) || Oop(v))
    ensures Supported(CountedUp(s, v), g.alloc, d)
  {
    var t := CountedUp(s, v);
    forall q
      ensures LastPointer(t, q) == LastPointer(s, q) && (forall i :: WordOf(t, q, i) == WordOf(s, q, i))
    {
      CountUpSame(s, v, q);
    }
    forall q | q in d.keep
      ensures t.E(q).count >= STUCK || t.E(q).count == 0 || d.ext[q] >= 1 || Refs(t, d.keep, d.hole, q) >= 1
    {
      CountUpSame(s, v, q);
      RefsSame(s, t, d.keep, d.hole, q);
    }
  }

  // The stored-into object survives, and so does the stored one.
  lemma {:induction false} StoredSurvive(s: State, g: Layout, d: Drop, t: State, g': Layout, order: seq<int>, v: int)
    requires Freed(s, g, d, t, g', order) && v in g.alloc && d.ext[v] >= 1
    ensures v in g'.alloc
  {
    assert OpenFreed(0);
    forall j | 0 <= j < |order|
      ensures order[j] != v
    {
      assert Refs(s, g.alloc - Elements(order[..j]), d.hole, order[j]) + d.ext[order[j]] == 0;
    }
  }

  // After the store the place counts for the new object.
  lemma {:induction false} CloseHole(t: State, g: Layout, ext: multiset<int>, p: int, i: int, v: Word)
    requires Shaped(t) && LaidOut(t, g) && Closed(t, g.alloc, {(p, i)}) && Exact(t, g.alloc, {(p, i)}, Register(ext, v))
    requires p in g.alloc && PointerField(t, p, i) && (IsInteger(v) || v in g.alloc)
    ensures var u := PutWord(t, Address(t.E(p)) + i, v);
      LaidOut(u, g) && Closed(u, g.alloc, NO_HOLE) && Exact(u, g.alloc, NO_HOLE, ext) && WordOf(u, p, i) == v
  {
    var u := PutWord(t, Address(t.E(p)) + i, v);
    AllocInTable(t, g);
    StoreKeepsWords(t, g, p, i, v, u);
    StoreKeepsShapes(t, g, p, i, v, u);
    StoreKeepsLayout(t, g, p, i, v, u);
    SamePlaces(t, u, g.alloc);
    forall q | q in g.alloc
      ensures u.E(q).count == STUCK || (u.E(q).count < STUCK && u.E(q).count == Refs(u, g.alloc, NO_HOLE, q) + ext[q])
    {
      FilledCount(t, g, ext, p, i, v, u, q);
    }
    forall q, k, r | q in g.alloc && PointsTo(u, q, k, r)
      ensures r in g.alloc
    {
      if (q, k) != (p, i) {
        assert PointsTo(t, q, k, r);
      }
    }
  }

  // The place counts again, for v.
  lemma {:induction false} FilledCount(t: State, g: Layout, ext: multiset<int>, p: int, i: int, v: Word, u: State,
                                       q: int)
    requires Exact(t, g.alloc, {(p, i)}, Register(ext, v)) && Places(u, g.alloc) == Places(t, g.alloc)
    requires (p, i) in Places(u, g.alloc) && WordOf(u, p, i) == v && q in g.alloc && !IsInteger(q)
    requires forall r, k {:trigger WordOf(u, r, k)} :: (r, k) in Places(u, g.alloc) && (r, k) != (p, i) ==>
      WordOf(u, r, k) == WordOf(t, r, k)
    requires u.E(q) == t.E(q)
    ensures u.E(q).count == STUCK || (u.E(q).count < STUCK && u.E(q).count == Refs(u, g.alloc, NO_HOLE, q) + ext[q])
  {
    RefsAtHole(u, g.alloc, (p, i), q);
    assert Holders(u, Places(u, g.alloc) - {(p, i)}, q) == Holders(t, Places(t, g.alloc) - {(p, i)}, q);
  }

  lemma {:induction false} SamePlaces(s: State, t: State, A: set<int>)
    requires forall q {:trigger LastPointer(t, q)} :: q in A ==> LastPointer(t, q) == LastPointer(s, q)
    ensures Places(t, A) == Places(s, A)
  {
    forall q, i
      ensures (q, i) in Places(t, A) <==> (q, i) in Places(s, A)
    {
      assert q in A ==> LastPointer(t, q) == LastPointer(s, q);
    }
  }

  lemma {:induction false} StoreKeepsWords(t: State, g: Layout, p: int, i: int, v: Word, u: State)
    requires Shaped(t) && LaidOut(t, g) && p in g.alloc && PointerField(t, p, i)
    requires u == PutWord(t, Address(t.E(p)) + i, v)
    ensures forall q, k {:trigger WordOf(u, q, k)} :: q in g.len && 0 <= k < g.len[q] ==>
      WordOf(u, q, k) == if q == p && k == i then v else WordOf(t, q, k)
    ensures forall a {:trigger IsHead(a)} :: IsHead(a) ==> At(u.words, a) == At(t.words, a)
    ensures forall q {:trigger u.E(q)} :: u.E(q) == t.E(q)
  {
    assert OpenLayout(0);
    assert Sized(t, p, g.len[p]) && Placed(t, p, g.len[p]);
    forall q, k | q in g.len && 0 <= k < g.len[q]
      ensures WordOf(u, q, k) == if q == p && k == i then v else WordOf(t, q, k)
    {
      assert Placed(t, q, g.len[q]);
      if q != p {
        ElsewhereInHeap(t, g, p, i, q, k);
      }
    }
    forall a | IsHead(a)
      ensures At(u.words, a) == At(t.words, a)
    {
      HeadOutside(t, g, p, i, a);
    }
  }

  lemma {:induction false} StoreKeepsShapes(t: State, g: Layout, p: int, i: int, v: Word, u: State)
    requires Shaped(t) && LaidOut(t, g) && p in g.alloc && PointerField(t, p, i)
    requires u == PutWord(t, Address(t.E(p)) + i, v)
    ensures forall q {:trigger LastPointer(u, q)} :: q in g.alloc ==> LastPointer(u, q) == LastPointer(t, q)
    ensures forall q {:trigger q in g.alloc} :: q in g.alloc ==> q in g.len && Sized(u, q, g.len[q])
  {
    StoreKeepsWords(t, g, p, i, v, u);
    AllocInTable(t, g);
    forall q | q in g.alloc
      ensures LastPointer(u, q) == LastPointer(t, q) && q in g.len && Sized(u, q, g.len[q])
    {
      assert Placed(t, q, g.len[q]) && Sized(t, q, g.len[q]) && u.E(q) == t.E(q);
      assert SizeOf(u, q) == WordOf(u, q, 0) && ClassOf(u, q) == WordOf(u, q, 1);
      assert SizeOf(t, q) == WordOf(t, q, 0) && ClassOf(t, q) == WordOf(t, q, 1);
    }
  }

  lemma {:induction false} StoreKeepsLayout(t: State, g: Layout, p: int, i: int, v: Word, u: State)
    requires Shaped(t) && LaidOut(t, g) && p in g.alloc && PointerField(t, p, i)
    requires u == PutWord(t, Address(t.E(p)) + i, v)
    ensures LaidOut(u, g)
  {
    StoreKeepsWords(t, g, p, i, v, u);
    StoreKeepsShapes(t, g, p, i, v, u);
    forall q | q in g.len && q !in g.alloc
      ensures SizeOf(u, q) == SizeOf(t, q) && ClassOf(u, q) == ClassOf(t, q)
    {
      ListedSize(t, g, q);
      assert q != p && WordOf(u, q, 0) == WordOf(t, q, 0) && WordOf(u, q, 1) == WordOf(t, q, 1);
    }
    ShapesKeepLayout(t, u, g);
  }

  // A laid-out heap with exact counts, kept folded.
  ghost predicate Healthy(s: State, g: Layout, ext: multiset<int>) {
    forall k {:trigger OpenHealthy(k)} :: OpenHealthy(k) ==>
      Shaped(s) && LaidOut(s, g) && Closed(s, g.alloc, NO_HOLE) && Exact(s, g.alloc, NO_HOLE, ext)
  }

  ghost predicate OpenHealthy(k: int) {
    true
  }

  // p does not depend on its field i for its life: `keep` is a set that holds p, and each of whose
  // objects is stuck, in a register, not counted yet, or held by the set other than through the field.
  ghost predicate KeptWithout(s: State, g: Layout, ext: multiset<int>, p: int, i: int, keep: set<int>) {
    forall k {:trigger OpenHealthy(k)} :: OpenHealthy(k) ==>
      p in keep && Supported(s, g.alloc, Drop(ext, {(p, i)}, keep))
  }

  // While v is stored in field i of p: v is counted already, and the field's old object no longer.
  ghost function StoringDrop(ext: multiset<int>, p: int, i: int, v: int, keep: set<int>): Drop {
    Drop(Register(ext, v), {(p, i)}, keep)
  }

  lemma {:induction false} BeforeDrop(s: State, g: Layout, ext: multiset<int>, p: int, i: int, v: int, keep: set<int>)
    requires Healthy(s, g, ext) && p in g.alloc && PointerField(s, p, i) && (IsInteger(v) || v in g.alloc)
    requires KeptWithout(s, g, ext, p, i, keep)
    ensures Oop(p) && (IsInteger(v) || Oop(v)) && InHeap(s.E(p), i)
    ensures var t, d, was := CountedUp(s, v), StoringDrop(ext, p, i, v, keep), WordOf(s, p, i);
      && InHeap(t.E(p), i) && WordOf(t, p, i) == was && DropReady(t, g, d, was)
  {
    assert OpenHealthy(0) && OpenFreed(0);
    AllocInTable(s, g);
    assert Placed(s, p, g.len[p]) && Sized(s, p, g.len[p]);
    CountUpKeeps(s, g, ext, v);
    OpenHole(s, g, ext, p, i, v, keep);
    CountUpSame(s, v, p);
  }

  // The objects of g hold the same words in t as in s.
  ghost predicate WordsSame(s: State, t: State, g: Layout) {
    forall q, k {:trigger WordOf(t, q, k)} :: q in g.alloc && 0 <= k < SizeOf(s, q) ==>
      WordOf(t, q, k) == WordOf(s, q, k) && q in g.len && SizeOf(s, q) <= g.len[q]
  }

  // The count down done, p still has its field.
  lemma {:induction false} FieldStands(s: State, g: Layout, ext: multiset<int>, t: State, g': Layout, order: seq<int>,
                                       p: int, i: int, v: Word, keep: set<int>)
    requires Healthy(s, g, ext) && KeptWithout(s, g, ext, p, i, keep) && p in g.alloc && PointerField(s, p, i) &&
      (IsInteger(v) || v in g.alloc)
    requires Freed(CountedUp(s, v), g, StoringDrop(ext, p, i, v, keep), t, g', order)
    ensures Shaped(t) && LaidOut(t, g') && Closed(t, g'.alloc, {(p, i)}) &&
      Exact(t, g'.alloc, {(p, i)}, Register(ext, v))
    ensures p in g'.alloc && PointerField(t, p, i) && (IsInteger(v) || v in g'.alloc) && InHeap(t.E(p), i)
    ensures g'.alloc == g.alloc - Elements(order) && keep <= g'.alloc
    ensures WordsSame(s, t, g')
  {
    var d := StoringDrop(ext, p, i, v, keep);
    assert Shaped(s) && LaidOut(s, g) && p in d.keep by {
      assert OpenHealthy(0);
    }
    FreedParts(CountedUp(s, v), g, d, t, g', order);
    AfterDrop(s, CountedUp(s, v), g, d, t, g', order, p, i, v);
    AllocInTable(t, g');
    assert Placed(t, p, g'.len[p]) && Sized(t, p, g'.len[p]);
  }

  lemma {:induction false} FreedParts(s: State, g: Layout, d: Drop, t: State, g': Layout, order: seq<int>)
    requires Freed(s, g, d, t, g', order)
    ensures Shaped(t) && LaidOut(t, g') && Closed(t, g'.alloc, d.hole) && Exact(t, g'.alloc, d.hole, d.ext)
    ensures d.keep <= g'.alloc && g'.alloc == g.alloc - Elements(order) && g'.len == g.len
  {
    assert OpenFreed(0);
    assert OpenLayout(0);
  }

  // u is s with v stored in field i of p.
  ghost predicate Stored(s: State, g: Layout, ext: multiset<int>, u: State, g': Layout, order: seq<int>, p: int, i: int,
                         v: int) {
    Healthy(u, g', ext) && g'.alloc == g.alloc - Elements(order) && p in g'.alloc && WordOf(u, p, i) == v &&
    forall q, k {:trigger WordOf(u, q, k)} :: q in g'.alloc && 0 <= k < SizeOf(s, q) && !(q == p && k == i) ==>
      WordOf(u, q, k) == WordOf(s, q, k)
  }

  lemma {:induction false} AfterStore(s: State, g: Layout, ext: multiset<int>, t: State, g': Layout, order: seq<int>,
                                      p: int, i: int, v: Word, u: State)
    requires Shaped(t) && LaidOut(t, g') && Closed(t, g'.alloc, {(p, i)}) &&
      Exact(t, g'.alloc, {(p, i)}, Register(ext, v))
    requires p in g'.alloc && PointerField(t, p, i) && (IsInteger(v) || v in g'.alloc)
    requires g'.alloc == g.alloc - Elements(order)
    requires WordsSame(s, t, g')
    requires u == PutWord(t, Address(t.E(p)) + i, v)
    ensures Stored(s, g, ext, u, g', order, p, i, v)
  {
    CloseHole(t, g', ext, p, i, v);
    StoreKeepsWords(t, g', p, i, v, u);
    assert Healthy(u, g', ext);
    forall q, k | q in g'.alloc && 0 <= k < SizeOf(s, q) && !(q == p && k == i)
      ensures WordOf(u, q, k) == WordOf(s, q, k)
    {
      assert WordOf(t, q, k) == WordOf(s, q, k);
    }
  }

  // No chunk has moved or changed its length, stuck counts are stuck, and the words and entries of
  // what was freed have been given back.
  ghost predicate Balanced(s: State, g: Layout, t: State, g': Layout) {
    g'.len == g.len && g'.frees == g.frees && g'.alloc <= g.alloc <= g.len.Keys &&
      t.currentSegment == s.currentSegment &&
    t.freeWords + TotalLength(g.len, g'.alloc) == s.freeWords + TotalLength(g.len, g.alloc) &&
    t.freeOops + |g'.alloc| == s.freeOops + |g.alloc| &&
    (forall p {:trigger t.E(p)} :: t.E(p) == s.E(p).(count := t.E(p).count)) &&
    (forall p {:trigger p in g'.alloc} :: p in g.alloc && s.E(p).count == STUCK ==>
      p in g'.alloc && t.E(p).count == STUCK)
  }

  // No count of A has gone up, and what was stuck is.
  ghost predicate CountsDrop(s: State, t: State, A: set<int>) {
    forall p {:trigger t.E(p)} :: p in A ==>
      t.E(p).count <= s.E(p).count && (s.E(p).count == STUCK ==> t.E(p).count == STUCK)
  }

  // No object in a register is freed.
  ghost predicate RegistersKept(g: Layout, g': Layout, ext: multiset<int>) {
    forall q {:trigger ext[q]} :: q in g.alloc && ext[q] > 0 ==> q in g'.alloc
  }

  lemma {:induction false} NotFreed(s: State, g: Layout, d: Drop, t: State, g': Layout, order: seq<int>, p: int)
    requires Freed(s, g, d, t, g', order) && p in g.alloc && (s.E(p).count == STUCK || d.ext[p] > 0)
    ensures p in g'.alloc
  {
    assert OpenFreed(0);
    forall j | 0 <= j < |order|
      ensures order[j] != p
    {
      assert 1 <= s.E(order[j]).count < STUCK && d.ext[order[j]] == 0;
    }
  }

  lemma {:induction false} FreedBalanced(s: State, g: Layout, d: Drop, t: State, g': Layout, order: seq<int>, v: int)
    requires Freed(CountedUp(s, v), g, d, t, g', order)
    ensures Balanced(s, g, t, g') && RegistersKept(g, g', d.ext)
  {
    var s1 := CountedUp(s, v);
    assert FreedUnfolded(s1, g, d, t, g', order) by {
      assert OpenFreed(0);
    }
    forall p
      ensures t.E(p) == s.E(p).(count := t.E(p).count) && (s.E(p).count == STUCK ==> s1.E(p).count == STUCK)
    {
      CountUpSame(s, v, p);
      assert t.E(p) == if p in g.alloc then s1.E(p).(count := t.E(p).count) else s1.E(p);
    }
    forall p | p in g.alloc && (s1.E(p).count == STUCK || d.ext[p] > 0)
      ensures p in g'.alloc
    {
      NotFreed(s1, g, d, t, g', order, p);
    }
  }

  lemma {:induction false} StillRegistered(g: Layout, g': Layout, ext: multiset<int>, v: int)
    requires RegistersKept(g, g', Register(ext, v))
    ensures RegistersKept(g, g', ext)
  {
    forall q | q in g.alloc && ext[q] > 0
      ensures q in g'.alloc
    {
      assert Register(ext, v)[q] > 0;
    }
  }

  lemma {:induction false} PutBalanced(s: State, g: Layout, t: State, g': Layout, a: int, v: Word)
    requires Balanced(s, g, t, g')
    ensures Balanced(s, g, PutWord(t, a, v), g')
  {
    assert forall p :: PutWord(t, a, v).E(p) == t.E(p);
  }

  // storePointer:ofObject:withValue:.  The counts stay exact provided that the object stored into
  // does not depend on the field for its life.
  method StorePointer(om: ObjectMemory, fieldIndex: int, p: Word, v: Word, ghost g: Layout, ghost ext: multiset<int>,
                      ghost keep: set<int>)
    returns (ghost g': Layout, ghost order: seq<int>)
    requires om.Valid() && Healthy(om.st, g, ext)
    requires p in g.alloc && 0 <= fieldIndex && PointerField(om.st, p, HEADER_SIZE + fieldIndex)
    requires IsInteger(v) || v in g.alloc
    requires KeptWithout(om.st, g, ext, p, HEADER_SIZE + fieldIndex, keep)
    modifies om`st, om`freeWords, om`freeOops, om.mem
    ensures om.Valid() && Stored(old(om.st), g, ext, om.st, g', order, p, HEADER_SIZE + fieldIndex, v) &&
      keep <= g'.alloc
    ensures Balanced(old(om.st), g, om.st, g') && RegistersKept(g, g', ext)
    ensures CountsDrop(CountedUp(old(om.st), v), om.st, g'.alloc)
  {
    ghost var s := om.st;
    var chunkIndex := HEADER_SIZE + fieldIndex;
    BeforeDrop(s, g, ext, p, chunkIndex, v, keep);
    CountUp(om, v);
    var was := om.HeapChunkWord(p, chunkIndex);
    g', order := CountDown(om, was, g, StoringDrop(ext, p, chunkIndex, v, keep));
    ghost var t := om.st;
    FieldStands(s, g, ext, t, g', order, p, chunkIndex, v, keep);
    om.HeapChunkWordPut(p, chunkIndex, v);
    StoreEnds(s, g, ext, t, g', order, p, chunkIndex, v, keep, om.st);
    DropsAfterStore(CountedUp(s, v), g, StoringDrop(ext, p, chunkIndex, v, keep), t, g', order, om.st);
  }

  lemma {:induction false} DropsAfterStore(s1: State, g: Layout, d: Drop, t: State, g': Layout, order: seq<int>,
                                           u: State)
    requires Freed(s1, g, d, t, g', order) && u.ot == t.ot
    ensures CountsDrop(s1, u, g'.alloc)
  {
    assert OpenFreed(0);
    forall p | p in g'.alloc
      ensures u.E(p).count <= s1.E(p).count && (s1.E(p).count == STUCK ==> u.E(p).count == STUCK)
    {
      assert u.E(p) == t.E(p);
    }
  }

  lemma {:induction false} StoreEnds(s: State, g: Layout, ext: multiset<int>, t: State, g': Layout, order: seq<int>,
                                     p: int, i: int, v: Word, keep: set<int>, u: State)
    requires Healthy(s, g, ext) && KeptWithout(s, g, ext, p, i, keep) && p in g.alloc && PointerField(s, p, i) &&
      (IsInteger(v) || v in g.alloc)
    requires Freed(CountedUp(s, v), g, StoringDrop(ext, p, i, v, keep), t, g', order)
    requires u == PutWord(t, Address(t.E(p)) + i, v)
    ensures Stored(s, g, ext, u, g', order, p, i, v) && keep <= g'.alloc
    ensures Balanced(s, g, u, g') && RegistersKept(g, g', ext)
  {
    FieldStands(s, g, ext, t, g', order, p, i, v, keep);
    AfterStore(s, g, ext, t, g', order, p, i, v, u);
    FreedBalanced(s, g, StoringDrop(ext, p, i, v, keep), t, g', order, v);
    PutBalanced(s, g, t, g', Address(t.E(p)) + i, v);
    StillRegistered(g, g', ext, v);
  }

  lemma {:induction false} DropKeepsWords(s: State, s1: State, g: Layout, d: Drop, t: State, g': Layout,
                                          order: seq<int>, v: int)
    requires s1 == CountedUp(s, v) && Freed(s1, g, d, t, g', order)
    ensures forall q, k {:trigger WordOf(t, q, k)} :: q in g'.alloc && 0 <= k < SizeOf(s, q) ==>
      WordOf(t, q, k) == WordOf(s, q, k)
  {
    forall q, k | q in g'.alloc && 0 <= k < SizeOf(s, q)
      ensures WordOf(t, q, k) == WordOf(s, q, k)
    {
      CountUpSame(s, v, q);
      assert SizeOf(s1, q) == WordOf(s1, q, 0) && SizeOf(s, q) == WordOf(s, q, 0);
      assert WordOf(t, q, k) == WordOf(s1, q, k) by {
        assert OpenFreed(0);
      }
    }
  }

  lemma {:induction false} AfterDrop(s: State, s1: State, g: Layout, d: Drop, t: State, g': Layout, order: seq<int>,
                                     p: int, i: int, v: int)
    requires Shaped(s) && LaidOut(s, g) && s1 == CountedUp(s, v) && Freed(s1, g, d, t, g', order)
    requires p in d.keep && p in g.alloc && PointerField(s, p, i) && (IsInteger(v) || (v in g.alloc && d.ext[v] >= 1))
    ensures p in g'.alloc && PointerField(t, p, i) && (IsInteger(v) || v in g'.alloc)
    ensures forall q, k {:trigger WordOf(t, q, k)} :: q in g'.alloc && 0 <= k < SizeOf(s, q) ==>
      WordOf(t, q, k) == WordOf(s, q, k)
    ensures forall q {:trigger SizeOf(s, q)} :: q in g'.alloc ==> q in g.len && SizeOf(s, q) <= g.len[q]
  {
    assert OpenFreed(0);
    if !IsInteger(v) {
      StoredSurvive(s1, g, d, t, g', order, v);
    }
    AllocInTable(s, g);
    DropKeepsWords(s, s1, g, d, t, g', order, v);
    CountUpSame(s, v, p);
    assert t.E(p) == s1.E(p).(count := t.E(p).count);
    StillField(s, g, t, p, i);
  }

  lemma {:induction false} StillField(s: State, g: Layout, t: State, p: int, i: int)
    requires LaidOut(s, g) && p in g.alloc && PointerField(s, p, i) && t.E(p).(count := 0) == s.E(p).(count := 0)
    requires forall k {:trigger WordOf(t, p, k)} :: 0 <= k < SizeOf(s, p) ==> WordOf(t, p, k) == WordOf(s, p, k)
    ensures PointerField(t, p, i)
  {
    assert Sized(s, p, g.len[p]) by {
      assert OpenLayout(0);
    }
    QuietShape(s, t, p, g.len[p]);
  }

  // What exactly a count down frees: the objects that belong to no supported set.

  lemma {:induction false} OrderAvoids(s: State, A: set<int>, d: Drop, order: seq<int>, keep: set<int>, j: nat)
    requires FreedInOrder(s, A, d, order) && Supported(s, A, d.(keep := keep)) && j <= |order|
    ensures forall i :: 0 <= i < j ==> order[i] !in keep
  {
    if j > 0 {
      OrderAvoids(s, A, d, order, keep, j - 1);
      var p := order[j - 1];
      assert Refs(s, A - Elements(order[..j - 1]), d.hole, p) + d.ext[p] == 0;
      RefsMonotone(s, keep, A - Elements(order[..j - 1]), d.hole, p);
    }
  }

  lemma {:induction false} SurvivorsSupported(s: State, g: Layout, d: Drop, t: State, g': Layout, order: seq<int>)
    requires Shaped(s) && LaidOut(s, g) && Freed(s, g, d, t, g', order) && Supported(s, g.alloc, d)
    ensures Supported(s, g.alloc, d.(keep := g'.alloc))
  {
    assert OpenFreed(0);
    AllocInTable(s, g);
    forall q | q in g'.alloc
      ensures LastPointer(t, q) == LastPointer(s, q)
      ensures forall i :: 1 <= i < LastPointer(s, q) ==> WordOf(t, q, i) == WordOf(s, q, i)
    {
      assert Sized(s, q, g.len[q]) && t.E(q) == s.E(q).(count := t.E(q).count);
      QuietShape(s, t, q, g.len[q]);
    }
    forall q | q in g'.alloc
      ensures s.E(q).count >= STUCK || s.E(q).count == 0 || d.ext[q] >= 1 || Refs(s, g'.alloc, d.hole, q) >= 1
    {
      RefsSame(s, t, g'.alloc, d.hole, q);
      assert t.E(q) == t.E(q);
    }
  }

  lemma {:induction false} FreedExactly(s: State, g: Layout, d: Drop, t: State, g': Layout, order: seq<int>, p: int)
    requires Shaped(s) && LaidOut(s, g) && Freed(s, g, d, t, g', order) && Supported(s, g.alloc, d) && p in g.alloc
    ensures p !in g'.alloc <==> forall keep :: Supported(s, g.alloc, d.(keep := keep)) ==> p !in keep
  {
    assert g'.alloc == g.alloc - Elements(order) && FreedInOrder(s, g.alloc, d, order) by {
      assert OpenFreed(0);
    }
    SurvivorsSupported(s, g, d, t, g', order);
    forall keep | Supported(s, g.alloc, d.(keep := keep))
      ensures forall i :: 0 <= i < |order| ==> order[i] !in keep
    {
      OrderAvoids(s, g.alloc, d, order, keep, |order|);
    }
  }
}
