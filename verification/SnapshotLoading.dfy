// The loading of an image: the table, the objects, and the free chunks they leave.
module SnapshotLoading {
  import opened Words
  import opened Memory
  import opened Traversal
  import opened Layouts
  import opened RefCounts
  import opened Freeing
  import opened StorePointers
  import opened Abandoning
  import opened Accounts
  import opened Rectify
  import opened TableLoading
  import opened ObjectLoading
  import opened Packing
  import opened ChunkAdding

  ghost function NoChunks(): map<int, seq<int>> {
    map a | 0 <= a < HEAP_WORDS && IsHead(a) :: []
  }

  ghost function PackedLayout(m: Contents, frees: seq<int>): Layout {
    Layout(m.Keys, Spaces(m), NoChunks(), frees)
  }

  // The objects of the contents are in memory, from entry to words.
  ghost predicate InMemory(m: Contents, t: State, p: int) {
    t.E(p) == EntryC(m, p).(segment := t.E(p).segment, location := t.E(p).location) && WordsLoaded(m, t, p)
  }

  ghost predicate AllIn(m: Contents, t: State) {
    forall p {:trigger InMemory(m, t, p)} :: p in m ==> InMemory(m, t, p)
  }

  // All objects have been packed, and the lists reset.
  ghost predicate Reset(m: Contents, s: State, t: State, dest: int, used: seq<int>, u: State, frees: seq<int>) {
    Shaped(s) && Sane(m) && Tabled(s, m) && Frees(s, frees) && PackedTo(m, s, t, OBJECT_TABLE_SIZE, dest, used) &&
    ResetTo(t, u, HEAP_SEGMENT_COUNT, HEADER_SIZE)
  }

  lemma {:induction false} AllPacked(m: Contents)
    requires Sane(m)
    ensures ObjectsTo(m, OBJECT_TABLE_SIZE) == m.Keys
  {
  }

  lemma {:induction false} ResetObject(m: Contents, s: State, t: State, dest: int, used: seq<int>, u: State,
                                       frees: seq<int>, p: int)
    requires Reset(m, s, t, dest, used, u, frees) && p in m
    ensures InMemory(m, u, p) && Placed(u, p, SpaceC(m, p)) && Sized(u, p, SpaceC(m, p)) && u.E(p) == t.E(p)
    ensures |used| == HEAP_SEGMENT_COUNT && u.E(p).location + SpaceC(m, p) <= used[u.E(p).segment]
  {
    AllPacked(m);
    SpaceNotSmall(m, p);
    assert p in ObjectsTo(m, OBJECT_TABLE_SIZE);
    assert OpenPacked(0);
    assert u.E(p) == t.E(p);
    forall i | 0 <= i < SizeC(m, p)
      ensures WordOf(u, p, i) == WordC(m, p, i)
    {
      assert WordOf(t, p, i) == WordC(m, p, i);
      NoHeadThere(t.E(p), i);
      assert WordOf(u, p, i) == At(u.words, Address(t.E(p)) + i);
    }
    LoadedSized(m, u, p);
  }

  lemma {:induction false} NoHeadThere(e: Entry, i: int)
    requires 0 <= i && e.location + i < ROOM
    ensures !IsHead(Address(e) + i)
  {
    assert (Address(e) + i) % 65536 == e.location + i;
  }

  lemma {:induction false} LoadedSized(m: Contents, u: State, p: int)
    requires Sane(m) && p in m && InMemory(m, u, p)
    ensures Sized(u, p, SpaceC(m, p))
  {
    assert WordOf(u, p, 0) == WordC(m, p, 0) && WordOf(u, p, 1) == WordC(m, p, 1);
    if HEADER_SIZE < SizeC(m, p) {
      assert WordOf(u, p, HEADER_SIZE) == WordC(m, p, HEADER_SIZE);
    }
  }

  lemma {:induction false} ResetChunks(m: Contents, s: State, t: State, dest: int, used: seq<int>, u: State,
                                       frees: seq<int>)
    requires Reset(m, s, t, dest, used, u, frees)
    ensures Chunks(u, PackedLayout(m, frees))
  {
    var h := PackedLayout(m, frees);
    forall p | p in h.len
      ensures Placed(u, p, h.len[p])
    {
      ResetObject(m, s, t, dest, used, u, frees, p);
    }
    forall p, q | p in h.len && q in h.len && p != q
      ensures Separate(u, p, h.len[p], q, h.len[q])
    {
      assert Separate(t, p, SpaceC(m, p), q, SpaceC(m, q)) by {
        AllPacked(m);
        assert OpenPacked(0);
      }
      ResetObject(m, s, t, dest, used, u, frees, p);
      ResetObject(m, s, t, dest, used, u, frees, q);
    }
  }

  lemma {:induction false} ResetLists(m: Contents, t: State, u: State, frees: seq<int>)
    requires Shaped(u) && ResetTo(t, u, HEAP_SEGMENT_COUNT, HEADER_SIZE)
    ensures Lists(u, PackedLayout(m, frees)) && AllListed(PackedLayout(m, frees), {})
  {
    forall a | a in NoChunks()
      ensures Linked(u, a, [])
    {
      assert IsHead(a);
    }
  }

  lemma {:induction false} ResetEntries(m: Contents, s: State, t: State, dest: int, used: seq<int>, u: State,
                                        frees: seq<int>)
    requires Reset(m, s, t, dest, used, u, frees)
    ensures Shaped(u) && u.freeHead == s.freeHead && forall p {:trigger u.E(p)} :: p !in m ==> u.E(p) == s.E(p)
  {
    AllPacked(m);
    assert OpenPacked(0);
    assert forall p :: u.E(p) == t.E(p);
  }

  lemma {:induction false} ResetFrees(m: Contents, s: State, t: State, dest: int, used: seq<int>, u: State,
                                      frees: seq<int>)
    requires Reset(m, s, t, dest, used, u, frees)
    ensures Frees(u, frees) && forall p {:trigger u.E(p)} :: Oop(p) ==> (u.E(p).free == 0 <==> p in m)
  {
    ResetEntries(m, s, t, dest, used, u, frees);
    forall p | Oop(p)
      ensures (u.E(p).free == 0 <==> p in m) && (p !in m ==> u.E(p) == s.E(p)) &&
        (u.E(p).free == 1 <==> s.E(p).free == 1)
    {
      assert s.E(p).free == 0 <==> p in m;
      if p in m {
        ResetObject(m, s, t, dest, used, u, frees, p);
      }
    }
    forall i | 0 <= i < |frees|
      ensures FreeLink(u, frees, i) && u.E(frees[i]).free == 1
    {
      assert FreeLink(s, frees, i);
    }
  }

  lemma {:induction false} ResetLaidOut(m: Contents, s: State, t: State, dest: int, used: seq<int>, u: State,
                                        frees: seq<int>)
    requires Reset(m, s, t, dest, used, u, frees)
    ensures LaidOut(u, PackedLayout(m, frees)) && AllIn(m, u)
  {
    ResetEntries(m, s, t, dest, used, u, frees);
    ResetChunks(m, s, t, dest, used, u, frees);
    ResetLists(m, t, u, frees);
    ResetFrees(m, s, t, dest, used, u, frees);
    forall p | p in m
      ensures InMemory(m, u, p) && Sized(u, p, SpaceC(m, p))
    {
      ResetObject(m, s, t, dest, used, u, frees, p);
    }
  }

  // The free chunks

  // There is room for a chunk after the objects of segment k.
  predicate HasTail(used: seq<int>, k: int) {
    0 <= k < |used| && used[k] + HEADER_SIZE <= ROOM
  }

  // The segments below k that have.
  function Tails(used: seq<int>, k: int): nat
    decreases used, k
  {
    if k <= 0 then 0 else Tails(used, k - 1) + (if HasTail(used, k - 1) then 1 else 0)
  }

  ghost predicate TailChunk(t: State, h: Layout, used: seq<int>, j: int) {
    exists p :: p in h.len && t.E(p).segment == j && 0 <= j < |used| && t.E(p).location == used[j] &&
      h.len[p] == ROOM - used[j]
  }

  // No entry but the objects' is in the segment, though there is room.
  ghost predicate NoTail(m: Contents, t: State, used: seq<int>, j: int) {
    HasTail(used, j) && forall p {:trigger t.E(p)} :: Oop(p) && t.E(p).free == 0 && t.E(p).segment == j ==> p in m
  }

  ghost predicate SomeNoTail(m: Contents, t: State, used: seq<int>, k: int) {
    exists j :: j < k && NoTail(m, t, used, j)
  }

  lemma {:induction false} NoTailStays(m: Contents, t: State, used: seq<int>, k: int, v: State, n: int)
    requires SomeNoTail(m, t, used, k) && (forall p {:trigger v.E(p)} :: v.E(p) == t.E(p)) && k <= n
    ensures SomeNoTail(m, v, used, n)
  {
    var j :| j < k && NoTail(m, t, used, j);
    NoTailMoved(m, t, used, j, v);
  }

  lemma {:induction false} NoTailMoved(m: Contents, t: State, used: seq<int>, j: int, v: State)
    requires NoTail(m, t, used, j) && (forall p {:trigger v.E(p)} :: v.E(p) == t.E(p))
    ensures NoTail(m, v, used, j)
  {
  }

  // u: the memory when the objects had been packed and the lists reset.
  ghost predicate Ready(m: Contents, u: State, used: seq<int>, frees: seq<int>) {
    forall k {:trigger OpenReady(k)} :: OpenReady(k) ==> ReadyUnfolded(m, u, used, frees)
  }

  ghost predicate OpenReady(k: int) {
    true
  }

  ghost predicate ReadyUnfolded(m: Contents, u: State, used: seq<int>, frees: seq<int>) {
    Sane(m) && NIL_POINTER as int in m && LaidOut(u, PackedLayout(m, frees)) && AllIn(m, u) &&
      |used| == HEAP_SEGMENT_COUNT &&
    (forall k {:trigger used[k]} :: 0 <= k < HEAP_SEGMENT_COUNT ==> 0 <= used[k] <= ROOM) &&
    (forall p {:trigger u.E(p)} :: p in m ==>
      u.E(p).segment < HEAP_SEGMENT_COUNT && u.E(p).location + SpaceC(m, p) <= used[u.E(p).segment]) &&
    (forall k, w {:trigger Covered(m, u, OBJECT_TABLE_SIZE, k, w)} ::
       0 <= k < HEAP_SEGMENT_COUNT && 0 <= w < used[k] ==> Covered(m, u, OBJECT_TABLE_SIZE, k, w)) &&
    Sum(used) == TotalLength(Spaces(m), m.Keys)
  }

  lemma {:induction false} ResetReady(m: Contents, s: State, t: State, dest: int, used: seq<int>, u: State,
                                      frees: seq<int>)
    requires Reset(m, s, t, dest, used, u, frees) && NIL_POINTER as int in m
    ensures Ready(m, u, used, frees)
  {
    ResetLaidOut(m, s, t, dest, used, u, frees);
    PackedBounds(m, s, t, OBJECT_TABLE_SIZE, dest, used);
    AllPacked(m);
    forall p | p in m
      ensures u.E(p).segment < HEAP_SEGMENT_COUNT && u.E(p).location + SpaceC(m, p) <= used[u.E(p).segment]
    {
      ResetObject(m, s, t, dest, used, u, frees, p);
    }
    forall k, w | 0 <= k < HEAP_SEGMENT_COUNT && 0 <= w < used[k]
      ensures Covered(m, u, OBJECT_TABLE_SIZE, k, w)
    {
      ResetCovered(m, s, t, dest, used, u, frees, k, w);
    }
    assert OpenPacked(0);
  }

  lemma {:induction false} ResetCovered(m: Contents, s: State, t: State, dest: int, used: seq<int>, u: State,
                                        frees: seq<int>, k: int, w: int)
    requires Reset(m, s, t, dest, used, u, frees) && |used| == HEAP_SEGMENT_COUNT && 0 <= k < HEAP_SEGMENT_COUNT &&
      0 <= w < used[k]
    ensures Covered(m, u, OBJECT_TABLE_SIZE, k, w)
  {
    assert Covered(m, t, OBJECT_TABLE_SIZE, k, w) by {
      assert OpenPacked(0);
    }
    var p :| p in ObjectsTo(m, OBJECT_TABLE_SIZE) && t.E(p).segment == k &&
      t.E(p).location <= w < t.E(p).location + SpaceC(m, p);
    ResetObject(m, s, t, dest, used, u, frees, p);
  }

  // What the segments below k have left has been made free chunks,
  ghost predicate AddedTo(m: Contents, u: State, used: seq<int>, frees: seq<int>, t: State, h: Layout, k: int) {
    LaidOut(t, h) && h.alloc == m.Keys && |h.frees| + Tails(used, k) == |frees| &&
    (forall p {:trigger InMemory(m, t, p)} :: p in m ==>
      p in h.len && h.len[p] == SpaceC(m, p) && t.E(p) == u.E(p) && InMemory(m, t, p)) &&
    (forall p {:trigger p in h.len} :: p in h.len && p !in m ==> t.E(p).segment < k) &&
    (forall j {:trigger HasTail(used, j)} :: j < k && HasTail(used, j) ==> TailChunk(t, h, used, j))
  }

  ghost predicate SizesKept(m: Contents, u: State, t: State) {
    forall p {:trigger t.E(p)} :: p in m ==> t.E(p) == u.E(p) && SizeOf(t, p) == SizeOf(u, p)
  }

  // or there were too few entries.
  ghost predicate ShortBy(m: Contents, u: State, used: seq<int>, frees: seq<int>, t: State, k: int) {
    Shaped(t) && Frees(t, []) && Tails(used, k) > |frees| && SomeNoTail(m, t, used, k) && SizesKept(m, u, t)
  }

  ghost predicate Adding(m: Contents, u: State, used: seq<int>, frees: seq<int>, t: State, h: Layout, k: int) {
    (Tails(used, k) <= |frees| ==> AddedTo(m, u, used, frees, t, h, k)) &&
      (Tails(used, k) > |frees| ==> ShortBy(m, u, used, frees, t, k))
  }

  lemma {:induction false} AddingBegins(m: Contents, u: State, used: seq<int>, frees: seq<int>)
    requires Ready(m, u, used, frees)
    ensures Adding(m, u, used, frees, u, PackedLayout(m, frees), 0)
  {
    assert OpenReady(0);
    forall p | p in m
      ensures InMemory(m, u, p)
    {
    }
  }

  lemma {:induction false} AddNone(m: Contents, u: State, used: seq<int>, frees: seq<int>, t: State, h: Layout, k: int)
    requires Adding(m, u, used, frees, t, h, k) && 0 <= k && !HasTail(used, k)
    ensures Adding(m, u, used, frees, t, h, k + 1)
  {
    var next := k + 1;
    assert Tails(used, next) == Tails(used, k);
    if Tails(used, k) > |frees| {
      NoTailStays(m, t, used, k, t, next);
    } else {
      assert AddedTo(m, u, used, frees, t, h, k);
    }
  }

  // There is an entry for the chunk,
  lemma {:induction false} RoomIsBare(m: Contents, u: State, used: seq<int>, frees: seq<int>, t: State, h: Layout,
                                      k: int)
    requires Ready(m, u, used, frees) && AddedTo(m, u, used, frees, t, h, k) && HasTail(used, k)
    ensures Bare(t, h, k, used[k]) && NIL_POINTER !in h.frees && Frees(t, h.frees) && InHeap(t.E(NIL_POINTER), 1)
  {
    assert OpenReady(0);
    forall q | q in h.len
      ensures t.E(q).segment != k || t.E(q).location + h.len[q] <= used[k]
    {
      if q in m {
        assert InMemory(m, t, q);
        assert u.E(q).location + SpaceC(m, q) <= used[u.E(q).segment];
      }
    }
    NilStays(m, u, used, frees, t, h, k, NIL_POINTER);
  }

  lemma {:induction false} NilStays(m: Contents, u: State, used: seq<int>, frees: seq<int>, t: State, h: Layout,
                                    k: int, nil: int)
    requires Ready(m, u, used, frees) && AddedTo(m, u, used, frees, t, h, k) && nil == NIL_POINTER
    ensures nil !in h.frees && Frees(t, h.frees) && InHeap(t.E(nil), 1)
  {
    assert nil in m by {
      assert OpenReady(0);
    }
    assert InMemory(m, t, nil) && nil in h.len;
    EntryOnce(t, h, nil);
    assert OpenLayout(0);
    assert Placed(t, nil, h.len[nil]);
  }

  // v and h' are what adding the entry's chunk leaves.
  ghost predicate OneAdded(t: State, h: Layout, k: int, size: int, location: int, v: State, h': Layout) {
    h.frees != [] && LaidOut(v, h') && h.frees[0] !in h.len && 0 <= size && h'.len == h.len[h.frees[0] := size] &&
      h'.alloc == h.alloc && h'.frees == h.frees[1..] &&
    (forall q {:trigger v.E(q)} :: q != h.frees[0] ==> v.E(q) == t.E(q)) && v.E(h.frees[0]).segment == k &&
      v.E(h.frees[0]).location == location &&
    forall q, i {:trigger WordOf(v, q, i)} :: q in h.len && 0 <= i < h.len[q] ==> WordOf(v, q, i) == WordOf(t, q, i)
  }

  lemma {:induction false} StillIn(m: Contents, t: State, h: Layout, k: int, size: int, location: int, v: State,
                                   h': Layout, p: int)
    requires OneAdded(t, h, k, size, location, v, h') && p in h.len && SizeC(m, p) <= h.len[p] && InMemory(m, t, p)
    ensures v.E(p) == t.E(p) && InMemory(m, v, p)
  {
    forall i | 0 <= i < SizeC(m, p)
      ensures WordOf(v, p, i) == WordC(m, p, i)
    {
      assert WordOf(t, p, i) == WordC(m, p, i);
    }
  }

  lemma {:induction false} StillTail(t: State, h: Layout, used: seq<int>, k: int, size: int, location: int, v: State,
                                     h': Layout, j: int)
    requires OneAdded(t, h, k, size, location, v, h') && TailChunk(t, h, used, j)
    ensures TailChunk(v, h', used, j)
  {
    var p :| p in h.len && t.E(p).segment == j && 0 <= j < |used| && t.E(p).location == used[j] &&
      h.len[p] == ROOM - used[j];
    assert p in h'.len && v.E(p) == t.E(p);
  }

  lemma {:induction false} AddOne(m: Contents, u: State, used: seq<int>, frees: seq<int>, t: State, h: Layout, k: int,
                                  v: State, h': Layout)
    requires AddedTo(m, u, used, frees, t, h, k) && HasTail(used, k) &&
      OneAdded(t, h, k, ROOM - used[k], used[k], v, h')
    ensures AddedTo(m, u, used, frees, v, h', k + 1)
  {
    forall p | p in m
      ensures p in h'.len && h'.len[p] == SpaceC(m, p) && v.E(p) == u.E(p) && InMemory(m, v, p)
    {
      assert InMemory(m, t, p);
      SpaceNotSmall(m, p);
      StillIn(m, t, h, k, ROOM - used[k], used[k], v, h', p);
    }
    forall p | p in h'.len && p !in m
      ensures v.E(p).segment < k + 1
    {
    }
    forall j | j < k + 1 && HasTail(used, j)
      ensures TailChunk(v, h', used, j)
    {
      if j < k {
        StillTail(t, h, used, k, ROOM - used[k], used[k], v, h', j);
      } else {
        assert h.frees[0] in h'.len;
      }
    }
  }

  // or there is none, and nil is made a free chunk: its entry and its size stay.
  lemma {:induction false} SizesStay(m: Contents, u: State, used: seq<int>, frees: seq<int>, t: State, k: int,
                                     size: int, v: State)
    requires Ready(m, u, used, frees) && Shaped(t) && SizesKept(m, u, t)
    requires v == NilListed(t, t.E(NIL_POINTER).segment, size) && HEADER_SIZE <= size
    ensures Shaped(v) && SizesKept(m, u, v) && forall p {:trigger v.E(p)} :: v.E(p) == t.E(p)
  {
    forall p
      ensures v.E(p) == t.E(p) && (p in m ==> v.E(p) == u.E(p) && SizeOf(v, p) == SizeOf(u, p))
    {
      if p in m {
        SizeStays(m, u, used, frees, t, k, size, v, p);
      }
    }
  }

  lemma {:induction false} SizeStays(m: Contents, u: State, used: seq<int>, frees: seq<int>, t: State, k: int,
                                     size: int, v: State, p: int)
    requires Ready(m, u, used, frees) && Shaped(t) && p in m && SizesKept(m, u, t)
    requires v == NilListed(t, t.E(NIL_POINTER).segment, size) && HEADER_SIZE <= size
    ensures v.E(p) == u.E(p) && SizeOf(v, p) == SizeOf(u, p)
  {
    assert OpenReady(0);
    var g, nil := PackedLayout(m, frees), NIL_POINTER;
    assert Chunks(u, g) by {
      assert OpenLayout(0);
    }
    assert Placed(u, p, g.len[p]) && Placed(u, nil, g.len[nil]);
    assert t.E(nil) == u.E(nil) && t.E(p) == u.E(p);
    HeadForIsHead(size, t.E(nil).segment);
    HeadOutside(u, g, p, 0, HeadFor(size, t.E(nil).segment));
    if p != nil {
      ElsewhereInHeap(u, g, p, 0, nil, 1);
    }
    assert SizeOf(v, p) == At(v.words, Address(u.E(p)) + 0);
  }

  lemma {:induction false} AddNil(m: Contents, u: State, used: seq<int>, frees: seq<int>, t: State, h: Layout, k: int,
                                  size: int, v: State)
    requires Ready(m, u, used, frees) && Adding(m, u, used, frees, t, h, k) && HasTail(used, k) &&
      Tails(used, k) >= |frees|
    requires v == NilListed(t, t.E(NIL_POINTER).segment, size) && HEADER_SIZE <= size
    ensures ShortBy(m, u, used, frees, v, k + 1)
  {
    if Tails(used, k) > |frees| {
      assert ShortBy(m, u, used, frees, t, k);
      NilAgain(m, u, used, frees, t, k, size, v);
    } else {
      LastGone(m, u, used, frees, t, h, k);
      SizesStay(m, u, used, frees, t, k, size, v);
      SameFrees(t, v, []);
      NoTailMoved(m, t, used, k, v);
      assert SomeNoTail(m, v, used, k + 1);
    }
  }

  lemma {:induction false} NilAgain(m: Contents, u: State, used: seq<int>, frees: seq<int>, t: State, k: int, size: int,
                                    v: State)
    requires Ready(m, u, used, frees) && ShortBy(m, u, used, frees, t, k) && HasTail(used, k)
    requires v == NilListed(t, t.E(NIL_POINTER).segment, size) && HEADER_SIZE <= size
    ensures ShortBy(m, u, used, frees, v, k + 1)
  {
    SizesStay(m, u, used, frees, t, k, size, v);
    SameFrees(t, v, []);
    NoTailStays(m, t, used, k, v, k + 1);
  }

  lemma {:induction false} LastGone(m: Contents, u: State, used: seq<int>, frees: seq<int>, t: State, h: Layout, k: int)
    requires Ready(m, u, used, frees) && AddedTo(m, u, used, frees, t, h, k) && HasTail(used, k) &&
      Tails(used, k) == |frees|
    ensures Shaped(t) && Frees(t, []) && SizesKept(m, u, t)
    ensures NoTail(m, t, used, k)
  {
    assert h.frees == [];
    assert OpenLayout(0);
    forall p | p in m
      ensures t.E(p) == u.E(p) && SizeOf(t, p) == SizeOf(u, p)
    {
      assert OpenReady(0);
      assert InMemory(m, t, p) && InMemory(m, u, p);
      assert WordOf(t, p, 0) == WordC(m, p, 0) && WordOf(u, p, 0) == WordC(m, p, 0);
    }
    forall p | Oop(p) && t.E(p).free == 0 && t.E(p).segment == k
      ensures p in m
    {
      assert p in h.len;
    }
  }

  lemma {:induction false} ShortStays(m: Contents, u: State, used: seq<int>, frees: seq<int>, t: State, k: int,
                                      v: State)
    requires ShortBy(m, u, used, frees, t, k) && v == t.(currentSegment := v.currentSegment, freeWords := v.freeWords)
    ensures ShortBy(m, u, used, frees, v, k)
  {
    assert forall p :: v.E(p) == t.E(p) && SizeOf(v, p) == SizeOf(t, p);
    SameFrees(t, v, []);
    NoTailStays(m, t, used, k, v, k);
  }

  lemma {:induction false} Resegmented(m: Contents, u: State, used: seq<int>, frees: seq<int>, t: State, h: Layout,
                                       k: int, v: State)
    requires Adding(m, u, used, frees, t, h, k) && v == t.(currentSegment := v.currentSegment, freeWords := v.freeWords)
    ensures Adding(m, u, used, frees, v, h, k)
  {
    assert forall p :: v.E(p) == t.E(p);
    if Tails(used, k) <= |frees| {
      Relaid(t, v, h);
      forall p | p in m
        ensures p in h.len && h.len[p] == SpaceC(m, p) && v.E(p) == u.E(p) && InMemory(m, v, p)
      {
        assert InMemory(m, t, p);
        forall i | 0 <= i < SizeC(m, p)
          ensures WordOf(v, p, i) == WordC(m, p, i)
        {
          assert WordOf(t, p, i) == WordC(m, p, i);
        }
      }
      forall j | j < k && HasTail(used, j)
        ensures TailChunk(v, h, used, j)
      {
        assert TailChunk(t, h, used, j);
      }
    } else {
      assert ShortBy(m, u, used, frees, t, k);
      ShortStays(m, u, used, frees, t, k, v);
    }
  }

  // The layout does not depend on the registers.
  lemma {:induction false} Relaid(t: State, v: State, h: Layout)
    requires LaidOut(t, h) && v.words == t.words && v.ot == t.ot && v.freeHead == t.freeHead
    ensures LaidOut(v, h)
  {
    assert forall p :: v.E(p) == t.E(p);
    assert Shaped(v) by {
      assert OpenLayout(0);
    }
    assert forall p, i :: WordOf(v, p, i) == WordOf(t, p, i);
    QuietChange(t, v, h);
  }

  lemma {:induction false} TailFrees(m: Contents, u: State, used: seq<int>, frees: seq<int>, t: State, h: Layout,
                                     k: int)
    returns (left: seq<int>)
    requires Ready(m, u, used, frees) && Adding(m, u, used, frees, t, h, k) && HasTail(used, k)
    ensures Frees(t, left) && NIL_POINTER !in left && InHeap(t.E(NIL_POINTER), 1) &&
      (left == [] <==> Tails(used, k) >= |frees|)
    ensures left != [] ==> AddedTo(m, u, used, frees, t, h, k) && left == h.frees && Bare(t, h, k, used[k])
  {
    if Tails(used, k) <= |frees| {
      left := h.frees;
      RoomIsBare(m, u, used, frees, t, h, k);
    } else {
      left := [];
      assert OpenReady(0) && OpenLayout(0);
      assert t.E(NIL_POINTER) == u.E(NIL_POINTER);
      assert Placed(u, NIL_POINTER, PackedLayout(m, frees).len[NIL_POINTER]);
    }
  }

  method SelectSegment(om: ObjectMemory, segment: int)
    requires om.Valid()
    modifies om`st, om`currentSegment
    ensures om.Valid() && om.st == old(om.st).(currentSegment := segment) && om.currentSegment == segment
  {
    om.currentSegment := segment;
    om.st := om.st.(currentSegment := segment);
  }

  // One segment.
  method AddTail(om: ObjectMemory, segment: Nibble, freeChunkSize: Word, ghost m: Contents, ghost u: State,
                 ghost used: seq<int>, ghost frees: seq<int>, ghost h: Layout)
    returns (ghost h': Layout)
    requires om.Valid() && Ready(m, u, used, frees) && Adding(m, u, used, frees, om.st, h, segment) &&
      HasTail(used, segment) && segment < HEAP_SEGMENT_COUNT
    requires freeChunkSize == ROOM - used[segment] && 0 <= used[segment]
    modifies om`st, om`currentSegment, om.mem
    ensures om.Valid() && Adding(m, u, used, frees, om.st, h', segment + 1) && om.freeWords == old(om.freeWords)
    ensures om.freeOops == old(om.freeOops)
  {
    var freeChunkLocation := ROOM - freeChunkSize;
    ghost var s := om.st;
    SelectSegment(om, segment);
    Resegmented(m, u, used, frees, s, h, segment, om.st);
    ghost var t := om.st;
    ghost var left := TailFrees(m, u, used, frees, t, h, segment);
    h' := AddChunk(om, freeChunkSize, freeChunkLocation, left, h);
    if left == [] {
      AddNil(m, u, used, frees, t, h, segment, freeChunkSize, om.st);
    } else {
      ClearedIs(segment, freeChunkLocation);
      AddOne(m, u, used, frees, t, h, segment, om.st, h');
    }
  }

  lemma {:induction false} SumOne(used: seq<int>, k: int)
    requires 0 <= k < |used|
    ensures Sum(used[..k + 1]) == Sum(used[..k]) + used[k]
  {
    assert used[..k + 1][..k] == used[..k];
  }

  method CountRoom(om: ObjectMemory, n: int)
    requires om.Valid()
    modifies om`st, om`freeWords
    ensures om.Valid() && om.st == old(om.st).(freeWords := n) && om.freeWords == n
  {
    om.freeWords := n;
    om.st := om.st.(freeWords := n);
  }

  method FreeTail(om: ObjectMemory, segment: Nibble, freeChunkSize: int, ghost m: Contents, ghost u: State,
                  ghost used: seq<int>, ghost frees: seq<int>, ghost h: Layout)
    returns (ghost h': Layout)
    requires om.Valid() && Ready(m, u, used, frees) && Adding(m, u, used, frees, om.st, h, segment) &&
      segment < HEAP_SEGMENT_COUNT == |used|
    requires freeChunkSize == ROOM - used[segment] && 0 <= used[segment] <= ROOM
    modifies om`st, om`currentSegment, om`freeWords, om.mem
    ensures om.Valid() && Adding(m, u, used, frees, om.st, h', segment + 1) &&
      om.freeWords == old(om.freeWords) + freeChunkSize
    ensures om.freeOops == old(om.freeOops)
  {
    ghost var t := om.st;
    CountRoom(om, om.freeWords + freeChunkSize);
    Resegmented(m, u, used, frees, t, h, segment, om.st);
    if freeChunkSize >= HEADER_SIZE {
      h' := AddTail(om, segment, freeChunkSize, m, u, used, frees, h);
    } else {
      h' := h;
      AddNone(m, u, used, frees, om.st, h, segment);
    }
  }

  // All segments, from the first; the words left are counted.
  method AddTails(om: ObjectMemory, heapSpaceRemaining: array<int>, ghost m: Contents, ghost u: State,
                  ghost used: seq<int>, ghost frees: seq<int>)
    returns (ghost h: Layout)
    requires om.Valid() && om.st == u && Ready(m, u, used, frees)
    requires heapSpaceRemaining.Length == HEAP_SEGMENT_COUNT && RoomLeftOf(heapSpaceRemaining[..], used)
    modifies om`st, om`currentSegment, om`freeWords, om.mem
    ensures om.Valid() && Adding(m, u, used, frees, om.st, h, HEAP_SEGMENT_COUNT) && om.currentSegment == 0
    ensures om.freeWords == HEAP_ROOM - Sum(used) && om.freeOops == old(om.freeOops)
  {
    AddingBegins(m, u, used, frees);
    ReadyBounds(m, u, used, frees);
    h := PackedLayout(m, frees);
    CountRoom(om, 0);
    Resegmented(m, u, used, frees, u, h, 0, om.st);
    var segment := 0;
    while segment < HEAP_SEGMENT_COUNT
      invariant om.Valid() && 0 <= segment <= HEAP_SEGMENT_COUNT && Adding(m, u, used, frees, om.st, h, segment)
      invariant om.freeWords == segment * ROOM - Sum(used[..segment]) && om.freeOops == old(om.freeOops)
    {
      var freeChunkSize := heapSpaceRemaining[segment];
      assert freeChunkSize == heapSpaceRemaining[..][segment] == ROOM - used[segment];
      SumOne(used, segment);
      h := FreeTail(om, segment, freeChunkSize, m, u, used, frees, h);
      segment := segment + 1;
    }
    assert used[..segment] == used;
    ghost var t := om.st;
    SelectSegment(om, 0);
    Resegmented(m, u, used, frees, t, h, segment, om.st);
  }

  lemma {:induction false} ReadyBounds(m: Contents, u: State, used: seq<int>, frees: seq<int>)
    requires Ready(m, u, used, frees)
    ensures |used| == HEAP_SEGMENT_COUNT && forall k {:trigger used[k]} :: 0 <= k < HEAP_SEGMENT_COUNT ==>
      0 <= used[k] <= ROOM
  {
    assert OpenReady(0);
  }

  // What has been loaded

  // There are entries for the free chunks.
  ghost predicate Enough(m: Contents) {
    Tails(Filled(m, OBJECT_TABLE_SIZE).used, HEAP_SEGMENT_COUNT) <= OOP_COUNT - |m.Keys|
  }

  // The objects are as in the contents, at their places; the rest is free, and accounted for.
  ghost predicate Loaded(m: Contents, t: State, h: Layout) {
    LaidOut(t, h) && Tiled(t, h) && Accounted(t, h) && h.alloc == m.Keys && AllIn(m, t) && t.currentSegment == 0
  }

  lemma {:induction false} EnoughEntries(m: Contents, u: State, used: seq<int>, frees: seq<int>)
    requires Ready(m, u, used, frees)
    ensures |frees| == OOP_COUNT - |m.Keys|
  {
    assert OpenReady(0);
    EntriesCounted(u, PackedLayout(m, frees));
    assert PackedLayout(m, frees).len.Keys == m.Keys;
  }

  lemma {:induction false} LoadedTiled(m: Contents, u: State, used: seq<int>, frees: seq<int>, t: State, h: Layout)
    requires Ready(m, u, used, frees) && AddedTo(m, u, used, frees, t, h, HEAP_SEGMENT_COUNT)
    ensures Tiled(t, h)
  {
    ReadyBounds(m, u, used, frees);
    forall k, w | 0 <= k < HEAP_SEGMENT_COUNT && 0 <= w < HEAP_SPACE_STOP
      ensures InChunk(t, h, k, w)
    {
      if w < used[k] {
        assert Covered(m, u, OBJECT_TABLE_SIZE, k, w) by {
          assert OpenReady(0);
        }
        var p :| p in ObjectsTo(m, OBJECT_TABLE_SIZE) && u.E(p).segment == k &&
          u.E(p).location <= w < u.E(p).location + SpaceC(m, p);
        assert InMemory(m, t, p);
      } else {
        assert HasTail(used, k) && TailChunk(t, h, used, k);
      }
    }
  }

  lemma {:induction false} LoadedAccounted(m: Contents, u: State, used: seq<int>, frees: seq<int>, t: State, h: Layout)
    requires Ready(m, u, used, frees) && AddedTo(m, u, used, frees, t, h, HEAP_SEGMENT_COUNT)
    requires t.freeWords == HEAP_ROOM - Sum(used) && t.freeOops == OOP_COUNT - |m.Keys|
    ensures Accounted(t, h)
  {
    assert OpenReady(0);
    AllocOops(t, h);
    forall p | p in m.Keys
      ensures h.len[p] == Spaces(m)[p]
    {
      assert InMemory(m, t, p);
    }
    TotalSame(Spaces(m), h.len, m.Keys);
  }

  lemma {:induction false} ImageLoaded(m: Contents, u: State, used: seq<int>, frees: seq<int>, t: State, h: Layout)
    requires Ready(m, u, used, frees) && AddedTo(m, u, used, frees, t, h, HEAP_SEGMENT_COUNT) && t.currentSegment == 0
    requires t.freeWords == HEAP_ROOM - Sum(used) && t.freeOops == OOP_COUNT - |m.Keys|
    ensures Loaded(m, t, h)
  {
    LoadedTiled(m, u, used, frees, t, h);
    LoadedAccounted(m, u, used, frees, t, h);
  }

  // The places of the objects of the contents, and those that hold p.
  ghost function PlacesC(m: Contents): set<(int, int)> {
    set q, i | q in m && 1 <= i < LastPointerC(m, q) :: (q, i)
  }

  ghost function HoldersC(m: Contents, p: int): set<(int, int)> {
    set x | x in PlacesC(m) && WordC(m, x.0, x.1) == p
  }

  // The contents are closed, their classes are objects, and their counts are exact.
  ghost predicate WellCounted(m: Contents) {
    (forall q, i {:trigger WordC(m, q, i)} :: q in m && 1 <= i < LastPointerC(m, q) ==>
      IsInteger(WordC(m, q, i)) || WordC(m, q, i) in m) &&
    (forall q {:trigger q in m} :: q in m ==> WordC(m, q, 1) != NON_POINTER) &&
    (forall p {:trigger EntryC(m, p)} :: p in m ==> (EntryC(m, p).count == STUCK ||
       (EntryC(m, p).count < STUCK && EntryC(m, p).count == |HoldersC(m, p)|))) &&
    EntryC(m, NIL_POINTER).count == STUCK
  }

  lemma {:induction false} LoadedWords(m: Contents, t: State, p: int)
    requires Sane(m) && p in m && InMemory(m, t, p)
    ensures LastPointer(t, p) == LastPointerC(m, p) && t.E(p).count == EntryC(m, p).count &&
      ClassOf(t, p) == WordC(m, p, 1)
    ensures forall i {:trigger WordOf(t, p, i)} :: 0 <= i < LastPointerC(m, p) ==> WordOf(t, p, i) == WordC(m, p, i)
  {
    assert WordOf(t, p, 0) == WordC(m, p, 0) && WordOf(t, p, 1) == WordC(m, p, 1);
    if HEADER_SIZE < SizeC(m, p) {
      assert WordOf(t, p, HEADER_SIZE) == WordC(m, p, HEADER_SIZE);
    }
  }

  lemma {:induction false} LoadedRefs(m: Contents, t: State, p: int)
    requires Sane(m) && AllIn(m, t)
    ensures Refs(t, m.Keys, NO_HOLE, p) == |HoldersC(m, p)|
  {
    forall q | q in m
      ensures LastPointer(t, q) == LastPointerC(m, q)
      ensures forall i {:trigger WordOf(t, q, i)} :: 0 <= i < LastPointerC(m, q) ==> WordOf(t, q, i) == WordC(m, q, i)
    {
      assert InMemory(m, t, q);
      LoadedWords(m, t, q);
    }
    assert Places(t, m.Keys) - NO_HOLE == PlacesC(m);
    forall x | x in PlacesC(m)
      ensures WordOf(t, x.0, x.1) == WordC(m, x.0, x.1)
    {
    }
    assert Holders(t, Places(t, m.Keys) - NO_HOLE, p) == HoldersC(m, p);
  }

  lemma {:induction false} LoadedClosed(m: Contents, t: State)
    requires Sane(m) && AllIn(m, t) && WellCounted(m)
    ensures Closed(t, m.Keys, NO_HOLE)
  {
    forall p, i, q | p in m && PointsTo(t, p, i, q)
      ensures q in m
    {
      assert InMemory(m, t, p);
      LoadedWords(m, t, p);
      assert WordOf(t, p, i) == WordC(m, p, i);
    }
  }

  lemma {:induction false} LoadedExact(m: Contents, t: State)
    requires Sane(m) && AllIn(m, t) && WellCounted(m)
    ensures Exact(t, m.Keys, NO_HOLE, multiset{})
  {
    forall p | p in m
      ensures t.E(p).count == STUCK ||
        (t.E(p).count < STUCK && t.E(p).count == Refs(t, m.Keys, NO_HOLE, p) + multiset{}[p])
    {
      assert InMemory(m, t, p);
      LoadedWords(m, t, p);
      LoadedRefs(m, t, p);
    }
  }

  // A loaded image is sound exactly if its counts were right.
  lemma {:induction false} LoadedSound(m: Contents, t: State, h: Layout)
    requires Sane(m) && NIL_POINTER as int in m && Loaded(m, t, h)
    ensures Sound(t, h, multiset{}) <==> WellCounted(m)
  {
    if WellCounted(m) {
      CountedSound(m, t, h);
    }
    if Sound(t, h, multiset{}) {
      SoundCounted(m, t, h);
    }
  }

  lemma {:induction false} SoundCounted(m: Contents, t: State, h: Layout)
    requires Sane(m) && NIL_POINTER as int in m && Loaded(m, t, h) && Sound(t, h, multiset{})
    ensures WellCounted(m)
  {
    assert OpenSound(0) && OpenHealthy(0);
    forall p | p in m
      ensures LastPointer(t, p) == LastPointerC(m, p) && t.E(p).count == EntryC(m, p).count &&
        ClassOf(t, p) == WordC(m, p, 1)
      ensures forall i {:trigger WordOf(t, p, i)} :: 0 <= i < LastPointerC(m, p) ==> WordOf(t, p, i) == WordC(m, p, i)
      ensures Refs(t, m.Keys, NO_HOLE, p) == |HoldersC(m, p)|
    {
      assert InMemory(m, t, p);
      LoadedWords(m, t, p);
      LoadedRefs(m, t, p);
    }
    forall q, i | q in m && 1 <= i < LastPointerC(m, q)
      ensures IsInteger(WordC(m, q, i)) || WordC(m, q, i) in m
    {
      assert WordOf(t, q, i) == WordC(m, q, i);
      assert !IsInteger(WordC(m, q, i)) ==> PointsTo(t, q, i, WordC(m, q, i));
    }
  }

  lemma {:induction false} CountedSound(m: Contents, t: State, h: Layout)
    requires Sane(m) && NIL_POINTER as int in m && Loaded(m, t, h) && WellCounted(m)
    ensures Sound(t, h, multiset{})
  {
    LoadedClosed(m, t);
    LoadedExact(m, t);
    forall p | p in m
      ensures ClassOf(t, p) != NON_POINTER && t.E(p).count == EntryC(m, p).count
    {
      assert InMemory(m, t, p);
      LoadedWords(m, t, p);
    }
    assert Shaped(t) by {
      assert OpenLayout(0);
    }
    assert Healthy(t, h, multiset{});
  }

  // Without the entries, there is room that no layout gives a chunk.
  lemma {:induction false} NeverTiled(m: Contents, u: State, used: seq<int>, frees: seq<int>, t: State, k: int,
                                      h: Layout)
    requires Ready(m, u, used, frees) && ShortBy(m, u, used, frees, t, k) && LaidOut(t, h) && h.alloc == m.Keys
    ensures !Tiled(t, h)
  {
    var j :| j < k && NoTail(m, t, used, j);
    NeverInChunk(m, u, used, frees, t, k, h, j);
  }

  lemma {:induction false} NeverInChunk(m: Contents, u: State, used: seq<int>, frees: seq<int>, t: State, k: int,
                                        h: Layout, j: int)
    requires Ready(m, u, used, frees) && ShortBy(m, u, used, frees, t, k) && LaidOut(t, h) && h.alloc == m.Keys &&
      NoTail(m, t, used, j)
    ensures !Tiled(t, h)
  {
    ReadyBounds(m, u, used, frees);
    forall p | p in h.len && t.E(p).segment == j
      ensures t.E(p).location + h.len[p] <= used[j]
    {
      TailEmpty(m, u, used, frees, t, k, h, j, p);
    }
    assert !InChunk(t, h, j, used[j]);
  }

  lemma {:induction false} TailEmpty(m: Contents, u: State, used: seq<int>, frees: seq<int>, t: State, k: int,
                                     h: Layout, j: int, p: int)
    requires Ready(m, u, used, frees) && ShortBy(m, u, used, frees, t, k) && LaidOut(t, h) && h.alloc == m.Keys
    requires NoTail(m, t, used, j) && p in h.len && t.E(p).segment == j
    ensures t.E(p).location + h.len[p] <= used[j]
  {
    assert Placed(t, p, h.len[p]) by {
      assert OpenLayout(0);
    }
    assert p in m;
    assert Sized(t, p, h.len[p]) by {
      assert OpenLayout(0);
    }
    assert OpenReady(0);
    assert t.E(p) == u.E(p);
    assert InMemory(m, u, p);
    assert WordOf(u, p, 0) == WordC(m, p, 0);
  }

  // The objects, the lists and the free chunks.  With too few entries the chunks are not made, and no
  // layout tiles what is left.
  method LoadObjects(om: ObjectMemory, f: File, ghost m: Contents, ghost frees: seq<int>)
    returns (ok: bool, ghost h: Layout)
    requires om.Valid() && Backed(f, m) && Tabled(om.st, m) && Frees(om.st, frees) && NIL_POINTER as int in m
    requires om.freeOops + |m.Keys| == OOP_COUNT
    modifies om`st, om`currentSegment, om`freeWords, om.mem
    ensures om.Valid() && ok == Filled(m, OBJECT_TABLE_SIZE).ok == CanPack(m)
    ensures ok && Enough(m) ==> Loaded(m, om.st, h)
    ensures ok && !Enough(m) ==> forall h' :: LaidOut(om.st, h') && h'.alloc == m.Keys ==> !Tiled(om.st, h')
  {
    ghost var s := om.st;
    LoadsIfItCan(m);
    var heapSpaceRemaining := new int[HEAP_SEGMENT_COUNT](_ => ROOM);
    ghost var dest, used;
    ok, dest, used := PackObjects(om, f, heapSpaceRemaining, m, s);
    if !ok {
      h := PackedLayout(m, frees);
      return;
    }
    ghost var t := om.st;
    ResetFreeChunkLists(om);
    ghost var u := om.st;
    ResetReady(m, s, t, dest, used, u, frees);
    h := AddTails(om, heapSpaceRemaining, m, u, used, frees);
    EnoughEntries(m, u, used, frees);
    if Tails(used, HEAP_SEGMENT_COUNT) <= |frees| {
      ImageLoaded(m, u, used, frees, om.st, h);
    } else {
      forall h' | LaidOut(om.st, h') && h'.alloc == m.Keys
        ensures !Tiled(om.st, h')
      {
        NeverTiled(m, u, used, frees, om.st, HEAP_SEGMENT_COUNT, h');
      }
    }
  }

  method LoadSnapshot(om: ObjectMemory, f: File) returns (ok: bool, ghost h: Layout)
    requires om.Valid() && WellFormed(f)
    modifies om`st, om`currentSegment, om`freeWords, om`freeOops, om.mem
    ensures om.Valid() && ok == Filled(ContentsOf(f), OBJECT_TABLE_SIZE).ok == CanPack(ContentsOf(f))
    ensures ok && Enough(ContentsOf(f)) ==> Loaded(ContentsOf(f), om.st, h)
    ensures ok && !Enough(ContentsOf(f)) ==>
      forall h' :: LaidOut(om.st, h') && h'.alloc == ObjectsIn(f) ==> !Tiled(om.st, h')
  {
    ghost var frees := LoadObjectTable(om, f);
    ghost var m := ContentsOf(f);
    FileBacked(f);
    assert EntriesBut(f, om.st, 2) by {
      assert OpenFrees(0);
    }
    FileTabled(f, om.st);
    assert NIL_POINTER as int in ObjectsIn(f);
    ok, h := LoadObjects(om, f, m, frees);
  }
}
