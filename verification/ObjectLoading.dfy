// The loading of the objects of an image: packed one after the other into the segments, what remains
// of each segment made a free chunk.
module ObjectLoading {
  import opened Words
  import opened Memory
  import opened Traversal
  import opened Layouts
  import opened Freeing
  import opened Abandoning
  import opened TableLoading

  const ROOM := HEAP_SPACE_STOP + 1

  // What an image holds of an object: its entry and its words.
  datatype Content = Content(entry: Entry, words: seq<Word>)

  type Contents = map<int, Content>

  ghost function EntryC(m: Contents, p: int): Entry {
    if p in m then m[p].entry else NoEntry()
  }

  function SizeC(m: Contents, p: int): nat {
    if p in m then |m[p].words| else 0
  }

  ghost function SpaceC(m: Contents, p: int): nat {
    if SizeC(m, p) < HUGE_SIZE || EntryC(m, p).pointer == 0 then SizeC(m, p) else SizeC(m, p) + 1
  }

  function WordC(m: Contents, p: int, i: int): Word {
    if p in m && 0 <= i < |m[p].words| then m[p].words[i] else 0
  }

  predicate AllOops(m: Contents) {
    forall p {:trigger p in m} :: p in m ==> Oop(p)
  }

  ghost function ObjectsTo(m: Contents, from: int): set<int> {
    set p | p in m && p < from
  }

  ghost function Spaces(m: Contents): map<int, nat> {
    map p | p in m :: SpaceC(m, p)
  }

  function Sum(used: seq<int>): int {
    if used == [] then 0 else Sum(used[..|used| - 1]) + used[|used| - 1]
  }

  lemma {:induction false} SumAfter(used: seq<int>, k: int, n: int)
    requires 0 <= k < |used|
    ensures Sum(used[k := n]) == Sum(used) - used[k] + n
  {
    var last := |used| - 1;
    if k == last {
      assert used[k := n][..last] == used[..last];
    } else {
      SumAfter(used[..last], k, n);
      assert used[k := n][..last] == used[..last][k := n];
    }
  }

  // An object loaded so far covers word w of the segment.
  ghost predicate Covered(m: Contents, t: State, from: int, segment: int, w: int) {
    exists p :: p in ObjectsTo(m, from) && t.E(p).segment == segment &&
      t.E(p).location <= w < t.E(p).location + SpaceC(m, p)
  }

  ghost predicate WordsLoaded(m: Contents, t: State, p: int) {
    forall i {:trigger WordOf(t, p, i)} :: 0 <= i < SizeC(m, p) ==> WordOf(t, p, i) == WordC(m, p, i)
  }

  // The objects before entry `from` have been packed into the segments up to `dest`, of each of which
  // so many words are used; s is the memory when the table had been loaded.
  ghost predicate PackedTo(m: Contents, s: State, t: State, from: int, dest: int, used: seq<int>) {
    forall k {:trigger OpenPacked(k)} :: OpenPacked(k) ==> PackedUnfolded(m, s, t, from, dest, used)
  }

  ghost predicate OpenPacked(k: int) {
    true
  }

  ghost predicate PackedUnfolded(m: Contents, s: State, t: State, from: int, dest: int, used: seq<int>) {
    SameSizes(s, t) && t.freeHead == s.freeHead && |used| == HEAP_SEGMENT_COUNT && 0 <= dest < HEAP_SEGMENT_COUNT &&
    (forall p {:trigger t.E(p)} :: t.E(p) ==
       if p in ObjectsTo(m, from) then EntryC(m, p).(segment := t.E(p).segment, location := t.E(p).location)
         else s.E(p)) &&
    (forall p {:trigger p in ObjectsTo(m, from)} :: p in ObjectsTo(m, from) ==>
       t.E(p).segment <= dest && t.E(p).location + SpaceC(m, p) <= used[t.E(p).segment] && WordsLoaded(m, t, p)) &&
    (forall p, q {:trigger Separate(t, p, SpaceC(m, p), q, SpaceC(m, q))} ::
       p in ObjectsTo(m, from) && q in ObjectsTo(m, from) && p != q ==>
         Separate(t, p, SpaceC(m, p), q, SpaceC(m, q))) &&
    (forall k {:trigger used[k]} :: 0 <= k < HEAP_SEGMENT_COUNT ==>
      0 <= used[k] <= ROOM && (k > dest ==> used[k] == 0)) &&
    (forall k, w {:trigger Covered(m, t, from, k, w)} :: 0 <= k < HEAP_SEGMENT_COUNT && 0 <= w < used[k] ==>
      Covered(m, t, from, k, w)) &&
    Sum(used) == TotalLength(Spaces(m), ObjectsTo(m, from))
  }

  function Zeros(n: nat): seq<int> {
    seq(n, _ => 0)
  }

  lemma {:induction false} SumOfZeros(n: nat)
    ensures Sum(Zeros(n)) == 0
  {
    if n > 0 {
      SumOfZeros(n - 1);
      assert Zeros(n)[..n - 1] == Zeros(n - 1);
    }
  }

  lemma {:induction false} PackingBegins(m: Contents, s: State)
    requires Shaped(s) && AllOops(m)
    ensures PackedTo(m, s, s, 2, 0, Zeros(HEAP_SEGMENT_COUNT))
  {
    assert ObjectsTo(m, 2) == {};
    SumOfZeros(HEAP_SEGMENT_COUNT);
  }

  // Entry p has been placed at word w of a segment, and its words written there.
  ghost predicate PlacedAtWord(m: Contents, t: State, p: int, segment: int, w: int, u: State) {
    SameSizes(t, u) && u.freeHead == t.freeHead &&
    (forall q {:trigger u.E(q)} ::
      u.E(q) == if q == p then EntryC(m, p).(segment := u.E(p).segment, location := u.E(p).location) else t.E(q)) &&
    u.E(p).segment == segment && u.E(p).location == w &&
    forall a {:trigger At(u.words, a)} :: At(u.words, a) ==
      if 0 <= a - (segment * 65536 + w) < SizeC(m, p) then WordC(m, p, a - (segment * 65536 + w)) else At(t.words, a)
  }

  // The segment that has room for n words more.
  ghost predicate HasRoom(dest: int, used: seq<int>, n: int, dest': int) {
    |used| == HEAP_SEGMENT_COUNT && 0 <= dest' < HEAP_SEGMENT_COUNT && (dest' == dest || dest' == dest + 1) &&
      0 <= used[dest'] && used[dest'] + n <= ROOM
  }

  lemma {:induction false} OneMoreObject(m: Contents, p: int)
    requires p in m && AllOops(m)
    ensures ObjectsTo(m, p + 2) == ObjectsTo(m, p) + {p} && p !in ObjectsTo(m, p)
    ensures ObjectsTo(m, p + 2) <= m.Keys
    ensures TotalLength(Spaces(m), ObjectsTo(m, p + 2)) == TotalLength(Spaces(m), ObjectsTo(m, p)) + SpaceC(m, p)
  {
    assert ObjectsTo(m, p + 2) == ObjectsTo(m, p) + {p};
    TotalWithout(Spaces(m), ObjectsTo(m, p + 2), p);
    assert ObjectsTo(m, p + 2) - {p} == ObjectsTo(m, p);
  }

  lemma {:induction false} SpaceNotSmall(m: Contents, p: int)
    ensures SizeC(m, p) <= SpaceC(m, p) <= SizeC(m, p) + 1
  {
  }

  // What was loaded before stays,
  lemma {:induction false} LoadedStays(m: Contents, s: State, t: State, p: int, dest: int, used: seq<int>, dest': int,
                                       u: State, q: int)
    requires PackedTo(m, s, t, p, dest, used) && HasRoom(dest, used, SpaceC(m, p), dest') &&
      PlacedAtWord(m, t, p, dest', used[dest'], u)
    requires q in ObjectsTo(m, p) && q != p
    ensures u.E(q) == t.E(q) && WordsLoaded(m, u, q) && t.E(q).segment < HEAP_SEGMENT_COUNT &&
      t.E(q).location + SpaceC(m, q) <= used[t.E(q).segment] <= ROOM
  {
    assert OpenPacked(0);
    SpaceNotSmall(m, p);
    SpaceNotSmall(m, q);
    forall i | 0 <= i < SizeC(m, q)
      ensures WordOf(u, q, i) == WordC(m, q, i)
    {
      assert WordOf(t, q, i) == WordC(m, q, i);
      assert WordOf(u, q, i) == At(u.words, Address(u.E(q)) + i);
    }
  }

  // the new object does not touch it,
  lemma {:induction false} LoadedApart(m: Contents, s: State, t: State, p: int, dest: int, used: seq<int>, dest': int,
                                       u: State, q: int)
    requires PackedTo(m, s, t, p, dest, used) && HasRoom(dest, used, SpaceC(m, p), dest') &&
      PlacedAtWord(m, t, p, dest', used[dest'], u)
    requires q in ObjectsTo(m, p) && q != p
    ensures Separate(u, p, SpaceC(m, p), q, SpaceC(m, q)) && Separate(u, q, SpaceC(m, q), p, SpaceC(m, p))
  {
    LoadedStays(m, s, t, p, dest, used, dest', u, q);
  }

  // and its words are loaded.
  lemma {:induction false} NewLoaded(m: Contents, t: State, p: int, segment: int, w: int, u: State)
    requires PlacedAtWord(m, t, p, segment, w, u)
    ensures WordsLoaded(m, u, p)
  {
    forall i | 0 <= i < SizeC(m, p)
      ensures WordOf(u, p, i) == WordC(m, p, i)
    {
      assert WordOf(u, p, i) == At(u.words, segment * 65536 + w + i);
    }
  }

  lemma {:induction false} StillCovered(m: Contents, s: State, t: State, p: int, dest: int, used: seq<int>, dest': int,
                                        u: State, used': seq<int>, k: int, w: int)
    requires PackedTo(m, s, t, p, dest, used) && HasRoom(dest, used, SpaceC(m, p), dest') &&
      PlacedAtWord(m, t, p, dest', used[dest'], u)
    requires p in m && AllOops(m) && used' == used[dest' := used[dest'] + SpaceC(m, p)] &&
      0 <= k < HEAP_SEGMENT_COUNT && 0 <= w < used'[k]
    ensures Covered(m, u, p + 2, k, w)
  {
    OneMoreObject(m, p);
    if k == dest' && w >= used[k] {
      assert p in ObjectsTo(m, p + 2);
    } else {
      assert Covered(m, t, p, k, w) by {
        assert OpenPacked(0);
      }
      var q :| q in ObjectsTo(m, p) && t.E(q).segment == k && t.E(q).location <= w < t.E(q).location + SpaceC(m, q);
      assert q in ObjectsTo(m, p + 2) && u.E(q) == t.E(q);
    }
  }

  lemma {:induction false} PackOneEntries(m: Contents, s: State, t: State, p: int, dest: int, used: seq<int>,
                                          dest': int, u: State, used': seq<int>)
    requires PackedTo(m, s, t, p, dest, used) && p in m && AllOops(m) && HasRoom(dest, used, SpaceC(m, p), dest')
    requires PlacedAtWord(m, t, p, dest', used[dest'], u) && used' == used[dest' := used[dest'] + SpaceC(m, p)]
    ensures SameSizes(s, u) && u.freeHead == s.freeHead && |used'| == HEAP_SEGMENT_COUNT &&
      dest <= dest' < HEAP_SEGMENT_COUNT
    ensures forall q {:trigger u.E(q)} ::
      u.E(q) == if q in ObjectsTo(m, p + 2) then EntryC(m, q).(segment := u.E(q).segment, location := u.E(q).location)
        else s.E(q)
    ensures forall k {:trigger used'[k]} :: 0 <= k < HEAP_SEGMENT_COUNT ==>
      used[k] <= used'[k] && 0 <= used'[k] <= ROOM && (k > dest' ==> used'[k] == 0)
    ensures forall q {:trigger t.E(q)} :: q in ObjectsTo(m, p) ==> t.E(q).segment <= dest
    ensures Sum(used) == TotalLength(Spaces(m), ObjectsTo(m, p))
  {
    assert OpenPacked(0);
    OneMoreObject(m, p);
    forall q
      ensures u.E(q) == if q in ObjectsTo(m, p + 2) then
        EntryC(m, q).(segment := u.E(q).segment, location := u.E(q).location) else s.E(q)
    {
      assert t.E(q) == t.E(q);
    }
  }

  lemma {:induction false} AllCovered(m: Contents, s: State, t: State, p: int, dest: int, used: seq<int>, dest': int,
                                      u: State, used': seq<int>)
    requires PackedTo(m, s, t, p, dest, used) && p in m && AllOops(m) && HasRoom(dest, used, SpaceC(m, p), dest')
    requires PlacedAtWord(m, t, p, dest', used[dest'], u) && used' == used[dest' := used[dest'] + SpaceC(m, p)]
    ensures forall k, w {:trigger Covered(m, u, p + 2, k, w)} :: 0 <= k < HEAP_SEGMENT_COUNT && 0 <= w < used'[k] ==>
      Covered(m, u, p + 2, k, w)
  {
    var next := p + 2;
    forall k, w | 0 <= k < HEAP_SEGMENT_COUNT && 0 <= w < used'[k]
      ensures Covered(m, u, next, k, w)
    {
      StillCovered(m, s, t, p, dest, used, dest', u, used', k, w);
    }
  }

  lemma {:induction false} AllLoaded(m: Contents, s: State, t: State, p: int, dest: int, used: seq<int>, dest': int,
                                     u: State, used': seq<int>)
    requires PackedTo(m, s, t, p, dest, used) && p in m && AllOops(m) && HasRoom(dest, used, SpaceC(m, p), dest')
    requires PlacedAtWord(m, t, p, dest', used[dest'], u) && used' == used[dest' := used[dest'] + SpaceC(m, p)]
    ensures forall q {:trigger q in ObjectsTo(m, p + 2)} :: q in ObjectsTo(m, p + 2) ==>
       u.E(q).segment <= dest' && u.E(q).location + SpaceC(m, q) <= used'[u.E(q).segment] && WordsLoaded(m, u, q)
  {
    OneMoreObject(m, p);
    NewLoaded(m, t, p, dest', used[dest'], u);
    PackOneEntries(m, s, t, p, dest, used, dest', u, used');
    forall q | q in ObjectsTo(m, p)
      ensures u.E(q).segment <= dest' && u.E(q).location + SpaceC(m, q) <= used'[u.E(q).segment] && WordsLoaded(m, u, q)
    {
      LoadedStays(m, s, t, p, dest, used, dest', u, q);
    }
  }

  lemma {:induction false} PackOne(m: Contents, s: State, t: State, p: int, dest: int, used: seq<int>, dest': int,
                                   u: State, used': seq<int>)
    requires PackedTo(m, s, t, p, dest, used) && p in m && AllOops(m) && HasRoom(dest, used, SpaceC(m, p), dest')
    requires PlacedAtWord(m, t, p, dest', used[dest'], u) && used' == used[dest' := used[dest'] + SpaceC(m, p)]
    ensures PackedTo(m, s, u, p + 2, dest', used')
  {
    var next := p + 2;
    OneMoreObject(m, p);
    SumAfter(used, dest', used[dest'] + SpaceC(m, p));
    AllLoaded(m, s, t, p, dest, used, dest', u, used');
    AllCovered(m, s, t, p, dest, used, dest', u, used');
    forall q, r | q in ObjectsTo(m, next) && r in ObjectsTo(m, next) && q != r
      ensures Separate(u, q, SpaceC(m, q), r, SpaceC(m, r))
    {
      PairApart(m, s, t, p, dest, used, dest', u, q, r);
    }
    PackOneEntries(m, s, t, p, dest, used, dest', u, used');
  }

  lemma {:induction false} PairApart(m: Contents, s: State, t: State, p: int, dest: int, used: seq<int>, dest': int,
                                     u: State, q: int, r: int)
    requires PackedTo(m, s, t, p, dest, used) && p in m && AllOops(m) && HasRoom(dest, used, SpaceC(m, p), dest') &&
      PlacedAtWord(m, t, p, dest', used[dest'], u)
    requires q in ObjectsTo(m, p + 2) && r in ObjectsTo(m, p + 2) && q != r
    ensures Separate(u, q, SpaceC(m, q), r, SpaceC(m, r))
  {
    OneMoreObject(m, p);
    if q == p {
      LoadedApart(m, s, t, p, dest, used, dest', u, r);
    } else if r == p {
      LoadedApart(m, s, t, p, dest, used, dest', u, q);
    } else {
      assert Separate(t, q, SpaceC(m, q), r, SpaceC(m, r)) by {
        assert OpenPacked(0);
      }
    }
  }

  lemma {:induction false} PackNone(m: Contents, s: State, t: State, p: int, dest: int, used: seq<int>)
    requires PackedTo(m, s, t, p, dest, used) && p !in m && AllOops(m) && Oop(p)
    ensures PackedTo(m, s, t, p + 2, dest, used)
  {
    var next := p + 2;
    assert ObjectsTo(m, next) == ObjectsTo(m, p);
    assert OpenPacked(0);
    forall k, w | 0 <= k < HEAP_SEGMENT_COUNT && 0 <= w < used[k]
      ensures Covered(m, t, next, k, w)
    {
      assert Covered(m, t, p, k, w);
    }
  }

  // The objects of a file

  ghost function LastPointerC(m: Contents, p: int): int {
    if EntryC(m, p).pointer == 1 then SizeC(m, p)
    else if WordC(m, p, 1) == CLASS_COMPILED_METHOD then HEADER_SIZE + 1 + WordC(m, p, HEADER_SIZE) % 128 / 2
    else HEADER_SIZE
  }

  // Every object is referred to, has its pointers in it, and fits a segment.
  ghost predicate Sane(m: Contents) {
    AllOops(m) && forall p {:trigger p in m} :: p in m ==>
      EntryC(m, p).free == 0 && EntryC(m, p).count != 0 && HEADER_SIZE <= SizeC(m, p) < 65536 &&
        WordC(m, p, 0) == SizeC(m, p) &&
      LastPointerC(m, p) <= SizeC(m, p) && SpaceC(m, p) <= ROOM
  }

  ghost function ContentIn(f: File, p: int): Content {
    var a, n := IMAGE_BASE + Address(EntryIn(f, p)), SizeIn(f, p);
    Content(EntryIn(f, p), if a + n <= |f| then f[a..a + n] else [])
  }

  ghost function ContentsOf(f: File): Contents {
    map p | p in ObjectsIn(f) :: ContentIn(f, p)
  }

  lemma {:induction false} ContentIs(f: File, p: int)
    requires WellFormed(f) && ObjectIn(f, p)
    ensures p in ContentsOf(f) && EntryC(ContentsOf(f), p) == EntryIn(f, p) && SizeC(ContentsOf(f), p) == SizeIn(f, p)
    ensures SpaceC(ContentsOf(f), p) == SpaceIn(f, p) && IMAGE_BASE + Address(EntryIn(f, p)) + SizeIn(f, p) <= |f|
    ensures forall i {:trigger WordC(ContentsOf(f), p, i)} :: 0 <= i < SizeIn(f, p) ==>
      WordC(ContentsOf(f), p, i) == ObjectWord(f, p, i)
  {
    assert p in ObjectsIn(f);
  }

  lemma {:induction false} FileSane(f: File)
    requires WellFormed(f)
    ensures Sane(ContentsOf(f)) && ContentsOf(f).Keys == ObjectsIn(f)
  {
    var m := ContentsOf(f);
    forall p | p in m
      ensures Oop(p) && EntryC(m, p).free == 0 && EntryC(m, p).count != 0 && HEADER_SIZE <= SizeC(m, p) < 65536 &&
        WordC(m, p, 0) == SizeC(m, p)
      ensures LastPointerC(m, p) <= SizeC(m, p) && SpaceC(m, p) <= ROOM
    {
      ContentSane(f, p);
    }
  }

  lemma {:induction false} ContentSane(f: File, p: int)
    requires WellFormed(f) && p in ContentsOf(f)
    ensures var m := ContentsOf(f);
      Oop(p) && EntryC(m, p).free == 0 && EntryC(m, p).count != 0 && HEADER_SIZE <= SizeC(m, p) < 65536 &&
        WordC(m, p, 0) == SizeC(m, p) &&
      LastPointerC(m, p) <= SizeC(m, p) && SpaceC(m, p) <= ROOM
  {
    assert ObjectIn(f, p);
    ContentIs(f, p);
    var m := ContentsOf(f);
    assert WordC(m, p, 0) == ObjectWord(f, p, 0) && WordC(m, p, 1) == ObjectWord(f, p, 1);
    if EntryC(m, p).pointer == 0 && WordC(m, p, 1) == CLASS_COMPILED_METHOD {
      assert SizeC(m, p) > HEADER_SIZE;
      assert WordC(m, p, HEADER_SIZE) == ObjectWord(f, p, HEADER_SIZE);
    }
  }

  // The file holds the words of p where its entry says.
  ghost predicate InFile(f: File, m: Contents, p: int) {
    var a := IMAGE_BASE + Address(EntryC(m, p));
    a + SizeC(m, p) <= |f| && forall i {:trigger WordC(m, p, i)} :: 0 <= i < SizeC(m, p) ==>
      WordC(m, p, i) == WordIn(f, a + i)
  }

  ghost predicate Backed(f: File, m: Contents) {
    Sane(m) && forall p {:trigger p in m} :: p in m ==> InFile(f, m, p)
  }

  // The table of s has the entries of the contents, and no others in use.
  ghost predicate Tabled(s: State, m: Contents) {
    forall p {:trigger s.E(p)} :: Oop(p) ==> (s.E(p).free == 0 <==> p in m) && (p in m ==> s.E(p) == EntryC(m, p))
  }

  lemma {:induction false} FileBacked(f: File)
    requires WellFormed(f)
    ensures Backed(f, ContentsOf(f)) && ContentsOf(f).Keys == ObjectsIn(f)
  {
    FileSane(f);
    forall p | p in ContentsOf(f)
      ensures InFile(f, ContentsOf(f), p)
    {
      assert ObjectIn(f, p);
      ContentIs(f, p);
      forall i | 0 <= i < SizeIn(f, p)
        ensures WordC(ContentsOf(f), p, i) == WordIn(f, IMAGE_BASE + Address(EntryIn(f, p)) + i)
      {
        assert WordC(ContentsOf(f), p, i) == ObjectWord(f, p, i);
      }
    }
  }

  lemma {:induction false} FileTabled(f: File, s: State)
    requires WellFormed(f) && EntriesBut(f, s, 2)
    ensures Tabled(s, ContentsOf(f))
  {
    forall p | Oop(p)
      ensures (s.E(p).free == 0 <==> p in ContentsOf(f)) && (p in ContentsOf(f) ==> s.E(p) == EntryC(ContentsOf(f), p))
    {
      assert s.E(p) == EntryIn(f, p).(location := s.E(p).location);
      if p in ContentsOf(f) {
        ContentIs(f, p);
      } else {
        assert p !in ObjectsIn(f);
      }
    }
  }

  // The words of p before i have been stored at `base`.
  ghost predicate StoredTo(m: Contents, t: State, p: int, base: int, i: int, u: State) {
    u == t.(words := u.words) && |u.words| == |t.words| &&
    forall a {:trigger At(u.words, a)} ::
      At(u.words, a) == if 0 <= a - base < i then WordC(m, p, a - base) else At(t.words, a)
  }

  lemma {:induction false} StoreOne(m: Contents, t: State, p: int, base: int, i: int, u: State, v: State)
    requires StoredTo(m, t, p, base, i, u) && 0 <= i && 0 <= base + i < |u.words| &&
      v == PutWord(u, base + i, WordC(m, p, i))
    ensures StoredTo(m, t, p, base, i + 1, v)
  {
    forall a
      ensures At(v.words, a) == if 0 <= a - base < i + 1 then WordC(m, p, a - base) else At(t.words, a)
    {
      assert At(u.words, a) == if 0 <= a - base < i then WordC(m, p, a - base) else At(t.words, a);
    }
  }

  // The words of object p are written where its entry now says; its entry in the file said where they are there.
  method StoreObject(om: ObjectMemory, f: File, objectPointer: Word, address: int, ghost m: Contents)
    requires om.Valid() && Oop(objectPointer) && objectPointer as int in m && 0 <= address &&
      address + SizeC(m, objectPointer) <= |f|
    requires forall i {:trigger WordC(m, objectPointer, i)} :: 0 <= i < SizeC(m, objectPointer) ==>
      WordC(m, objectPointer, i) == WordIn(f, address + i)
    requires HEADER_SIZE <= SizeC(m, objectPointer) == WordC(m, objectPointer, 0) &&
      InHeap(om.st.E(objectPointer), SizeC(m, objectPointer) - 1)
    modifies om`st, om.mem
    ensures om.Valid() &&
      StoredTo(m, old(om.st), objectPointer, Address(old(om.st).E(objectPointer)), SizeC(m, objectPointer), om.st)
  {
    ghost var t, base := om.st, Address(om.st.E(objectPointer));
    var objectSize := WordIn(f, address);
    assert objectSize == WordC(m, objectPointer, 0);
    om.SizeBitsPut(objectPointer, objectSize);
    StoreOne(m, t, objectPointer, base, 0, t, om.st);
    ghost var u := om.st;
    var classBits := WordIn(f, address + 1);
    assert classBits == WordC(m, objectPointer, 1) && u.E(objectPointer) == t.E(objectPointer);
    om.ClassBitsPut(objectPointer, classBits);
    StoreOne(m, t, objectPointer, base, 1, u, om.st);
    var wordIndex := 0;
    while wordIndex < objectSize - HEADER_SIZE
      invariant om.Valid() && 0 <= wordIndex <= objectSize - HEADER_SIZE
      invariant StoredTo(m, t, objectPointer, base, HEADER_SIZE + wordIndex, om.st)
    {
      u := om.st;
      var word := WordIn(f, address + HEADER_SIZE + wordIndex);
      assert word == WordC(m, objectPointer, HEADER_SIZE + wordIndex) && u.E(objectPointer) == t.E(objectPointer);
      om.HeapChunkWordPut(objectPointer, HEADER_SIZE + wordIndex, word);
      StoreOne(m, t, objectPointer, base, HEADER_SIZE + wordIndex, u, om.st);
      wordIndex := wordIndex + 1;
    }
  }

  // Entry p is made to tell where the object is to be, and the object is stored there.
  method PackObject(om: ObjectMemory, f: File, objectPointer: Word, address: int, segment: Nibble, word: Word,
                    ghost m: Contents)
    requires om.Valid() && Oop(objectPointer) && objectPointer as int in m && 0 <= address &&
      address + SizeC(m, objectPointer) <= |f|
    requires forall i {:trigger WordC(m, objectPointer, i)} :: 0 <= i < SizeC(m, objectPointer) ==>
      WordC(m, objectPointer, i) == WordIn(f, address + i)
    requires HEADER_SIZE <= SizeC(m, objectPointer) == WordC(m, objectPointer, 0) && segment < HEAP_SEGMENT_COUNT &&
      word + SizeC(m, objectPointer) <= ROOM
    requires om.st.E(objectPointer) == EntryC(m, objectPointer)
    modifies om`st, om.mem
    ensures om.Valid() && PlacedAtWord(m, old(om.st), objectPointer, segment, word, om.st)
  {
    ghost var t, e := om.st, om.st.E(objectPointer);
    om.SegmentBitsPut(objectPointer, segment);
    EntriesAfterPut(t, objectPointer, e.(segment := segment));
    om.LocationBitsPut(objectPointer, word);
    PutTwice(t, objectPointer, e.(segment := segment), e.(segment := segment, location := word));
    EntriesAfterPut(t, objectPointer, e.(segment := segment, location := word));
    ghost var u := om.st;
    StoreObject(om, f, objectPointer, address, m);
    assert forall q :: om.st.E(q) == u.E(q);
  }

  // How the objects fill the segments: each in the segment of the one before if it fits, or else in the
  // next, and none after the last.
  datatype Filling = Filling(ok: bool, dest: int, used: seq<int>)

  ghost function Filled(m: Contents, p: int): Filling
    decreases m, p
  {
    if p <= 2 then Filling(true, 0, Zeros(HEAP_SEGMENT_COUNT))
    else FilledNext(m, p - 2, Filled(m, p - 2))
  }

  ghost function FilledNext(m: Contents, p: int, x: Filling): Filling {
    if !x.ok || p !in m || !(0 <= x.dest < |x.used|) then x
    else if x.used[x.dest] + SpaceC(m, p) <= ROOM then x.(used := x.used[x.dest := x.used[x.dest] + SpaceC(m, p)])
    else if x.dest + 1 >= |x.used| then x.(ok := false)
    else Filling(true, x.dest + 1, x.used[x.dest + 1 := x.used[x.dest + 1] + SpaceC(m, p)])
  }

  lemma {:induction false} NotFilled(m: Contents, p: int, q: int)
    requires !Filled(m, p).ok && p <= q && (q - p) % 2 == 0
    ensures !Filled(m, q).ok
    decreases q - p
  {
    if p < q {
      NotFilled(m, p, q - 2);
    }
  }

  lemma {:induction false} FilledOne(m: Contents, p: int, dest: int, used: seq<int>, ok: bool, dest': int,
                                     used': seq<int>)
    requires p >= 2 && Filled(m, p) == Filling(true, dest, used)
    requires FilledNext(m, p, Filling(true, dest, used)) == Filling(ok, if ok then dest' else dest, used')
    ensures Filled(m, p + 2).ok == ok && (ok ==> Filled(m, p + 2) == Filling(true, dest', used'))
  {
  }

  // What remains of each segment.
  ghost predicate RoomLeftOf(room: seq<int>, used: seq<int>) {
    |room| == |used| == HEAP_SEGMENT_COUNT && forall k {:trigger room[k]} {:trigger used[k]} ::
      0 <= k < HEAP_SEGMENT_COUNT ==> room[k] == ROOM - used[k]
  }

  lemma {:induction false} PackedBounds(m: Contents, s: State, t: State, from: int, dest: int, used: seq<int>)
    requires PackedTo(m, s, t, from, dest, used)
    ensures |used| == HEAP_SEGMENT_COUNT && 0 <= dest < HEAP_SEGMENT_COUNT && 0 <= used[dest] <= ROOM &&
      (dest + 1 < HEAP_SEGMENT_COUNT ==> used[dest + 1] == 0)
    ensures forall k {:trigger used[k]} :: 0 <= k < HEAP_SEGMENT_COUNT ==> 0 <= used[k] <= ROOM
    ensures forall p {:trigger t.E(p)} :: p !in ObjectsTo(m, from) ==> t.E(p) == s.E(p)
  {
    assert OpenPacked(0);
  }

  // Where the object is in the file, and the words it takes in memory.
  method MeasureObject(om: ObjectMemory, f: File, objectPointer: Word, ghost m: Contents)
    returns (address: int, space: int)
    requires om.Valid() && Backed(f, m) && objectPointer as int in m &&
      om.st.E(objectPointer) == EntryC(m, objectPointer)
    ensures address == IMAGE_BASE + Address(EntryC(m, objectPointer)) && space == SpaceC(m, objectPointer)
  {
    assert Oop(objectPointer) && InFile(f, m, objectPointer) && WordC(m, objectPointer, 0) == SizeC(m, objectPointer);
    var segmentBits: int := om.SegmentBitsOf(objectPointer);
    var locationBits: int := om.LocationBitsOf(objectPointer);
    address := IMAGE_BASE + (segmentBits * 65536 + locationBits);
    var objectSize := WordIn(f, address);
    assert objectSize == WordC(m, objectPointer, 0);
    var pointer := om.PointerBitOf(objectPointer);
    space := objectSize + (if objectSize < HUGE_SIZE || pointer == 0 then 0 else 1);
  }

  // The segment, or the next when there is no room; none after the last.
  method ChooseSegment(dest: int, word: int, space: int, heapSpaceRemaining: array<int>, ghost used: seq<int>)
    returns (ok: bool, dest': int, word': int)
    requires heapSpaceRemaining.Length == HEAP_SEGMENT_COUNT && RoomLeftOf(heapSpaceRemaining[..], used) &&
      0 <= dest < HEAP_SEGMENT_COUNT
    requires word == used[dest] && 0 <= used[dest] && (dest + 1 < HEAP_SEGMENT_COUNT ==> used[dest + 1] == 0) &&
      space <= ROOM
    ensures ok ==>
      HasRoom(dest, used, space, dest') && word' == used[dest'] && dest' == if used[dest] + space <= ROOM then dest
        else dest + 1
    ensures ok <==> dest < HEAP_SEGMENT_COUNT - 1 || used[dest] + space <= ROOM
  {
    ok, dest', word' := true, dest, word;
    assert heapSpaceRemaining[..][dest] == ROOM - used[dest];
    if space > heapSpaceRemaining[dest] {
      dest' := dest + 1;
      if dest' == HEAP_SEGMENT_COUNT {
        return false, dest, word;
      }
      word' := 0;
    }
  }

  lemma {:induction false} StillRemaining(room: seq<int>, used: seq<int>, k: int, n: int)
    requires RoomLeftOf(room, used) && 0 <= k < HEAP_SEGMENT_COUNT
    ensures RoomLeftOf(room[k := room[k] - n], used[k := used[k] + n])
  {
    assert room[k] == ROOM - used[k];
  }

  // One entry: an object is packed into the segment, or into the next when there is no room.
  method PackNext(om: ObjectMemory, f: File, objectPointer: Word, dest: int, word: int, heapSpaceRemaining: array<int>,
                  ghost m: Contents, ghost s: State, ghost used: seq<int>)
    returns (ok: bool, dest': int, word': int, ghost used': seq<int>)
    requires om.Valid() && Oop(objectPointer) && Backed(f, m) && PackedTo(m, s, om.st, objectPointer, dest, used) &&
      Tabled(s, m)
    requires heapSpaceRemaining.Length == HEAP_SEGMENT_COUNT && RoomLeftOf(heapSpaceRemaining[..], used) &&
      0 <= dest < |used| && word == used[dest]
    modifies om`st, om.mem, heapSpaceRemaining
    ensures om.Valid() &&
      FilledNext(m, objectPointer, Filling(true, dest, used)) == Filling(ok, if ok then dest' else dest, used')
    ensures ok ==>
      PackedTo(m, s, om.st, objectPointer + 2, dest', used') && RoomLeftOf(heapSpaceRemaining[..], used') &&
      0 <= dest' < |used'| && word' == used'[dest']
  {
    ok, dest', word', used' := true, dest, word, used;
    PackedBounds(m, s, om.st, objectPointer, dest, used);
    assert om.st.E(objectPointer) == s.E(objectPointer);
    var free := om.FreeBitOf(objectPointer);
    if free == 1 {
      PackNone(m, s, om.st, objectPointer, dest, used);
    } else {
      ok, dest', word', used' := PackThis(om, f, objectPointer, dest, word, heapSpaceRemaining, m, s, used);
    }
  }

  method PackThis(om: ObjectMemory, f: File, objectPointer: Word, dest: int, word: int, heapSpaceRemaining: array<int>,
                  ghost m: Contents, ghost s: State, ghost used: seq<int>)
    returns (ok: bool, dest': int, word': int, ghost used': seq<int>)
    requires om.Valid() && Backed(f, m) && PackedTo(m, s, om.st, objectPointer, dest, used)
    requires objectPointer as int in m && om.st.E(objectPointer) == EntryC(m, objectPointer)
    requires heapSpaceRemaining.Length == HEAP_SEGMENT_COUNT && RoomLeftOf(heapSpaceRemaining[..], used) &&
      0 <= dest < |used| && word == used[dest]
    modifies om`st, om.mem, heapSpaceRemaining
    ensures om.Valid() &&
      FilledNext(m, objectPointer, Filling(true, dest, used)) == Filling(ok, if ok then dest' else dest, used')
    ensures ok ==>
      PackedTo(m, s, om.st, objectPointer + 2, dest', used') && RoomLeftOf(heapSpaceRemaining[..], used') &&
      0 <= dest' < |used'| && word' == used'[dest']
  {
    ghost var t := om.st;
    PackedBounds(m, s, t, objectPointer, dest, used);
    used' := used;
    var address, space := MeasureObject(om, f, objectPointer, m);
    ok, dest', word' := ChooseSegment(dest, word, space, heapSpaceRemaining, used);
    if !ok {
      return;
    }
    PackHere(om, f, objectPointer, address, dest', word', m, t, dest, used, space);
    used' := used[dest' := used[dest'] + space];
    PackOne(m, s, t, objectPointer, dest, used, dest', om.st, used');
    word' := word' + space;
    ghost var room := heapSpaceRemaining[..];
    StillRemaining(room, used, dest', space);
    heapSpaceRemaining[dest'] := heapSpaceRemaining[dest'] - space;
    assert heapSpaceRemaining[..] == room[dest' := room[dest'] - space];
  }

  method PackHere(om: ObjectMemory, f: File, objectPointer: Word, address: int, segment: int, word: int,
                  ghost m: Contents, ghost t: State, ghost dest: int, ghost used: seq<int>, ghost space: int)
    requires om.Valid() && om.st == t && Backed(f, m) && objectPointer as int in m &&
      address == IMAGE_BASE + Address(EntryC(m, objectPointer))
    requires space == SpaceC(m, objectPointer) && HasRoom(dest, used, space, segment) && word == used[segment] &&
      t.E(objectPointer) == EntryC(m, objectPointer)
    modifies om`st, om.mem
    ensures om.Valid() && PlacedAtWord(m, t, objectPointer, segment, word, om.st)
  {
    SpaceNotSmall(m, objectPointer);
    assert Oop(objectPointer) && InFile(f, m, objectPointer);
    PackObject(om, f, objectPointer, address, segment, word, m);
  }

  method PackEntry(om: ObjectMemory, f: File, objectPointer: Word, dest: int, word: int, heapSpaceRemaining: array<int>,
                   ghost m: Contents, ghost s: State, ghost used: seq<int>)
    returns (ok: bool, dest': int, word': int, ghost used': seq<int>)
    requires om.Valid() && Oop(objectPointer) && Backed(f, m) && PackedTo(m, s, om.st, objectPointer, dest, used) &&
      Tabled(s, m)
    requires heapSpaceRemaining.Length == HEAP_SEGMENT_COUNT && RoomLeftOf(heapSpaceRemaining[..], used) &&
      0 <= dest < |used| && word == used[dest]
    requires Filled(m, objectPointer) == Filling(true, dest, used)
    modifies om`st, om.mem, heapSpaceRemaining
    ensures om.Valid() && Filled(m, objectPointer + 2).ok == ok
    ensures ok ==> PackedTo(m, s, om.st, objectPointer + 2, dest', used') && RoomLeftOf(heapSpaceRemaining[..], used')
    ensures ok ==>
      0 <= dest' < |used'| == HEAP_SEGMENT_COUNT && word' == used'[dest'] &&
      Filled(m, objectPointer + 2) == Filling(true, dest', used')
  {
    ok, dest', word', used' := PackNext(om, f, objectPointer, dest, word, heapSpaceRemaining, m, s, used);
    FilledOne(m, objectPointer, dest, used, ok, dest', used');
    if ok {
      PackedBounds(m, s, om.st, objectPointer + 2, dest', used');
    }
  }

  // All objects are packed, unless they do not fit.
  method PackObjects(om: ObjectMemory, f: File, heapSpaceRemaining: array<int>, ghost m: Contents, ghost s: State)
    returns (ok: bool, ghost dest: int, ghost used: seq<int>)
    requires om.Valid() && om.st == s && Backed(f, m) && Tabled(s, m)
    requires heapSpaceRemaining.Length == HEAP_SEGMENT_COUNT &&
      (forall k {:trigger heapSpaceRemaining[k]} :: 0 <= k < HEAP_SEGMENT_COUNT ==> heapSpaceRemaining[k] == ROOM)
    modifies om`st, om.mem, heapSpaceRemaining
    ensures om.Valid() && ok == Filled(m, OBJECT_TABLE_SIZE).ok
    ensures ok ==>
      PackedTo(m, s, om.st, OBJECT_TABLE_SIZE, dest, used) && RoomLeftOf(heapSpaceRemaining[..], used) &&
      used == Filled(m, OBJECT_TABLE_SIZE).used
  {
    PackingBegins(m, s);
    used := Zeros(HEAP_SEGMENT_COUNT);
    dest := 0;
    var destinationSegment, destinationWord := 0, 0;
    var objectPointer := 2;
    while objectPointer < OBJECT_TABLE_SIZE
      invariant om.Valid() && 2 <= objectPointer <= OBJECT_TABLE_SIZE && objectPointer % 2 == 0 &&
        dest == destinationSegment
      invariant PackedTo(m, s, om.st, objectPointer, dest, used) && RoomLeftOf(heapSpaceRemaining[..], used) &&
        0 <= dest < |used| && destinationWord == used[dest]
      invariant Filled(m, objectPointer) == Filling(true, dest, used)
    {
      ok, destinationSegment, destinationWord,
        used := PackEntry(om, f, objectPointer, destinationSegment, destinationWord, heapSpaceRemaining, m, s, used);
      objectPointer := objectPointer + 2;
      if !ok {
        NotFilled(m, objectPointer, OBJECT_TABLE_SIZE);
        return;
      }
      dest := destinationSegment;
    }
    ok := true;
  }
}
