// Saving and loading undo each other: the objects come back the same, at places of their own.
module Snapshots {
  import opened Words
  import opened Memory
  import opened Traversal
  import opened RefCounts
  import opened Layouts
  import opened Freeing
  import opened StorePointers
  import opened Compaction
  import opened Accounts
  import opened TableLoading
  import opened ObjectLoading
  import opened SnapshotLoading
  import Saving

  // f is what is saved of s.
  ghost predicate IsSaved(s: State, g: Layout, f: File) {
    Saving.CanSave(s, g) && f == Saving.SavedFile(s)
  }

  lemma {:induction false} SavedLength(s: State, g: Layout, f: File) returns (length: nat)
    requires IsSaved(s, g, f)
    ensures 4 <= length <= OBJECT_TABLE_SIZE && length % 2 == 0 && Saving.SavedAs(s, f, length)
    ensures forall p {:trigger Saving.Held(s, p)} :: Saving.Held(s, p) ==> p < length
  {
    length := HeldLength(s, f);
    Saving.FileSaved(s, length, f);
  }

  lemma {:induction false} HeldLength(s: State, f: File) returns (length: nat)
    requires Saving.Held(s, NIL_POINTER) && f == Saving.SavedFile(s)
    ensures 4 <= length <= OBJECT_TABLE_SIZE && length % 2 == 0 && f == Saving.FileOf(s, length)
    ensures Saving.Held(s, length - 2) && forall p {:trigger Saving.Held(s, p)} :: Saving.Held(s, p) ==> p < length
  {
    var end := OBJECT_TABLE_SIZE;
    Saving.LastIs(s, end);
    length := Saving.LastHeld(s, end) + 2;
  }

  // The objects of the file are those that were referred to.
  lemma {:induction false} SavedObject(s: State, g: Layout, f: File, p: int)
    requires IsSaved(s, g, f)
    ensures ObjectIn(f, p) <==> Saving.Held(s, p)
    ensures Saving.Held(s, p) ==> EntryIn(f, p) == Saving.SavedEntry(s, p)
  {
    var length := SavedLength(s, g, f);
    if Oop(p) && p < length {
      assert EntryIn(f, p) == Saving.SavedEntry(s, p);
    }
  }

  lemma {:induction false} SavedAddress(s: State, g: Layout, p: int)
    requires Saving.CanSave(s, g) && Saving.Held(s, p)
    ensures Address(Saving.SavedEntry(s, p)) == Saving.Offset(s, p)
  {
    Saving.OffsetFits(s, g, p);
  }

  lemma {:induction false} SavedWords(s: State, g: Layout, f: File, p: int, i: int)
    requires IsSaved(s, g, f) && Saving.Held(s, p) && 0 <= i < SizeOf(s, p)
    ensures ObjectWord(f, p, i) == WordOf(s, p, i) && IMAGE_BASE + Address(EntryIn(f, p)) + i < |f|
  {
    var length := SavedLength(s, g, f);
    SavedObject(s, g, f, p);
    SavedAddress(s, g, p);
    assert Saving.SavedWord(s, f, p, i);
  }

  lemma {:induction false} SavedSize(s: State, g: Layout, f: File, p: int)
    requires IsSaved(s, g, f) && Saving.Held(s, p)
    ensures SizeIn(f, p) == SizeOf(s, p) && SpaceIn(f, p) == Space(s, p) && LastPointerIn(f, p) == LastPointer(s, p)
    ensures HEADER_SIZE <= SizeOf(s, p) && LastPointer(s, p) <= SizeOf(s, p) && Space(s, p) <= HEAP_SPACE_STOP + 1
    ensures IMAGE_BASE + Address(EntryIn(f, p)) + SizeIn(f, p) <= |f|
  {
    Saving.HeldPlaced(s, g, p);
    SavedObject(s, g, f, p);
    SavedWords(s, g, f, p, 0);
    SavedWords(s, g, f, p, 1);
    SavedWords(s, g, f, p, SizeOf(s, p) - 1);
    if SizeOf(s, p) > HEADER_SIZE {
      SavedWords(s, g, f, p, HEADER_SIZE);
    }
  }

  // The file in its words

  function TwoWords(low: int, high: int): int {
    low + 65536 * high
  }

  // The entry of p, at the place of p in the table that ends the file, has the bits that the memory has, and says that
  // the words of p begin at place a behind the first page;
  ghost predicate EntryWritten(s: State, f: File, length: nat, p: int, a: int) {
    var k := |f| - length + p;
    0 <= k < |f| - 1 && f[k] / 16 == Pack(s.E(p)) / 16 && TwoWords(f[k + 1], f[k] % 16) == a
  }

  // there they are.
  ghost predicate WordsWritten(s: State, f: File, length: nat, p: int, a: int) {
    forall i {:trigger WordWritten(s, f, length, p, a, i)} :: 0 <= i < SizeOf(s, p) ==>
      WordWritten(s, f, length, p, a, i)
  }

  ghost predicate WordWritten(s: State, f: File, length: nat, p: int, a: int, i: int) {
    0 <= 256 + a + i < |f| - length && f[256 + a + i] == WordOf(s, p, i)
  }

  // The entry says that it is free, and nothing else.
  ghost predicate WrittenFree(f: File, length: nat, p: int) {
    var k := |f| - length + p;
    0 <= k < |f| - 1 && f[k] == 32 && f[k + 1] == 0
  }

  lemma {:induction false} EntryIsWritten(s: State, f: File, length: nat, p: int, e: Entry)
    requires TableLength(f) == length && length % 2 == 0 && 0 <= p < length <= |f| && p % 2 == 0
    requires EntryIn(f, p) == e == s.E(p).(segment := e.segment, location := e.location)
    ensures EntryWritten(s, f, length, p, Address(e))
  {
    var k := |f| - length + p;
    assert TableWord(f, p) == f[k] && TableWord(f, p + 1) == f[k + 1];
    EntryBits(e, s.E(p), f[k], f[k + 1]);
  }

  lemma {:induction false} EntryBits(e: Entry, before: Entry, w0: Word, w1: Word)
    requires Unpack(w0, w1) == e == before.(segment := e.segment, location := e.location)
    ensures w0 / 16 == Pack(before) / 16 && TwoWords(w1, w0 % 16) == Address(e)
  {
    PackUnpack(w0, w1);
    SegmentLast(e);
    SegmentLast(before);
  }

  lemma {:induction false} WordsAreWritten(s: State, length: nat, f: File, head: seq<Word>, space: seq<Word>,
                                           table: seq<Word>, p: int)
    requires Saving.IsFileOf(s, length, f, head, space, table) && length % 2 == 0 && Saving.Held(s, p) && p < length
    ensures WordsWritten(s, f, length, p, Saving.Offset(s, p))
  {
    var a := Saving.Offset(s, p);
    forall i | 0 <= i < SizeOf(s, p)
      ensures WordWritten(s, f, length, p, a, i)
    {
      var at := a + i;
      Saving.ObjectsAt(s, p, length, i);
      assert 0 <= at < |space| && space[at] == WordOf(s, p, i);
      SpaceWritten(f, head, space, table, at);
    }
  }

  lemma {:induction false} SpaceWritten(f: File, head: seq<Word>, space: seq<Word>, table: seq<Word>, i: int)
    requires Saving.Parts(f, head, space, table) && 0 <= i < |space|
    ensures 256 + i < |f| - |table| && f[256 + i] == space[i]
  {
    Saving.SpaceWord(f, head, space, table, i);
  }

  lemma {:induction false} OthersWritten(s: State, f: File, length: nat, p: int)
    requires Saving.SavedAs(s, f, length) && length % 2 == 0 && Oop(p) && p < length && !Saving.Held(s, p)
    ensures WrittenFree(f, length, p)
  {
    var k := |f| - length + p;
    assert EntryIn(f, p) == Saving.SavedEntry(s, p) == Unpack(f[k], f[k + 1]);
    PackUnpack(f[k], f[k + 1]);
  }

  // The first page begins with the number of words of the objects and with the length of the table, and the table
  // begins a page.
  ghost predicate HeadWritten(f: File, length: nat, space: int) {
    256 + length <= |f| && (|f| - length) % 256 == 0 && TwoWords(f[2], f[3]) == length && TwoWords(f[0], f[1]) == space
  }

  lemma {:induction false} HeadIsWritten(head: seq<Word>, padded: seq<Word>, table: seq<Word>, f: File, space: nat)
    requires f == head + padded + table && |padded| % 256 == 0 && |table| < 65536 && space < 16 * 65536
    requires head == Saving.Head(space, |table|)
    ensures HeadWritten(f, |table|, space)
  {
    HeadFirst(head, padded, table, f);
    BothHalves(space);
    BothHalves(|table|);
    PageOn(|padded|);
  }

  lemma {:induction false} HeadFirst(head: seq<Word>, space: seq<Word>, table: seq<Word>, f: File)
    requires f == head + space + table && |head| == 256
    ensures f[0] == head[0] && f[1] == head[1] && f[2] == head[2] && f[3] == head[3]
    ensures |f| == 256 + |space| + |table|
  {
  }

  lemma {:induction false} BothHalves(n: nat)
    requires n < 16 * 65536
    ensures TwoWords(Saving.Low(n), Saving.High(n)) == n
  {
  }

  lemma {:induction false} PageOn(n: nat)
    requires n % 256 == 0
    ensures (256 + n) % 256 == 0
  {
  }

  // The objects that are held follow one another without a gap, p at place(p).
  ghost predicate OneAfterAnother(s: State, length: nat, place: int -> int) {
    place(2) == 0 && forall p {:trigger place(p)} :: Oop(p) && p < length ==>
      var next := p + 2; place(next) == place(p) + if Saving.Held(s, p) then SizeOf(s, p) as int else 0
  }

  lemma {:induction false} PlacesFollow(s: State, length: nat, place: int -> int)
    requires forall p {:trigger place(p)} :: place(p) == Saving.Offset(s, p)
    ensures OneAfterAnother(s, length, place)
  {
    forall p {:trigger place(p)} | Oop(p) && p < length
      ensures place(p + 2) == place(p) + if Saving.Held(s, p) then SizeOf(s, p) as int else 0
    {
    }
  }

  lemma {:induction false} HeadOfSaved(s: State, length: nat, f: File)
    requires f == Saving.FileOf(s, length) && length % 2 == 0 && length <= OBJECT_TABLE_SIZE
    requires Saving.Offset(s, length) < 16 * 65536
    ensures HeadWritten(f, length, Saving.Offset(s, length))
  {
    Saving.TableSize(s, length);
    HeadIsWritten(Saving.Head(Saving.Offset(s, length), length), Saving.Padded(Saving.ObjectsTo(s, length)),
      Saving.TableOf(Saving.EntriesTo(s, length)), f, Saving.Offset(s, length));
  }

  // The file that is saved, word by word: the lengths, the objects, and the entries up to the last object held.
  lemma {:induction false} SavedInWords(s: State, g: Layout, f: File) returns (length: nat, place: int -> int)
    requires IsSaved(s, g, f)
    ensures HeadWritten(f, length, place(length)) && OneAfterAnother(s, length, place)
    ensures Saving.Held(s, length - 2) && forall p {:trigger Saving.Held(s, p)} :: Saving.Held(s, p) ==> p < length
    ensures forall p {:trigger place(p)} :: Saving.Held(s, p) ==>
      EntryWritten(s, f, length, p, place(p)) && WordsWritten(s, f, length, p, place(p))
    ensures forall p {:trigger WrittenFree(f, length, p)} :: Oop(p) && p < length && !Saving.Held(s, p) ==>
      WrittenFree(f, length, p)
  {
    length := HeldLength(s, f);
    Saving.FileSaved(s, length, f);
    Saving.OffsetFits(s, g, length);
    HeadOfSaved(s, length, f);
    place := p => Saving.Offset(s, p);
    PlacesFollow(s, length, place);
    var head, space, table := Saving.FileParts(s, length, f);
    forall p | Saving.Held(s, p)
      ensures EntryWritten(s, f, length, p, place(p)) && WordsWritten(s, f, length, p, place(p))
    {
      SavedAddress(s, g, p);
      EntryIsWritten(s, f, length, p, Saving.SavedEntry(s, p));
      WordsAreWritten(s, length, f, head, space, table, p);
    }
    forall p | Oop(p) && p < length && !Saving.Held(s, p)
      ensures WrittenFree(f, length, p)
    {
      OthersWritten(s, f, length, p);
    }
  }

  // Every file that is saved can be loaded.
  lemma {:induction false} SavedWellFormed(s: State, g: Layout, f: File)
    requires IsSaved(s, g, f)
    ensures WellFormed(f) && forall p {:trigger Saving.Held(s, p)} :: p in ObjectsIn(f) <==> Saving.Held(s, p)
  {
    var length := SavedLength(s, g, f);
    forall p
      ensures ObjectIn(f, p) <==> Saving.Held(s, p)
    {
      SavedObject(s, g, f, p);
    }
    forall p | ObjectIn(f, p)
      ensures EntryIn(f, p).count != 0 && HEADER_SIZE <= SizeIn(f, p) && LastPointerIn(f, p) <= SizeIn(f, p)
      ensures SpaceIn(f, p) <= HEAP_SPACE_STOP + 1 && IMAGE_BASE + Address(EntryIn(f, p)) + SizeIn(f, p) <= |f|
    {
      SavedObject(s, g, f, p);
      SavedSize(s, g, f, p);
    }
  }

  // p is in t as it was in s, but perhaps elsewhere.
  ghost predicate Restored(s: State, t: State, p: int) {
    t.E(p) == s.E(p).(segment := t.E(p).segment, location := t.E(p).location) && SizeOf(t, p) == SizeOf(s, p) &&
    forall i {:trigger WordOf(t, p, i)} :: 0 <= i < SizeOf(s, p) ==> WordOf(t, p, i) == WordOf(s, p, i)
  }

  lemma {:induction false} ObjectRestored(s: State, g: Layout, f: File, t: State, h: Layout, p: int)
    requires IsSaved(s, g, f) && Loaded(ContentsOf(f), t, h) && Saving.Held(s, p)
    ensures Restored(s, t, p)
  {
    var m := ContentsOf(f);
    SavedWellFormed(s, g, f);
    SavedObject(s, g, f, p);
    SavedSize(s, g, f, p);
    ContentIs(f, p);
    assert InMemory(m, t, p);
    forall i | 0 <= i < SizeOf(s, p)
      ensures WordOf(t, p, i) == WordOf(s, p, i)
    {
      SavedWords(s, g, f, p, i);
      assert WordC(m, p, i) == ObjectWord(f, p, i);
    }
    assert WordOf(t, p, 0) == WordOf(s, p, 0);
  }

  // What is loaded of a file is what was saved in it.
  lemma {:induction false} RoundTrip(s: State, g: Layout, f: File, t: State, h: Layout)
    requires IsSaved(s, g, f) && Loaded(ContentsOf(f), t, h)
    ensures forall p {:trigger Saving.Held(s, p)} :: p in h.alloc <==> Saving.Held(s, p)
    ensures forall p {:trigger Restored(s, t, p)} :: Saving.Held(s, p) ==> Restored(s, t, p)
  {
    SavedWellFormed(s, g, f);
    FileBacked(f);
    forall p | Saving.Held(s, p)
      ensures Restored(s, t, p)
    {
      ObjectRestored(s, g, f, t, h, p);
    }
  }

  // No object that is allocated has the count 0.
  ghost predicate NoneUncounted(s: State, g: Layout) {
    forall p {:trigger s.E(p)} :: p in g.alloc ==> s.E(p).count != 0
  }

  // A sound memory comes back sound, if nothing is left behind and the registers are empty.
  lemma {:induction false} SoundAgain(s: State, g: Layout, f: File, m: Contents, t: State, h: Layout)
    requires Sound(s, g, multiset{}) && NoneUncounted(s, g) && f == Saving.SavedFile(s) && m == ContentsOf(f) &&
      Loaded(m, t, h)
    ensures IsSaved(s, g, f) && h.alloc == g.alloc && Sound(t, h, multiset{})
  {
    AllHeld(s, g);
    SavedKeys(s, g, f, m);
    SavedSound(s, g, f, m, t, h);
  }

  lemma {:induction false} SavedKeys(s: State, g: Layout, f: File, m: Contents)
    requires IsSaved(s, g, f) && m == ContentsOf(f)
    requires forall p {:trigger Saving.Held(s, p)} :: p in g.alloc <==> Saving.Held(s, p)
    ensures WellFormed(f) && m.Keys == g.alloc && Sane(m)
  {
    SavedWellFormed(s, g, f);
    FileBacked(f);
    forall p
      ensures p in ObjectsIn(f) <==> p in g.alloc
    {
      assert p in ObjectsIn(f) <==> Saving.Held(s, p);
    }
    assert m.Keys == g.alloc;
  }

  lemma {:induction false} SavedSound(s: State, g: Layout, f: File, m: Contents, t: State, h: Layout)
    requires Sound(s, g, multiset{}) && IsSaved(s, g, f) && WellFormed(f) && m == ContentsOf(f) && m.Keys == g.alloc
    requires forall p {:trigger Saving.Held(s, p)} :: p in g.alloc <==> Saving.Held(s, p)
    requires Loaded(m, t, h) && Sane(m)
    ensures Sound(t, h, multiset{})
  {
    SoundFacts(s, g);
    SavedCounted(s, g, f, m);
    LoadedSound(m, t, h);
  }

  lemma {:induction false} SoundFacts(s: State, g: Layout)
    requires Sound(s, g, multiset{})
    ensures Closed(s, g.alloc, NO_HOLE) && Exact(s, g.alloc, NO_HOLE, multiset{}) && ClassesAreObjects(s, g) &&
      NilStuck(s, g.alloc)
  {
    assert OpenSound(0) && OpenHealthy(0);
  }

  lemma {:induction false} AllHeld(s: State, g: Layout)
    requires Sound(s, g, multiset{}) && NoneUncounted(s, g)
    ensures Saving.CanSave(s, g) && forall p {:trigger Saving.Held(s, p)} :: p in g.alloc <==> Saving.Held(s, p)
  {
    SoundReady(s, g, multiset{});
    forall p
      ensures p in g.alloc <==> Saving.Held(s, p)
    {
      if p in g.alloc {
        assert OpenLayout(0);
        assert Placed(s, p, g.len[p]);
      } else if Saving.Held(s, p) {
        Saving.HeldPlaced(s, g, p);
      }
    }
  }

  lemma {:induction false} SavedContent(s: State, g: Layout, f: File, p: int)
    requires IsSaved(s, g, f) && WellFormed(f) && Saving.Held(s, p)
    ensures var m := ContentsOf(f);
      p in m && EntryC(m, p).count == s.E(p).count && LastPointerC(m, p) == LastPointer(s, p) &&
        WordC(m, p, 1) == ClassOf(s, p) &&
      forall i {:trigger WordC(m, p, i)} :: 0 <= i < LastPointer(s, p) ==> WordC(m, p, i) == WordOf(s, p, i)
  {
    var m := ContentsOf(f);
    SavedObject(s, g, f, p);
    SavedSize(s, g, f, p);
    ContentIs(f, p);
    forall i | 0 <= i < SizeOf(s, p)
      ensures WordC(m, p, i) == WordOf(s, p, i)
    {
      SavedWords(s, g, f, p, i);
      assert WordC(m, p, i) == ObjectWord(f, p, i);
    }
    assert WordC(m, p, 1) == WordOf(s, p, 1);
    if SizeOf(s, p) > HEADER_SIZE {
      assert WordC(m, p, HEADER_SIZE) == WordOf(s, p, HEADER_SIZE);
    }
  }

  lemma {:induction false} SavedHolders(s: State, g: Layout, f: File, m: Contents, p: int)
    requires IsSaved(s, g, f) && WellFormed(f) && m == ContentsOf(f) && m.Keys == g.alloc
    requires forall q {:trigger Saving.Held(s, q)} :: q in g.alloc <==> Saving.Held(s, q)
    ensures |HoldersC(m, p)| == Refs(s, g.alloc, NO_HOLE, p)
  {
    forall q | q in m
      ensures LastPointerC(m, q) == LastPointer(s, q)
      ensures forall i {:trigger WordC(m, q, i)} :: 0 <= i < LastPointer(s, q) ==> WordC(m, q, i) == WordOf(s, q, i)
    {
      assert Saving.Held(s, q);
      SavedContent(s, g, f, q);
    }
    assert PlacesC(m) == Places(s, g.alloc) - NO_HOLE;
    forall x | x in PlacesC(m)
      ensures WordC(m, x.0, x.1) == WordOf(s, x.0, x.1)
    {
    }
    assert HoldersC(m, p) == Holders(s, Places(s, g.alloc) - NO_HOLE, p);
  }

  lemma {:induction false} SavedCounted(s: State, g: Layout, f: File, m: Contents)
    requires IsSaved(s, g, f) && WellFormed(f) && m == ContentsOf(f) && m.Keys == g.alloc
    requires Closed(s, g.alloc, NO_HOLE) && Exact(s, g.alloc, NO_HOLE, multiset{}) && ClassesAreObjects(s, g) &&
      NilStuck(s, g.alloc)
    requires forall p {:trigger Saving.Held(s, p)} :: p in g.alloc <==> Saving.Held(s, p)
    ensures WellCounted(m)
  {
    forall q | q in m
      ensures WordC(m, q, 1) != NON_POINTER && (q == NIL_POINTER ==> EntryC(m, q).count == STUCK)
      ensures EntryC(m, q).count == STUCK || (EntryC(m, q).count < STUCK && EntryC(m, q).count == |HoldersC(m, q)|)
    {
      assert Saving.Held(s, q);
      SavedContent(s, g, f, q);
      SavedHolders(s, g, f, m, q);
    }
    forall q, i | q in m && 1 <= i < LastPointerC(m, q)
      ensures IsInteger(WordC(m, q, i)) || WordC(m, q, i) in m
    {
      assert Saving.Held(s, q);
      SavedContent(s, g, f, q);
      assert !IsInteger(WordOf(s, q, i)) ==> PointsTo(s, q, i, WordOf(s, q, i));
    }
  }
}
