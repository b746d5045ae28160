// Objects as the interpreter sees them: numbered fields, small integers and method headers.
module Objects {
  import opened Words
  import Memory

  // The fields of every object, without its size and class.
  type Heap = map<int, seq<Word>>

  function Field(o: Heap, p: int, i: int): Word {
    if p in o && 0 <= i < |o[p]| then o[p][i] else NIL_POINTER
  }

  function SizeOf(o: Heap, p: int): nat {
    if p in o then |o[p]| else 0
  }

  function SetField(o: Heap, p: int, i: int, v: Word): Heap {
    if p in o && 0 <= i < |o[p]| then o[p := Memory.Put<Word>(o[p], i, v)] else o
  }

  // The fields of a new object that holds pointers.
  function Nils(n: nat): seq<Word> {
    seq(n, _ => NIL_POINTER)
  }

  lemma {:induction false} FieldAfterSet(o: Heap, p: int, i: int, v: Word, q: int, j: int)
    ensures Field(SetField(o, p, i, v), q, j) == if q == p && j == i && p in o && 0 <= i < |o[p]| then v
      else Field(o, q, j)
    ensures SizeOf(SetField(o, p, i, v), q) == SizeOf(o, q) && (q in SetField(o, p, i, v) <==> q in o)
    ensures q != p && q in o ==> SetField(o, p, i, v)[q] == o[q]
  {
  }

  // Small integers

  predicate IsIntegerValue(v: int) {
    -16384 <= v <= 16383
  }

  predicate IsIntegerObject(w: Word) {
    w % 2 == 1
  }

  function IntegerObject(v: int): Word
    requires IsIntegerValue(v)
  {
    if v >= 0 then 2 * v + 1 else 2 * v + 65537
  }

  // The word without its tag, as a signed word, halved.
  function IntegerValue(w: Word): int {
    var even := w - w % 2;
    if even < 32768 then even / 2 else (even - 65536) / 2
  }

  lemma {:induction false} IntegerThere(v: int)
    requires IsIntegerValue(v)
    ensures IsIntegerObject(IntegerObject(v)) && IntegerValue(IntegerObject(v)) == v
    ensures IntegerObject(v) == (2 * v + 1) % 65536
  {
  }

  lemma {:induction false} IntegerBack(w: Word)
    requires IsIntegerObject(w)
    ensures IsIntegerValue(IntegerValue(w)) && IntegerObject(IntegerValue(w)) == w
  {
  }

  // Method headers

  const HEADER_INDEX := 0
  const LITERAL_START := 1

  function HeaderOf(o: Heap, m: int): Word {
    Field(o, m, HEADER_INDEX)
  }

  function LiteralCountOf(o: Heap, m: int): nat {
    Bits(HeaderOf(o, m), 9, 14)
  }

  function TemporaryCountOf(o: Heap, m: int): nat {
    Bits(HeaderOf(o, m), 3, 7)
  }

  function LargeContextFlagOf(o: Heap, m: int): nat {
    Bits(HeaderOf(o, m), 8, 8)
  }

  function InitialInstructionPointerOf(o: Heap, m: int): nat {
    (LiteralCountOf(o, m) + LITERAL_START) * 2 + 1
  }

  function HeaderExtensionOf(o: Heap, m: int): Word {
    Field(o, m, LiteralCountOf(o, m) - 2 + LITERAL_START)
  }

  // The number of the primitive that the method runs; 0 for none.
  function PrimitiveIndexOf(o: Heap, m: int): nat {
    if Bits(HeaderOf(o, m), 0, 2) == 7 then Bits(HeaderExtensionOf(o, m), 7, 14) else 0
  }

  lemma {:induction false} SmallField(w: Word, first: nat, last: nat)
    requires first <= last < 16
    ensures Bits(w, first, last) < Pow2(last - first + 1)
  {
  }

  lemma {:induction false} PrimitiveSmall(o: Heap, m: int)
    ensures PrimitiveIndexOf(o, m) < 256
  {
    SmallField(HeaderExtensionOf(o, m), 7, 14);
    Powers();
  }

  // The fields of a header, from the most significant: three bits of flags, the number of temporaries, whether the
  // context is large, and the number of literals.
  lemma {:induction false} HeaderIs(o: Heap, m: int)
    ensures var header, flags := Field(o, m, 0), Bits(Field(o, m, 0), 0, 2);
      header == 8192 * flags + 256 * TemporaryCountOf(o, m) + 128 * LargeContextFlagOf(o, m) +
        2 * LiteralCountOf(o, m) + header % 2
    ensures Bits(Field(o, m, 0), 0, 2) < 8 && TemporaryCountOf(o, m) < 32 && LargeContextFlagOf(o, m) < 2 &&
      LiteralCountOf(o, m) < 64
  {
    Powers();
    HeaderParts(Field(o, m, 0));
  }

  lemma {:induction false} HeaderParts(w: Word)
    ensures w == 8192 * (w / 8192 % 8) + 256 * (w / 256 % 32) + 128 * (w / 128 % 2) + 2 * (w / 2 % 64) + w % 2
  {
    assert w / 2 / 64 == w / 128;
    assert w / 128 / 2 == w / 256;
    assert w / 256 / 32 == w / 8192;
  }

  // The primitive is told by the last literal but one, if the flags are all set.
  lemma {:induction false} PrimitiveIs(o: Heap, m: int)
    ensures PrimitiveIndexOf(o, m) ==
      if Field(o, m, 0) >= 57344 then Field(o, m, LiteralCountOf(o, m) - 1) / 2 % 256 else 0
  {
    Powers();
  }

  // Every method's first instruction and temporaries can be told in a context.
  lemma {:induction false} HeaderRanges(o: Heap, m: int)
    ensures 3 <= InitialInstructionPointerOf(o, m) <= 129 && TemporaryCountOf(o, m) <= 31 &&
      LargeContextFlagOf(o, m) <= 1
  {
    SmallField(HeaderOf(o, m), 9, 14);
    SmallField(HeaderOf(o, m), 3, 7);
    SmallField(HeaderOf(o, m), 8, 8);
    Powers();
  }
}
