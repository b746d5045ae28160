// Which words of an object the object memory follows, told without its own reckoning, and that they are
// those that the interpreter takes for pointers.
module PointerFields {
  import opened Words
  import opened Memory
  import opened Traversal
  import opened Layouts
  import Objects

  // The class is always followed.  Of an object of pointers every word is, of a compiled method the header and as
  // many literals as the header tells, of any other object nothing else.
  lemma {:induction false} FollowedExactly(s: State, p: int, i: int, q: int)
    ensures PointsTo(s, p, i, q) <==>
      WordOf(s, p, i) == q && q % 2 == 0 &&
      if s.E(p).pointer == 1 then 1 <= i < WordOf(s, p, 0)
      else i == 1 || (WordOf(s, p, 1) == 34 && 2 <= i <= 2 + WordOf(s, p, 2) / 2 % 64)
  {
    HalfRest(WordOf(s, p, 2));
  }

  lemma {:induction false} HalfRest(w: Word)
    ensures w % 128 / 2 == w / 2 % 64
  {
    assert w / 2 / 64 == w / 128;
  }

  // The interpreter's object p is the memory's.
  ghost predicate Shows(s: State, p: int, o: Objects.Heap) {
    p in o && |o[p]| + 2 == SizeOf(s, p) &&
    forall j {:trigger Objects.Field(o, p, j)} :: 0 <= j < |o[p]| ==> Objects.Field(o, p, j) == WordOf(s, p, 2 + j)
  }

  // The words of a compiled method that are followed are those before its first instruction: the collector and
  // the interpreter have the same idea of where the literals end and the code begins.
  lemma {:induction false} LiteralsFollowed(s: State, p: int, o: Objects.Heap)
    requires s.E(p).pointer == 0 && ClassOf(s, p) == CLASS_COMPILED_METHOD && Shows(s, p, o) && |o[p]| > 0
    ensures LastPointer(s, p) - 2 == 1 + Bits(WordOf(s, p, 2), 9, 14) == 1 + Objects.LiteralCountOf(o, p)
    ensures Objects.InitialInstructionPointerOf(o, p) == 2 * (LastPointer(s, p) - 2) + 1
    ensures forall i, q {:trigger PointsTo(s, p, i, q)} :: 2 <= i < SizeOf(s, p) ==>
      (PointsTo(s, p, i, q) <==>
         i - 2 <= Objects.LiteralCountOf(o, p) && Objects.Field(o, p, i - 2) == q && q % 2 == 0)
  {
    Powers();
    assert Objects.Field(o, p, 0) == WordOf(s, p, 2);
    HalfRest(WordOf(s, p, 2));
  }

  // What an object takes in a layout: its size, and a word more to keep the place of a traversal in where that is
  // too large for eight bits.
  lemma {:induction false} SpaceTaken(s: State, g: Layout, p: int)
    requires LaidOut(s, g) && p in g.alloc
    ensures p in g.len &&
      g.len[p] == WordOf(s, p, 0) + (if s.E(p).pointer == 1 && WordOf(s, p, 0) > 255 then 1 else 0)
  {
    assert OpenLayout(0);
    assert Sized(s, p, g.len[p]);
  }
}
