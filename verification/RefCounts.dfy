// Reference counts: what a count field should hold.
module RefCounts {
  import opened Words
  import opened Memory

  // A place is field i of object q, written (q, i); the class is field 1.
  ghost function Places(s: State, A: set<int>): set<(int, int)> {
    set q, i | q in A && 1 <= i < LastPointer(s, q) :: (q, i)
  }

  // The places of R that hold p.
  ghost function Holders(s: State, R: set<(int, int)>, p: int): set<(int, int)> {
    set x | x in R && WordOf(s, x.0, x.1) == p
  }

  // A reference is about to go, or has gone: the registers that remain counted, the places that no
  // longer count though they still hold an object, and a set of objects that keeps those places' objects.
  datatype Drop = Drop(ext: multiset<int>, hole: set<(int, int)>, keep: set<int>)

  const NO_HOLE: set<(int, int)> := {}

  // The references to p from the fields and classes of A, those in the hole apart.
  ghost function Refs(s: State, A: set<int>, hole: set<(int, int)>, p: int): nat {
    |Holders(s, Places(s, A) - hole, p)|
  }

  // Every count of A is the number of references from fields and classes of A and from the counted
  // registers `ext`, or is stuck.
  ghost predicate Exact(s: State, A: set<int>, hole: set<(int, int)>, ext: multiset<int>) {
    forall p {:trigger s.E(p)} :: p in A ==>
      s.E(p).count == STUCK || (s.E(p).count < STUCK && s.E(p).count == Refs(s, A, hole, p) + ext[p])
  }

  // The same, but for root, whose count still includes the reference that goes.
  ghost predicate ExactBefore(s: State, A: set<int>, d: Drop, root: int) {
    forall p {:trigger s.E(p)} :: p in A ==>
      s.E(p).count == STUCK ||
      (s.E(p).count < STUCK && s.E(p).count == Refs(s, A, d.hole, p) + d.ext[p] + (if p == root then 1 else 0))
  }

  // Every object of d.keep is stuck, not counted yet, in a register, or held by a place of d.keep
  // outside the hole; and the places of the hole belong to d.keep.
  ghost predicate Supported(s: State, A: set<int>, d: Drop) {
    d.keep <= A && (forall x :: x in d.hole ==> x.0 in d.keep) &&
    forall p :: p in d.keep ==>
      s.E(p).count >= STUCK || s.E(p).count == 0 || d.ext[p] >= 1 || Refs(s, d.keep, d.hole, p) >= 1
  }

  lemma {:induction false} HoldersWithout(s: State, R: set<(int, int)>, x: (int, int), p: int)
    requires x in R
    ensures |Holders(s, R - {x}, p)| == |Holders(s, R, p)| - (if WordOf(s, x.0, x.1) == p then 1 else 0)
  {
    if WordOf(s, x.0, x.1) == p {
      assert Holders(s, R - {x}, p) == Holders(s, R, p) - {x};
    } else {
      assert Holders(s, R - {x}, p) == Holders(s, R, p);
    }
  }

  lemma {:induction false} SubsetSize<T>(a: set<T>, b: set<T>)
    requires a <= b
    ensures |a| <= |b|
  {
    assert b == a + (b - a);
  }

  lemma {:induction false} HoldersMonotone(s: State, R: set<(int, int)>, R': set<(int, int)>, p: int)
    requires R <= R'
    ensures |Holders(s, R, p)| <= |Holders(s, R', p)|
  {
    SubsetSize(Holders(s, R, p), Holders(s, R', p));
  }

  lemma {:induction false} RefsMonotone(s: State, A: set<int>, A': set<int>, hole: set<(int, int)>, p: int)
    requires A <= A'
    ensures Refs(s, A, hole, p) <= Refs(s, A', hole, p)
  {
    HoldersMonotone(s, Places(s, A) - hole, Places(s, A') - hole, p);
  }

  // Only the scanned fields of the objects of A matter.
  lemma {:induction false} RefsSame(s: State, t: State, A: set<int>, hole: set<(int, int)>, p: int)
    requires forall q :: q in A ==> LastPointer(t, q) == LastPointer(s, q)
    requires forall q, i :: q in A && 1 <= i < LastPointer(s, q) ==> WordOf(t, q, i) == WordOf(s, q, i)
    ensures Refs(t, A, hole, p) == Refs(s, A, hole, p)
  {
    assert Places(s, A) == Places(t, A);
    assert Holders(s, Places(s, A) - hole, p) == Holders(t, Places(t, A) - hole, p);
  }
}
