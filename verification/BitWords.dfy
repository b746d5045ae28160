// Sixteen-bit words as their bits, the most significant first: the leftmost of sixteen pixels.
module BitWords {
  import opened Words

  type Bits = b: seq<bool> | |b| == 16 
    witness seq(16, k => false)

  predicate Position(k: int) {
    0 <= k < 16
  }

  // Pixel k of w.
  predicate Pixel(w: Bits, k: int) {
    Position(k) && w[k]
  }

  function And(a: Bits, b: Bits): Bits {
    seq(16, k => Pixel(a, k) && Pixel(b, k))
  }

  function Or(a: Bits, b: Bits): Bits {
    seq(16, k => Pixel(a, k) || Pixel(b, k))
  }

  function Xor(a: Bits, b: Bits): Bits {
    seq(16, k => Pixel(a, k) != Pixel(b, k))
  }

  function Not(a: Bits): Bits {
    seq(16, k => !Pixel(a, k))
  }

  // Shifts of a sixteen-bit word; what is shifted out is lost.
  function ShiftLeft(a: Bits, n: int): Bits
    requires 0 <= n <= 16
  {
    a[n..] + seq(n, k => false)
  }

  function ShiftRight(a: Bits, n: int): Bits
    requires 0 <= n <= 16
  {
    seq(n, k => false) + a[..16 - n]
  }

  function NoBits(): Bits {
    seq(16, k => false)
  }

  function AllOnes(): Bits {
    seq(16, k => true)
  }

  // Entry n of the table of masks: the n rightmost bits.
  function RightMask(n: int): Bits {
    seq(16, k => k >= 16 - n)
  }

  // The number that a row of bits stands for.
  function Value(b: seq<bool>): nat {
    if b == [] then 0 else 2 * Value(b[..|b| - 1]) + (if b[|b| - 1] then 1 else 0)
  }

  lemma {:induction false} MaskValue(b: seq<bool>, n: nat)
    requires n <= |b| && forall k :: 0 <= k < |b| ==> (b[k] <==> k >= |b| - n)
    ensures Value(b) == Pow2(n) - 1
  {
    if b != [] {
      MaskValue(b[..|b| - 1], if n == 0 then 0 else n - 1);
    }
  }

  // The table holds the numbers 0, 1, 3, 7 and so on up to 65535.
  lemma {:induction false} TableOfMasks(n: nat)
    requires n <= 16
    ensures Value(RightMask(n)) == Pow2(n) - 1
  {
    MaskValue(RightMask(n), n);
  }

  // A pixel under a mask comes from one word, beside it from the other.
  lemma {:induction false} ChoiceBit(m: Bits, a: Bits, b: Bits, k: int)
    requires Position(k)
    ensures Pixel(Or(And(m, a), And(Not(m), b)), k) <==> if Pixel(m, k) then Pixel(a, k) else Pixel(b, k)
    ensures Pixel(Or(And(a, m), And(b, Not(m))), k) <==> if Pixel(m, k) then Pixel(a, k) else Pixel(b, k)
  {
  }

  // A sixteen-bit rotation to the left.
  function Rotated(w: Bits, n: int): Bits
    requires 0 <= n <= 16
  {
    Or(ShiftLeft(w, n), ShiftRight(w, 16 - n))
  }

  lemma {:induction false} RotatedBit(w: Bits, n: int, k: int)
    requires 0 <= n < 16 && Position(k)
    ensures Pixel(Rotated(w, n), k) <==> Pixel(w, if k + n < 16 then k + n else k + n - 16)
  {
    if k + n < 16 {
      assert ShiftLeft(w, n)[k] == w[k + n];
    } else {
      assert ShiftRight(w, 16 - n)[k] == w[k + n - 16];
    }
  }

  // The sixteen combination rules

  predicate IsRule(rule: int) {
    0 <= rule < 16
  }

  function Merge(rule: int, source: Bits, dest: Bits): Bits
    requires IsRule(rule)
  {
    if rule == 0 then NoBits()
    else if rule == 1 then And(source, dest)
    else if rule == 2 then And(source, Not(dest))
    else if rule == 3 then source
    else if rule == 4 then And(Not(source), dest)
    else if rule == 5 then dest
    else if rule == 6 then Xor(source, dest)
    else if rule == 7 then Or(source, dest)
    else if rule == 8 then And(Not(source), Not(dest))
    else if rule == 9 then Xor(Not(source), dest)
    else if rule == 10 then Not(dest)
    else if rule == 11 then Or(source, Not(dest))
    else if rule == 12 then Not(source)
    else if rule == 13 then Or(Not(source), dest)
    else if rule == 14 then Or(Not(source), Not(dest))
    else AllOnes()
  }

  // A rule's number is its truth table: weight 1 for both pixels set, 2 for the source's alone, 4 for
  // the destination's alone, 8 for neither.
  function RuleWeight(source: bool, dest: bool): int {
    if source then if dest then 1 else 2 else if dest then 4 else 8
  }

  predicate RuleBit(rule: int, source: bool, dest: bool) {
    rule / RuleWeight(source, dest) % 2 == 1
  }

  lemma {:induction false} MergeBit(rule: int, s: Bits, d: Bits, k: int)
    requires IsRule(rule) && Position(k)
    ensures Pixel(Merge(rule, s, d), k) <==> RuleBit(rule, Pixel(s, k), Pixel(d, k))
  {
  }
}
