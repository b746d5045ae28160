// Where the method for a selector is found: the probe of a message dictionary, the walk along the
// superclasses, and what stands in for a message that is not understood.
module Methods {
  import opened Words
  import opened Objects

  const SUPERCLASS_INDEX := 0
  const MESSAGE_DICTIONARY_INDEX := 1
  const METHOD_ARRAY_INDEX := 1
  const SELECTOR_START := 2
  const DOES_NOT_UNDERSTAND: Word := 42

  // Bitwise and.
  function And(a: nat, b: nat): nat {
    if a == 0 || b == 0 then 0 else 2 * And(a / 2, b / 2) + (if a % 2 == 1 && b % 2 == 1 then 1 else 0)
  }

  lemma {:induction false} AndBelow(a: nat, b: nat)
    ensures And(a, b) <= a && And(a, b) <= b
  {
    if a != 0 && b != 0 {
      AndBelow(a / 2, b / 2);
    }
  }

  // A bit is in the result exactly if it is in both.
  lemma {:induction false} AndBit(a: nat, b: nat, j: nat)
    ensures And(a, b) / Pow2(j) % 2 == 1 <==> a / Pow2(j) % 2 == 1 && b / Pow2(j) % 2 == 1
  {
    if a == 0 || b == 0 {
      assert 0 / Pow2(j) == 0;
    } else if j > 0 {
      AndBit(a / 2, b / 2, j - 1);
      HalfThenShift(a, j);
      HalfThenShift(b, j);
      HalfThenShift(And(a, b), j);
    }
  }

  lemma {:induction false} HalfThenShift(a: nat, j: nat)
    requires j > 0
    ensures a / Pow2(j) == a / 2 / Pow2(j - 1)
  {
    var n, q := Pow2(j - 1), a / 2 / Pow2(j - 1);
    var r := a / 2 % n;
    assert a / 2 == q * n + r;
    assert 2 * (q * n) == q * (2 * n);
    RemainderIs(a, 2 * n, q, 2 * r + a % 2);
    assert a == (a / (2 * n)) * (2 * n) + a % (2 * n);
    SameFactor(a / (2 * n), q, 2 * n);
  }

  lemma {:induction false} SameFactor(x: int, y: int, n: int)
    requires n > 0 && x * n == y * n
    ensures x == y
  {
    if x != y {
      assert (x - y) * n == x * n - y * n;
      BigMultiple(x - y, n);
    }
  }

  // A mask of k ones is the remainder by a power of two.
  lemma {:induction false} AndMask(k: nat, b: nat)
    ensures And(Pow2(k) - 1, b) == b % Pow2(k)
  {
    if k != 0 {
      AndMask(k - 1, b / 2);
      AndStep(Pow2(k - 1), b);
    }
  }

  lemma {:induction false} AndStep(n: nat, b: nat)
    requires n > 0 && And(n - 1, b / 2) == b / 2 % n
    ensures And(2 * n - 1, b) == b % (2 * n)
  {
    HalfRemainder(b / 2, n, b);
    assert (2 * n - 1) / 2 == n - 1 && (2 * n - 1) % 2 == 1;
  }

  lemma {:induction false} HalfRemainder(half: nat, n: nat, b: nat)
    requires n > 0 && b / 2 == half
    ensures b % (2 * n) == 2 * (half % n) + b % 2
  {
    var q := half / n;
    assert half == q * n + half % n;
    assert 2 * (q * n) == q * (2 * n);
    RemainderIs(b, 2 * n, q, 2 * (half % n) + b % 2);
  }

  lemma {:induction false} RemainderIs(b: nat, n: nat, q: nat, r: nat)
    requires n > 0 && b == q * n + r && r < n
    ensures b % n == r
  {
    var d := b / n - q;
    assert b == (b / n) * n + b % n;
    assert d * n == (b / n) * n - q * n;
    if d != 0 {
      BigMultiple(d, n);
    }
  }

  lemma {:induction false} BigMultiple(d: int, n: int)
    requires d != 0 && n > 0
    ensures d * n >= n || d * n <= -n
  {
    if d > 0 {
      assert (d - 1) * n >= 0;
    } else {
      assert (-d - 1) * n >= 0;
    }
  }

  // The probe.  A dictionary holds its selectors from field 2 on; a method stands in the method
  // array at the place of its selector.

  // A dictionary with room for a selector at least.
  predicate IsDictionary(keys: seq<Word>) {
    |keys| > SELECTOR_START
  }

  function Capacity(keys: seq<Word>): int {
    |keys| - SELECTOR_START
  }

  // Where the probe starts, counted from the first selector.
  function Home(keys: seq<Word>, selector: Word): nat
    requires IsDictionary(keys)
  {
    And(Capacity(keys) - 1, selector / 2)
  }

  // The slot after n steps from the first selector, going round once.
  function Round(keys: seq<Word>, n: int): int {
    SELECTOR_START + if n < Capacity(keys) then n else n - Capacity(keys)
  }

  // The d-th slot that is looked at.
  function SlotAt(keys: seq<Word>, selector: Word, d: int): int
    requires IsDictionary(keys)
  {
    Round(keys, Home(keys, selector) + d)
  }

  function KeyAt(keys: seq<Word>, i: int): Word {
    if 0 <= i < |keys| then keys[i] else NIL_POINTER
  }

  // The slot of the selector from the d-th one on; -1 when nil comes first, or nothing.
  function Probe(keys: seq<Word>, selector: Word, d: nat): int
    requires IsDictionary(keys)
    decreases Capacity(keys) - d
  {
    if d >= Capacity(keys) then -1
    else
      var i := SlotAt(keys, selector, d);
      if KeyAt(keys, i) == NIL_POINTER then -1 else if KeyAt(keys, i) == selector then i
        else Probe(keys, selector, d + 1)
  }

  lemma {:induction false} HomeInside(keys: seq<Word>, selector: Word)
    requires IsDictionary(keys)
    ensures Home(keys, selector) < Capacity(keys)
  {
    AndBelow(Capacity(keys) - 1, selector / 2);
  }

  // With as many slots as a power of two the probe starts at the hash modulo that number, and goes up and round.
  lemma {:induction false} HomeIsRemainder(keys: seq<Word>, selector: Word, k: nat)
    requires IsDictionary(keys) && |keys| - 2 == Pow2(k)
    ensures Home(keys, selector) == selector / 2 % Pow2(k)
    ensures forall d {:trigger SlotAt(keys, selector, d)} :: 0 <= d < |keys| - 2 ==>
      SlotAt(keys, selector, d) == 2 + (selector / 2 + d) % (|keys| - 2)
  {
    AndMask(k, selector / 2);
    forall d | 0 <= d < |keys| - 2
      ensures SlotAt(keys, selector, d) == 2 + (selector / 2 + d) % (|keys| - 2)
    {
      SumRemainder(selector / 2, d, |keys| - 2);
    }
  }

  lemma {:induction false} SumRemainder(a: nat, d: nat, n: nat)
    requires d < n
    ensures (a + d) % n == if a % n + d < n then a % n + d else a % n + d - n
  {
    var q := a / n;
    assert a == q * n + a % n;
    if a % n + d < n {
      RemainderIs(a + d, n, q, a % n + d);
    } else {
      assert (q + 1) * n == q * n + n;
      RemainderIs(a + d, n, q + 1, a % n + d - n);
    }
  }

  // The first d slots hold neither nil nor the selector.
  ghost predicate PassedOver(keys: seq<Word>, selector: Word, d: int)
    requires IsDictionary(keys)
  {
    forall e {:trigger SlotAt(keys, selector, e)} :: 0 <= e < d ==>
      KeyAt(keys, SlotAt(keys, selector, e)) != NIL_POINTER && KeyAt(keys, SlotAt(keys, selector, e)) != selector
  }

  lemma {:induction false} ProbePasses(keys: seq<Word>, selector: Word, d: nat)
    requires IsDictionary(keys) && PassedOver(keys, selector, d) && d <= Capacity(keys)
    ensures Probe(keys, selector, 0) == Probe(keys, selector, d)
  {
    if d > 0 {
      ProbePasses(keys, selector, d - 1);
      assert KeyAt(keys, SlotAt(keys, selector, d - 1)) != selector;
    }
  }

  // The number of steps from the start of the probe to slot i.
  function Distance(keys: seq<Word>, selector: Word, i: int): int
    requires IsDictionary(keys)
  {
    var n := i - SELECTOR_START - Home(keys, selector);
    if n >= 0 then n else n + Capacity(keys)
  }

  lemma {:induction false} DistanceIs(keys: seq<Word>, selector: Word, i: int)
    requires IsDictionary(keys) && SELECTOR_START <= i < |keys|
    ensures 0 <= Distance(keys, selector, i) < Capacity(keys) &&
      SlotAt(keys, selector, Distance(keys, selector, i)) == i
    ensures forall d {:trigger SlotAt(keys, selector, d)} ::
      0 <= d < Capacity(keys) && SlotAt(keys, selector, d) == i ==> d == Distance(keys, selector, i)
  {
    HomeInside(keys, selector);
  }

  // No nil between the start of the probe and slot i.
  ghost predicate Unbroken(keys: seq<Word>, selector: Word, i: int)
    requires IsDictionary(keys)
  {
    forall d {:trigger SlotAt(keys, selector, d)} :: 0 <= d < Distance(keys, selector, i) ==>
      KeyAt(keys, SlotAt(keys, selector, d)) != NIL_POINTER
  }

  // slot i is the only one of the selector.
  ghost predicate OnlyAt(keys: seq<Word>, selector: Word, i: int) {
    SELECTOR_START <= i < |keys| && keys[i] == selector && forall j {:trigger keys[j]} ::
      SELECTOR_START <= j < |keys| && keys[j] == selector ==> j == i
  }

  // A selector's only slot is found exactly if no nil stands between it and the start of the probe.
  lemma {:induction false} ProbeExactly(keys: seq<Word>, selector: Word, i: int)
    requires IsDictionary(keys) && selector != NIL_POINTER && OnlyAt(keys, selector, i)
    ensures Probe(keys, selector, 0) == i <==> Unbroken(keys, selector, i)
    ensures Probe(keys, selector, 0) == i || Probe(keys, selector, 0) == -1
  {
    HomeInside(keys, selector);
    DistanceIs(keys, selector, i);
    ProbeFrom(keys, selector, i, 0);
  }

  lemma {:induction false} ProbeFrom(keys: seq<Word>, selector: Word, i: int, d: nat)
    requires IsDictionary(keys) && selector != NIL_POINTER && OnlyAt(keys, selector, i) &&
      d <= Distance(keys, selector, i) < Capacity(keys)
    requires Home(keys, selector) < Capacity(keys) && SlotAt(keys, selector, Distance(keys, selector, i)) == i
    requires forall e {:trigger SlotAt(keys, selector, e)} :: 0 <= e < d ==>
      KeyAt(keys, SlotAt(keys, selector, e)) != NIL_POINTER
    ensures Probe(keys, selector, d) == (if Unbroken(keys, selector, i) then i else -1)
    decreases Distance(keys, selector, i) - d
  {
    var at := SlotAt(keys, selector, d);
    if d < Distance(keys, selector, i) {
      if KeyAt(keys, at) != NIL_POINTER {
        assert KeyAt(keys, at) != selector by {
          DistanceIs(keys, selector, i);
        }
        ProbeFrom(keys, selector, i, d + 1);
      }
    }
  }

  // A selector that is in no slot is not found.
  lemma {:induction false} ProbeAbsent(keys: seq<Word>, selector: Word, d: nat)
    requires IsDictionary(keys) && forall j {:trigger keys[j]} :: SELECTOR_START <= j < |keys| ==> keys[j] != selector
    ensures Probe(keys, selector, d) == -1
    decreases Capacity(keys) - d
  {
    if d < Capacity(keys) {
      HomeInside(keys, selector);
      ProbeAbsent(keys, selector, d + 1);
    }
  }

  // nil itself is never found.
  lemma {:induction false} ProbeNil(keys: seq<Word>, d: nat)
    requires IsDictionary(keys)
    ensures Probe(keys, NIL_POINTER, d) == -1
    decreases Capacity(keys) - d
  {
    if d < Capacity(keys) {
      ProbeNil(keys, d + 1);
    }
  }

  // As dictionaries are kept: every selector in one slot, with no nil before it.
  ghost predicate WellFilled(keys: seq<Word>) {
    IsDictionary(keys) && forall i {:trigger keys[i]} :: SELECTOR_START <= i < |keys| && keys[i] != NIL_POINTER ==>
      OnlyAt(keys, keys[i], i) && Unbroken(keys, keys[i], i)
  }

  // In such a dictionary exactly the selectors that are there are found, each at its place.
  lemma {:induction false} ProbeComplete(keys: seq<Word>, selector: Word)
    requires WellFilled(keys) && selector != NIL_POINTER
    ensures forall i {:trigger KeyAt(keys, i)} :: SELECTOR_START <= i < |keys| ==>
      (Probe(keys, selector, 0) == i <==> KeyAt(keys, i) == selector)
    ensures Probe(keys, selector, 0) == -1 <==>
      forall i {:trigger keys[i]} :: SELECTOR_START <= i < |keys| ==> keys[i] != selector
  {
    if i :| SELECTOR_START <= i < |keys| && keys[i] == selector {
      ProbeExactly(keys, selector, i);
    } else {
      ProbeAbsent(keys, selector, 0);
    }
  }

  // The walk

  datatype Found = Nothing | Method(newMethod: Word, primitive: nat)

  function DictionaryOf(o: Heap, cls: int): Word {
    Field(o, cls, MESSAGE_DICTIONARY_INDEX)
  }

  function SuperclassOf(o: Heap, cls: int): Word {
    Field(o, cls, SUPERCLASS_INDEX)
  }

  predicate HasDictionary(o: Heap, cls: int) {
    DictionaryOf(o, cls) in o && IsDictionary(o[DictionaryOf(o, cls)])
  }

  // What stands in dictionary d at slot i.
  function MethodAt(o: Heap, d: int, i: int): Word {
    Field(o, Field(o, d, METHOD_ARRAY_INDEX), i - SELECTOR_START)
  }

  function FindIn(o: Heap, d: int, selector: Word): Found {
    if d in o && IsDictionary(o[d]) && Probe(o[d], selector, 0) >= 0
    then Method(MethodAt(o, d, Probe(o[d], selector, 0)), PrimitiveIndexOf(o, MethodAt(o, d, Probe(o[d], selector, 0))))
    else Nothing
  }

  // chain is cls and its superclasses, up to the last.
  ghost predicate ChainOf(o: Heap, cls: int, chain: seq<int>)
    decreases |chain|
  {
    if chain == [] then cls == NIL_POINTER
    else cls != NIL_POINTER && chain[0] == cls && HasDictionary(o, cls) && ChainOf(o, SuperclassOf(o, cls), chain[1..])
  }

  function FindFrom(o: Heap, chain: seq<int>, selector: Word): Found {
    if chain == [] then Nothing
    else if FindIn(o, DictionaryOf(o, chain[0]), selector).Method? then FindIn(o, DictionaryOf(o, chain[0]), selector)
    else FindFrom(o, chain[1..], selector)
  }

  // Class k of the chain defines the selector, and none before it does.
  ghost predicate NearestAt(o: Heap, chain: seq<int>, selector: Word, f: Found, k: int) {
    0 <= k < |chain| && FindIn(o, DictionaryOf(o, chain[k]), selector) == f &&
    forall j {:trigger chain[j]} :: 0 <= j < k ==> FindIn(o, DictionaryOf(o, chain[j]), selector).Nothing?
  }

  // In the words themselves: the dictionary of cls, its field 1, holds the selector k places after its second
  // field, and m is field k of the array that is the dictionary's field 1.
  ghost predicate Defines(o: Heap, cls: int, selector: Word, m: Word) {
    var d := Field(o, cls, 1);
    exists k {:trigger Field(o, Field(o, d, 1), k)} :: 0 <= k < SizeOf(o, d) - 2 && Field(o, d, k + 2) == selector &&
      m == Field(o, Field(o, d, 1), k)
  }

  lemma {:induction false} ProbeInside(keys: seq<Word>, selector: Word, d: nat)
    requires IsDictionary(keys) && Probe(keys, selector, d) >= 0
    ensures SELECTOR_START <= Probe(keys, selector, d) < |keys| && keys[Probe(keys, selector, d)] == selector
    decreases Capacity(keys) - d
  {
    HomeInside(keys, selector);
    if KeyAt(keys, SlotAt(keys, selector, d)) != selector {
      ProbeInside(keys, selector, d + 1);
    }
  }

  lemma {:induction false} FindInDefines(o: Heap, cls: int, selector: Word)
    requires FindIn(o, DictionaryOf(o, cls), selector).Method?
    ensures Defines(o, cls, selector, FindIn(o, DictionaryOf(o, cls), selector).newMethod)
  {
    var d := DictionaryOf(o, cls);
    ProbeInside(o[d], selector, 0);
    var i := Probe(o[d], selector, 0);
    var k, m := i - 2, FindIn(o, d, selector).newMethod;
    assert Field(o, d, k + 2) == selector && m == Field(o, Field(o, d, 1), k);
  }

  // Class c of the chain is the one reached from cls by so many superclasses, each field 0 of the one before.
  lemma {:induction false} ChainInWords(o: Heap, cls: int, chain: seq<int>)
    requires ChainOf(o, cls, chain)
    ensures if chain == [] then cls == NIL_POINTER
      else chain[0] == cls && Field(o, chain[|chain| - 1], 0) == NIL_POINTER
    ensures forall k {:trigger chain[k]} :: 0 <= k < |chain| - 1 ==>
      var next := k + 1; chain[next] == Field(o, chain[k], 0) && chain[next] != NIL_POINTER
    decreases |chain|
  {
    if chain != [] {
      var rest := chain[1..];
      ChainInWords(o, SuperclassOf(o, cls), rest);
      assert rest != [] ==> chain[|chain| - 1] == rest[|rest| - 1];
      forall k {:trigger chain[k]} | 0 <= k < |chain| - 1
        ensures chain[k + 1] == Field(o, chain[k], 0) && chain[k + 1] != NIL_POINTER
      {
        assert chain[k + 1] == rest[k];
        assert k > 0 ==> chain[k] == rest[k - 1] && rest[k - 1 + 1] == rest[k];
      }
    }
  }

  // What is found is defined, in the words themselves, in some class of the chain, and it comes with its primitive.
  lemma {:induction false} FoundInWords(o: Heap, chain: seq<int>, selector: Word, f: Found)
    requires f.Method? && FindFrom(o, chain, selector) == f
    ensures exists k {:trigger chain[k]} :: 0 <= k < |chain| && Defines(o, chain[k], selector, f.newMethod)
    ensures f.primitive == PrimitiveIndexOf(o, f.newMethod)
  {
    if FindIn(o, DictionaryOf(o, chain[0]), selector).Method? {
      FindInDefines(o, chain[0], selector);
    } else {
      FoundInWords(o, chain[1..], selector, f);
      var k :| 0 <= k < |chain| - 1 && Defines(o, chain[1..][k], selector, f.newMethod);
      assert chain[1..][k] == chain[k + 1];
    }
  }

  // What is found is the definition of the nearest class that has one.
  lemma {:induction false} Nearest(o: Heap, chain: seq<int>, selector: Word, f: Found)
    requires f.Method?
    ensures FindFrom(o, chain, selector) == f <==> exists k :: NearestAt(o, chain, selector, f, k)
  {
    if chain != [] {
      var rest := chain[1..];
      var here := FindIn(o, DictionaryOf(o, chain[0]), selector);
      if here.Method? {
        assert here == f ==> NearestAt(o, chain, selector, f, 0);
        forall k | NearestAt(o, chain, selector, f, k)
          ensures here == f
        {
          NoneBefore(o, chain, selector, f, k);
        }
      } else {
        Nearest(o, rest, selector, f);
        if k :| NearestAt(o, rest, selector, f, k) {
          OneFurther(o, chain, selector, f, k);
        }
        if k :| NearestAt(o, chain, selector, f, k) {
          OneFurther(o, chain, selector, f, k);
        }
      }
    }
  }

  lemma {:induction false} NoneBefore(o: Heap, chain: seq<int>, selector: Word, f: Found, k: int)
    requires NearestAt(o, chain, selector, f, k)
    ensures k > 0 ==> FindIn(o, DictionaryOf(o, chain[0]), selector).Nothing?
  {
  }

  lemma {:induction false} OneFurther(o: Heap, chain: seq<int>, selector: Word, f: Found, k: int)
    requires chain != [] && FindIn(o, DictionaryOf(o, chain[0]), selector).Nothing? && f.Method?
    ensures NearestAt(o, chain[1..], selector, f, k) ==> NearestAt(o, chain, selector, f, k + 1)
    ensures NearestAt(o, chain, selector, f, k) ==> NearestAt(o, chain[1..], selector, f, k - 1)
  {
    var rest := chain[1..];
    if NearestAt(o, rest, selector, f, k) {
      assert rest[k] == chain[k + 1];
      forall j | 0 <= j < k + 1
        ensures FindIn(o, DictionaryOf(o, chain[j]), selector).Nothing?
      {
        assert j > 0 ==> rest[j - 1] == chain[j];
      }
    }
    if NearestAt(o, chain, selector, f, k) {
      assert k > 0 && rest[k - 1] == chain[k];
      forall j | 0 <= j < k - 1
        ensures FindIn(o, DictionaryOf(o, rest[j]), selector).Nothing?
      {
        assert rest[j] == chain[j + 1];
      }
    }
  }

  // What a send comes to: the method for the selector, or that for doesNotUnderstand:, or nothing.
  datatype Resolution = Understood(newMethod: Word, primitive: nat) | Instead(newMethod: Word,
                                   primitive: nat) | Unresolved

  function Resolve(o: Heap, chain: seq<int>, selector: Word): Resolution {
    match FindFrom(o, chain, selector)
    case Method(m, n) => Understood(m, n)
    case Nothing =>
      if selector == DOES_NOT_UNDERSTAND then Unresolved
      else
        match FindFrom(o, chain, DOES_NOT_UNDERSTAND)
        case Method(m, n) => Instead(m, n)
        case Nothing => Unresolved
  }

  // The objects that the search along the chain reads are among `code`, and the same in o'.
  ghost predicate SameCode(o: Heap, o': Heap, code: set<int>) {
    forall p {:trigger p in code} :: p in code ==> (p in o <==> p in o') && (p in o ==> o'[p] == o[p])
  }

  ghost predicate CodeOf(o: Heap, chain: seq<int>, code: set<int>) {
    forall k {:trigger chain[k]} :: 0 <= k < |chain| ==>
      chain[k] in code && DictionaryOf(o, chain[k]) in code &&
        Field(o, DictionaryOf(o, chain[k]), METHOD_ARRAY_INDEX) in code &&
      forall i {:trigger MethodAt(o, DictionaryOf(o, chain[k]), i)} :: MethodAt(o, DictionaryOf(o, chain[k]), i) in code
  }

  lemma {:induction false} SamePrimitive(o: Heap, o': Heap, code: set<int>, m: Word)
    requires SameCode(o, o', code) && m in code
    ensures PrimitiveIndexOf(o', m) == PrimitiveIndexOf(o, m)
  {
    assert forall i :: Field(o', m, i) == Field(o, m, i);
  }

  lemma {:induction false} SameFind(o: Heap, o': Heap, chain: seq<int>, code: set<int>, cls: int, selector: Word)
    requires SameCode(o, o', code) && CodeOf(o, chain, code)
    ensures FindFrom(o', chain, selector) == FindFrom(o, chain, selector)
    ensures CodeOf(o', chain, code) && (ChainOf(o, cls, chain) ==> ChainOf(o', cls, chain))
  {
    if chain != [] {
      var c, rest := chain[0], chain[1..];
      var d := DictionaryOf(o, c);
      assert c in code && DictionaryOf(o', c) == d && SuperclassOf(o', c) == SuperclassOf(o, c);
      assert forall i :: MethodAt(o', d, i) == MethodAt(o, d, i) by {
        assert d in code && Field(o, d, METHOD_ARRAY_INDEX) in code;
      }
      if FindIn(o, d, selector).Method? {
        SamePrimitive(o, o', code, MethodAt(o, d, Probe(o[d], selector, 0)));
      }
      assert FindIn(o', d, selector) == FindIn(o, d, selector);
      forall k | 0 <= k < |rest|
        ensures rest[k] == chain[k + 1]
      {
      }
      SameFind(o, o', rest, code, SuperclassOf(o, c), selector);
      SameCodeOf(o, o', chain, code);
    }
  }

  lemma {:induction false} SameCodeOf(o: Heap, o': Heap, chain: seq<int>, code: set<int>)
    requires SameCode(o, o', code) && CodeOf(o, chain, code)
    ensures CodeOf(o', chain, code)
  {
    forall k | 0 <= k < |chain|
      ensures chain[k] in code && DictionaryOf(o', chain[k]) in code &&
        Field(o', DictionaryOf(o', chain[k]), METHOD_ARRAY_INDEX) in code
      ensures forall i {:trigger MethodAt(o', DictionaryOf(o', chain[k]), i)} ::
        MethodAt(o', DictionaryOf(o', chain[k]), i) in code
    {
      var d := DictionaryOf(o, chain[k]);
      assert chain[k] in code && d in code && DictionaryOf(o', chain[k]) == d &&
        Field(o, d, METHOD_ARRAY_INDEX) in code;
      forall i
        ensures MethodAt(o', d, i) in code
      {
        assert MethodAt(o', d, i) == MethodAt(o, d, i);
      }
    }
  }
}
