// When the objects of an image go into the segments: the loading, which never goes back to a segment that it
// has left, finds room for them exactly if there is room for them at all in their order.
module Packing {
  import opened Words
  import opened Memory
  import opened ObjectLoading

  // The words that the objects before entry p take of segment k, when object q goes into segment seg[q].
  ghost function Load(m: Contents, seg: map<int, int>, k: int, p: int): nat
    decreases m, p
  {
    if p <= 2 then 0
    else Load(m, seg, k, p - 2) + if p - 2 in m && p - 2 in seg && seg[p - 2] == k then SpaceC(m, p - 2) else 0
  }

  // Every object has a segment, not before that of an object before it, and no segment is too small.
  ghost predicate Packs(m: Contents, seg: map<int, int>) {
    seg.Keys == m.Keys && (forall p {:trigger seg[p]} :: p in m ==> 0 <= seg[p] < HEAP_SEGMENT_COUNT) &&
    (forall p, q {:trigger seg[p], seg[q]} :: p in m && q in m && p < q ==> seg[p] <= seg[q]) &&
    forall k {:trigger Load(m, seg, k, OBJECT_TABLE_SIZE)} :: 0 <= k < HEAP_SEGMENT_COUNT ==>
      Load(m, seg, k, OBJECT_TABLE_SIZE) <= ROOM
  }

  // Every object fits a segment.
  ghost predicate EachFits(m: Contents) {
    AllOops(m) && forall p {:trigger SpaceC(m, p)} :: p in m ==> SpaceC(m, p) <= ROOM
  }

  lemma {:induction false} LoadGrows(m: Contents, seg: map<int, int>, k: int, p: int, q: int)
    requires p <= q && (q - p) % 2 == 0
    ensures Load(m, seg, k, p) <= Load(m, seg, k, q)
    decreases q - p
  {
    if p < q {
      LoadGrows(m, seg, k, p, q - 2);
    }
  }

  // Objects before p are in no segment beyond k.
  ghost predicate Upto(m: Contents, seg: map<int, int>, p: int, k: int) {
    forall q {:trigger seg[q]} :: q in m && q in seg && q < p ==> seg[q] <= k
  }

  lemma {:induction false} NoLoad(m: Contents, seg: map<int, int>, k: int, p: int, last: int)
    requires Upto(m, seg, p, last) && last < k
    ensures Load(m, seg, k, p) == 0
    decreases p
  {
    if p > 2 {
      NoLoad(m, seg, k, p - 2, last);
    }
  }

  // The loading is no further than any packing: it is in an earlier segment than `last`, or in that and has used
  // no more of it.
  ghost predicate NoFurther(m: Contents, seg: map<int, int>, p: int, last: int) {
    var x := Filled(m, p);
    x.ok && |x.used| == HEAP_SEGMENT_COUNT && 0 <= x.dest <= last < HEAP_SEGMENT_COUNT &&
    (forall k {:trigger x.used[k]} :: x.dest < k < HEAP_SEGMENT_COUNT ==> x.used[k] == 0) &&
    (x.dest == last ==> x.used[last] <= Load(m, seg, last, p))
  }

  lemma {:induction false} StepNoFurther(m: Contents, seg: map<int, int>, p: int, last: int)
    requires Packs(m, seg) && EachFits(m) && p in m && p % 2 == 0 && 2 <= p < OBJECT_TABLE_SIZE
    requires Upto(m, seg, p, last) && last <= seg[p] && NoFurther(m, seg, p, last)
    ensures NoFurther(m, seg, p + 2, seg[p])
  {
    var next, k := p + 2, seg[p];
    assert Load(m, seg, k, next) == Load(m, seg, k, p) + SpaceC(m, p);
    assert Load(m, seg, k, OBJECT_TABLE_SIZE) <= ROOM;
    var end := OBJECT_TABLE_SIZE;
    LoadGrows(m, seg, k, next, end);
    if last < k {
      NoLoad(m, seg, k, p, last);
    }
    assert Filled(m, next) == FilledNext(m, p, Filled(m, p));
  }

  lemma {:induction false} StaysAhead(m: Contents, seg: map<int, int>, p: int) returns (last: int)
    requires Packs(m, seg) && EachFits(m) && p % 2 == 0 && 2 <= p <= OBJECT_TABLE_SIZE
    ensures Upto(m, seg, p, last) && NoFurther(m, seg, p, last)
    ensures last == 0 || exists q {:trigger seg[q]} :: q in m && q < p && seg[q] == last
    decreases p
  {
    last := 0;
    if p > 2 {
      var before := p - 2;
      last := StaysAhead(m, seg, before);
      if before in m {
        StepNoFurther(m, seg, before, last);
        last := seg[before];
      } else {
        assert Filled(m, p) == Filled(m, before);
      }
    }
  }

  // The segments into which the loading puts the objects.
  ghost function Loading(m: Contents): map<int, int> {
    map q | q in m :: Filled(m, q + 2).dest
  }

  // So far the loading has used of each segment what the objects take that it has put there.
  ghost predicate LoadingIs(m: Contents, p: int) {
    var x := Filled(m, p);
    |x.used| == HEAP_SEGMENT_COUNT && 0 <= x.dest < HEAP_SEGMENT_COUNT &&
    (forall k {:trigger x.used[k]} :: 0 <= k < HEAP_SEGMENT_COUNT ==>
       x.used[k] == Load(m, Loading(m), k, p) <= ROOM && (k > x.dest ==> x.used[k] == 0)) &&
    forall q {:trigger Loading(m)[q]} :: q in m && q < p ==> 0 <= Loading(m)[q] <= x.dest
  }

  lemma {:induction false} LoadingOn(m: Contents, p: int)
    requires EachFits(m) && p % 2 == 0 && 2 <= p && LoadingIs(m, p) && Filled(m, p + 2).ok
    ensures LoadingIs(m, p + 2) && Filled(m, p).ok && Filled(m, p).dest <= Filled(m, p + 2).dest
  {
    var x, next := Filled(m, p), p + 2;
    var y := Filled(m, next);
    assert y == FilledNext(m, p, x);
    forall k | 0 <= k < HEAP_SEGMENT_COUNT
      ensures y.used[k] == Load(m, Loading(m), k, next) <= ROOM && (k > y.dest ==> y.used[k] == 0)
    {
      assert Load(m, Loading(m), k, next) ==
        Load(m, Loading(m), k, p) + if p in m && y.dest == k then SpaceC(m, p) else 0;
      assert x.used[k] == Load(m, Loading(m), k, p);
    }
    forall q | q in m && q < next
      ensures 0 <= Loading(m)[q] <= y.dest
    {
      if q >= p {
        assert Oop(q) && q == p;
      }
    }
  }

  lemma {:induction false} LoadingBegins(m: Contents)
    requires AllOops(m)
    ensures LoadingIs(m, 2) && forall q {:trigger q in m} :: q in m ==> 2 <= q
  {
    forall q | q in m
      ensures 2 <= q
    {
      assert Oop(q);
    }
    var x := Filled(m, 2);
    forall k | 0 <= k < HEAP_SEGMENT_COUNT
      ensures x.used[k] == Load(m, Loading(m), k, 2) == 0
    {
    }
  }

  lemma {:induction false} LoadingSoFar(m: Contents, p: int)
    requires EachFits(m) && p % 2 == 0 && 2 <= p && Filled(m, p).ok
    ensures LoadingIs(m, p)
    ensures forall q, r {:trigger Loading(m)[q], Loading(m)[r]} :: q in m && r in m && q < r < p ==>
      Loading(m)[q] <= Loading(m)[r]
    decreases p
  {
    if p > 2 {
      var before := p - 2;
      assert Filled(m, before).ok;
      LoadingSoFar(m, before);
      LoadingOn(m, before);
      forall q, r | q in m && r in m && q < r < p
        ensures Loading(m)[q] <= Loading(m)[r]
      {
        if r >= before {
          assert Oop(r) && r == before;
        }
      }
    } else {
      LoadingBegins(m);
    }
  }

  // The objects, in their order, can be shared out to the segments.
  ghost predicate CanPack(m: Contents) {
    exists seg :: Packs(m, seg)
  }

  // The loading succeeds exactly if they can.
  lemma {:induction false} LoadsIfItCan(m: Contents)
    requires EachFits(m)
    ensures Filled(m, OBJECT_TABLE_SIZE).ok <==> CanPack(m)
  {
    var end := OBJECT_TABLE_SIZE;
    if seg :| Packs(m, seg) {
      var last := StaysAhead(m, seg, end);
    }
    if Filled(m, end).ok {
      var x := Filled(m, end);
      LoadingSoFar(m, end);
      forall k | 0 <= k < HEAP_SEGMENT_COUNT
        ensures Load(m, Loading(m), k, end) <= ROOM
      {
        assert x.used[k] <= ROOM;
      }
      forall p | p in m
        ensures 0 <= Loading(m)[p] < HEAP_SEGMENT_COUNT
      {
        assert Oop(p);
      }
      assert Packs(m, Loading(m));
    }
  }
}
