// The interpreter's contexts and those in the object memory: the calls that a send and a return make on the
// memory leave there the very objects that sending and returning leave in the interpreter's heap.
module Agreement {
  import opened Words
  import opened Memory
  import opened MemoryRuns
  import opened RefCounts
  import opened Freeing
  import opened StorePointers
  import opened Accounts
  import opened CallCounts
  import opened Activations
  import opened PointerFields
  import Objects
  import Contexts

  // All objects of the heap are allocated and have the same fields in the memory.
  ghost predicate ShowsAll(x: Config, o: Objects.Heap) {
    forall p {:trigger p in o} :: p in o ==> p in x.g.alloc && Shows(x.s, p, o)
  }

  // Field f of the caller when t steps of the send are made, if it was w;
  function CallerWord(c: Send, t: int, f: int, w: int): int {
    if f == 1 && t > 5 + 2 * |c.moved| then c.instructionPointer
    else if f == 2 && t > 6 + 2 * |c.moved| then c.stackPointer
    else if c.first <= f < c.first + |c.moved| && t > 6 + 2 * (f - c.first) then NIL_POINTER
    else w
  }

  // of the callee.
  function CalleeWord(c: Send, t: int, f: int): int {
    if f == 0 && t > 1 then c.caller
    else if f == 1 && t > 2 then c.initial
    else if f == 2 && t > 3 then c.temporaries
    else if f == 3 && t > 4 then c.newMethod
    else if 5 <= f < 5 + |c.moved| && t > 5 + 2 * (f - 5) then c.moved[f - 5]
    else NIL_POINTER
  }

  lemma {:induction false} CallerStep(c: Send, t: nat, f: nat, w: int)
    requires t < SendLength(c) && c.caller != c.callee && c.first >= 6
    ensures Written(SendStep(c, t), c.caller, WordAt(f), CallerWord(c, t, f, w)) == CallerWord(c, t + 1, f, w)
  {
  }

  lemma {:induction false} CalleeStep(c: Send, t: nat, f: nat)
    requires 1 <= t < SendLength(c) && c.caller != c.callee
    ensures Written(SendStep(c, t), c.callee, WordAt(f), CalleeWord(c, t, f)) == CalleeWord(c, t + 1, f)
  {
  }

  lemma {:induction false} OtherStep(c: Send, t: nat, p: int, i: int, w: int)
    requires t < SendLength(c) && p != c.caller && p != c.callee
    ensures Written(SendStep(c, t), p, i, w) == w
  {
  }

  lemma {:induction false} SendingSound(run: seq<Config>, c: Send, t: nat)
    requires Sending(run, c, SendLength(c)) && t <= SendLength(c)
    ensures SoundAt(run[t])
  {
    if t > 0 {
      SendingSound(run, c, t - 1);
      assert StepMade(run, c, t - 1);
      MakesSound(run[t - 1], SendStep(c, t - 1), run[t]);
    }
  }

  lemma {:induction false} SendingRemains(run: seq<Config>, c: Send, t: nat, p: int)
    requires Sending(run, c, SendLength(c)) && t < SendLength(c) && p in run[t].g.alloc && p in run[t + 1].g.alloc
    ensures Remains(run[t], SendStep(c, t), run[t + 1], p)
  {
    SendingSound(run, c, t);
    assert StepMade(run, c, t);
    MakesRemains(run[t], SendStep(c, t), run[t + 1], p);
  }

  // What was allocated before the send stays so.
  lemma {:induction false} StaysAllocated(run: seq<Config>, c: Send, t: nat, p: int)
    requires Sending(run, c, SendLength(c)) && t <= SendLength(c) && p in run[0].g.alloc
    ensures p in run[t].g.alloc && p != c.callee
  {
    assert StepMade(run, c, 0);
    NewContext(run[0], c, run[1]);
    if t > 0 {
      assert run[t].g.alloc == run[1].g.alloc;
    }
  }

  lemma {:induction false} CallerAfter(run: seq<Config>, c: Send, t: nat, f: nat)
    requires Sending(run, c, SendLength(c)) && t <= SendLength(c) && c.caller as int in run[0].g.alloc && c.first >= 6
    requires WordAt(f) < SizeOf(run[0].s, c.caller)
    ensures SizeOf(run[t].s, c.caller) == SizeOf(run[0].s, c.caller)
    ensures WordOf(run[t].s, c.caller, WordAt(f)) == CallerWord(c, t, f, WordOf(run[0].s, c.caller, WordAt(f)))
  {
    if t > 0 {
      var n := t - 1;
      CallerAfter(run, c, n, f);
      StaysAllocated(run, c, n, c.caller);
      StaysAllocated(run, c, t, c.caller);
      SendingRemains(run, c, n, c.caller);
      CallerStep(c, n, f, WordOf(run[0].s, c.caller, WordAt(f)));
    }
  }

  lemma {:induction false} CalleeAfter(run: seq<Config>, c: Send, t: nat, f: nat)
    requires Sending(run, c, SendLength(c)) && 1 <= t <= SendLength(c) && c.caller as int in run[0].g.alloc
    requires WordAt(f) < c.size
    ensures SizeOf(run[t].s, c.callee) == c.size
    ensures WordOf(run[t].s, c.callee, WordAt(f)) == CalleeWord(c, t, f)
  {
    var n := t - 1;
    StaysAllocated(run, c, t, c.caller);
    if n > 0 {
      CalleeAfter(run, c, n, f);
      assert c.callee as int in run[n].g.alloc && c.callee as int in run[t].g.alloc;
      SendingRemains(run, c, n, c.callee);
      CalleeStep(c, n, f);
    } else {
      assert StepMade(run, c, 0);
      NewContext(run[0], c, run[1]);
    }
  }

  lemma {:induction false} OtherAfter(run: seq<Config>, c: Send, t: nat, p: int, i: nat)
    requires Sending(run, c, SendLength(c)) && t <= SendLength(c) && p in run[0].g.alloc && p != c.caller
    requires i < SizeOf(run[0].s, p)
    ensures SizeOf(run[t].s, p) == SizeOf(run[0].s, p) && WordOf(run[t].s, p, i) == WordOf(run[0].s, p, i)
  {
    if t > 0 {
      var n := t - 1;
      OtherAfter(run, c, n, p, i);
      StaysAllocated(run, c, n, p);
      StaysAllocated(run, c, t, p);
      SendingRemains(run, c, n, p);
      OtherStep(c, n, p, i, WordOf(run[0].s, p, i));
    }
  }

  // The send that machine x makes for the method: where things are, and the words of its registers.
  ghost predicate SendOf(x: Contexts.Machine, m: Word, argumentCount: nat, c: Send) {
    c.caller == x.r.activeContext && c.newMethod == m && |c.moved| == argumentCount + 1 &&
    c.size == Contexts.FrameSize(x.o, m) + 2 && c.first == x.r.stackPointer - argumentCount &&
    (forall k {:trigger c.moved[k]} :: 0 <= k <= argumentCount ==>
      c.moved[k] == Objects.Field(x.o, x.r.activeContext, c.first + k)) &&
    IsFor(c.initial, Objects.InitialInstructionPointerOf(x.o, m)) &&
    IsFor(c.temporaries, Objects.TemporaryCountOf(x.o, m)) &&
    IsFor(c.instructionPointer, x.r.instructionPointer + 1) &&
    IsFor(c.stackPointer, x.r.stackPointer - argumentCount - 6)
  }

  predicate IsFor(w: Word, v: int) {
    Objects.IsIntegerValue(v) && w == Objects.IntegerObject(v)
  }

  lemma {:induction false} CalleeAgrees(x: Contexts.Machine, m: Word, argumentCount: nat, c: Send, f: nat)
    requires Contexts.Held(x) && Contexts.CanSend(x, c.callee, m, argumentCount) && SendOf(x, m, argumentCount, c)
    ensures CalleeWord(c, SendLength(c), f) == Contexts.AfterSend(x, c.callee, m, argumentCount, c.callee, f)
  {
    if 5 <= f <= 5 + argumentCount {
      assert c.moved[f - 5] == Objects.Field(x.o, x.r.activeContext, c.first + (f - 5));
    }
  }

  lemma {:induction false} CallerAgrees(x: Contexts.Machine, m: Word, argumentCount: nat, c: Send, f: nat)
    requires Contexts.Held(x) && Contexts.CanSend(x, c.callee, m, argumentCount) && SendOf(x, m, argumentCount, c)
    ensures CallerWord(c, SendLength(c), f, Objects.Field(x.o, c.caller, f)) ==
      Contexts.AfterSend(x, c.callee, m, argumentCount, c.caller, f)
  {
  }

  // The send has been made in the memory, and x and o are the interpreter's machine before and heap after it.
  ghost predicate SentBoth(run: seq<Config>, c: Send, x: Contexts.Machine, m: Word, argumentCount: nat,
                           o: Objects.Heap) {
    Sending(run, c, SendLength(c)) && ShowsAll(run[0], x.o) && SendOf(x, m, argumentCount, c) && Contexts.Held(x) &&
    Contexts.CanSend(x, c.callee, m, argumentCount) && o == Contexts.Activated(x, c.callee, m, argumentCount).o
  }

  lemma {:induction false} CalleeShown(run: seq<Config>, c: Send, x: Contexts.Machine, m: Word, argumentCount: nat,
                                       o: Objects.Heap)
    requires SentBoth(run, c, x, m, argumentCount, o)
    ensures Shows(run[SendLength(c)].s, c.callee, o)
  {
    var t := SendLength(c);
    assert c.caller in x.o;
    Contexts.ActivatedField(x, c.callee, m, argumentCount, c.callee, 0);
    CalleeAfter(run, c, t, 0);
    forall f | 0 <= f < |o[c.callee]|
      ensures Objects.Field(o, c.callee, f) == WordOf(run[t].s, c.callee, 2 + f)
    {
      Contexts.ActivatedField(x, c.callee, m, argumentCount, c.callee, f);
      CalleeAfter(run, c, t, f);
      CalleeAgrees(x, m, argumentCount, c, f);
    }
  }

  lemma {:induction false} CallerShown(run: seq<Config>, c: Send, x: Contexts.Machine, m: Word, argumentCount: nat,
                                       o: Objects.Heap)
    requires SentBoth(run, c, x, m, argumentCount, o)
    ensures Shows(run[SendLength(c)].s, c.caller, o)
  {
    var t := SendLength(c);
    assert c.caller in x.o;
    Contexts.ActivatedField(x, c.callee, m, argumentCount, c.caller, 0);
    CallerAfter(run, c, t, 0);
    forall f | 0 <= f < |o[c.caller]|
      ensures Objects.Field(o, c.caller, f) == WordOf(run[t].s, c.caller, 2 + f)
    {
      Contexts.ActivatedField(x, c.callee, m, argumentCount, c.caller, f);
      assert Objects.Field(x.o, c.caller, f) == WordOf(run[0].s, c.caller, 2 + f);
      CallerAfter(run, c, t, f);
      CallerAgrees(x, m, argumentCount, c, f);
    }
  }

  lemma {:induction false} OtherShown(run: seq<Config>, c: Send, x: Contexts.Machine, m: Word, argumentCount: nat,
                                      o: Objects.Heap, p: int)
    requires SentBoth(run, c, x, m, argumentCount, o) && p in x.o && p != c.caller
    ensures Shows(run[SendLength(c)].s, p, o)
  {
    var t := SendLength(c);
    Contexts.ActivatedField(x, c.callee, m, argumentCount, p, 0);
    SizeStays(run, c, t, p);
    forall f | 0 <= f < |o[p]|
      ensures Objects.Field(o, p, f) == WordOf(run[t].s, p, 2 + f)
    {
      assert Objects.Field(x.o, p, f) == WordOf(run[0].s, p, 2 + f);
      OtherAfter(run, c, t, p, 2 + f);
    }
  }

  lemma {:induction false} SizeStays(run: seq<Config>, c: Send, t: nat, p: int)
    requires Sending(run, c, SendLength(c)) && t <= SendLength(c) && p in run[0].g.alloc
    ensures SizeOf(run[t].s, p) == SizeOf(run[0].s, p)
  {
    if t > 0 {
      SizeStays(run, c, t - 1, p);
      StaysAllocated(run, c, t - 1, p);
      StaysAllocated(run, c, t, p);
      SendingRemains(run, c, t - 1, p);
    }
  }

  // If the memory has the interpreter's objects before a send, it has them after it.
  lemma {:induction false} SendAgrees(run: seq<Config>, c: Send, x: Contexts.Machine, m: Word, argumentCount: nat,
                                      o: Objects.Heap)
    requires SentBoth(run, c, x, m, argumentCount, o)
    ensures ShowsAll(run[SendLength(c)], o)
  {
    var t := SendLength(c);
    forall p | p in o
      ensures p in run[t].g.alloc && Shows(run[t].s, p, o)
    {
      Contexts.ActivatedField(x, c.callee, m, argumentCount, p, 0);
      if p == c.callee {
        CalleeShown(run, c, x, m, argumentCount, o);
        assert p in run[t].g.alloc;
      } else {
        StaysAllocated(run, c, t, p);
        if p == c.caller {
          CallerShown(run, c, x, m, argumentCount, o);
        } else {
          OtherShown(run, c, x, m, argumentCount, o, p);
        }
      }
    }
  }

  // The return

  lemma {:induction false} Shrinks(x: Config, a: Operation, y: Config)
    requires Makes(x, a, y) && !a.Allocate? && !a.Compact?
    ensures y.g.alloc <= x.g.alloc
  {
    match a
    case Refer(_) =>
    case Release(p) =>
      var order :| Freed(x.s, x.g, Drop(y.ext, NO_HOLE, {}), y.s, y.g, order);
      assert OpenFreed(0);
    case Store(p, i, v) =>
      var order :| Stored(x.s, x.g, x.ext, y.s, y.g, order, p, i, v);
  }

  // Field f of p when t steps of the return are made, if it was w.
  function ReturnWord(c: Send, v: Word, slot: nat, t: int, p: int, f: int, w: int): int {
    if p == c.callee && f == 0 && t > 2 then NIL_POINTER
    else if p == c.callee && f == 1 && t > 3 then NIL_POINTER
    else if p == c.caller && f == slot && t > 5 then v
    else w
  }

  lemma {:induction false} ReturnWordStep(c: Send, v: Word, slot: nat, t: nat, p: int, f: int, w: int)
    requires c.caller != c.callee && f >= -2
    ensures Written(ReturnStep(c, v, slot, t), p, WordAt(f), ReturnWord(c, v, slot, t, p, f, w)) ==
      ReturnWord(c, v, slot, t + 1, p, f, w)
  {
  }

  // What is there at the end has been there all along, with the words of these steps.
  lemma {:induction false} ReturningRemains(run: seq<Config>, c: Send, v: Word, slot: nat, t: nat, p: int)
    requires Returning(run, c, v, slot, ReturnLength(v)) && t <= ReturnLength(v) && p in run[t].g.alloc
    requires c.caller != c.callee
    ensures p in run[0].g.alloc && SoundAt(run[t]) && SizeOf(run[t].s, p) == SizeOf(run[0].s, p)
    ensures forall f {:trigger WordOf(run[t].s, p, WordAt(f))} :: 0 <= f && WordAt(f) < SizeOf(run[0].s, p) ==>
      WordOf(run[t].s, p, WordAt(f)) == ReturnWord(c, v, slot, t, p, f, WordOf(run[0].s, p, WordAt(f)))
  {
    if t > 0 {
      var n, a := t - 1, ReturnStep(c, v, slot, t - 1);
      assert ReturnMade(run, c, v, slot, n);
      Shrinks(run[n], a, run[t]);
      ReturningRemains(run, c, v, slot, n, p);
      MakesSound(run[n], a, run[t]);
      MakesRemains(run[n], a, run[t], p);
      forall f | 0 <= f && WordAt(f) < SizeOf(run[0].s, p)
        ensures WordOf(run[t].s, p, WordAt(f)) == ReturnWord(c, v, slot, t, p, f, WordOf(run[0].s, p, WordAt(f)))
      {
        ReturnWordStep(c, v, slot, n, p, f, WordOf(run[0].s, p, WordAt(f)));
      }
    }
  }

  // From the second step on the caller is counted for the register, and once more while it is the value.
  lemma {:induction false} CallerRegistered(run: seq<Config>, c: Send, v: Word, slot: nat, t: nat)
    requires Returning(run, c, v, slot, ReturnLength(v)) && t <= ReturnLength(v) && c.caller != c.callee &&
      !IsInteger(c.caller)
    ensures t >= 1 && v == c.caller ==> run[t].ext[c.caller] >= 1
    ensures t >= 2 ==> run[t].ext[c.caller] >= if v == c.caller && t < 7 then 2 else 1
  {
    if t > 0 {
      var n, a := t - 1, ReturnStep(c, v, slot, t - 1);
      CallerRegistered(run, c, v, slot, n);
      assert ReturnMade(run, c, v, slot, n);
      RegisterStep(run[n], a, run[t], c.caller);
    }
  }

  lemma {:induction false} RegisterStep(x: Config, a: Operation, y: Config, p: int)
    requires Makes(x, a, y) && !IsInteger(p)
    ensures y.ext[p] == x.ext[p] + (if a == Refer(p) then 1 else 0) - (if a == Release(p) then 1 else 0)
  {
  }

  // The return has been made in the memory, and y and o are the interpreter's machine before and heap after it.
  ghost predicate ReturnedBoth(run: seq<Config>, c: Send, v: Word, slot: nat, y: Contexts.Machine, o: Objects.Heap) {
    Returning(run, c, v, slot, ReturnLength(v)) && ShowsAll(run[0], y.o) && y.r.activeContext == c.callee &&
    c.caller as int in y.o && c.caller != c.callee && !IsInteger(c.caller) &&
    slot == Contexts.Fetched(Contexts.Ended(y), c.caller).stackPointer + 1 &&
    o == Contexts.Returned(y, v, c.caller).o
  }

  lemma {:induction false} ReturnedWord(run: seq<Config>, c: Send, v: Word, slot: nat, y: Contexts.Machine,
                                        o: Objects.Heap, p: int, f: int)
    requires ReturnedBoth(run, c, v, slot, y, o) && (0 <= f < Objects.SizeOf(y.o, p) || f == -1)
    ensures (p in o <==> p in y.o) && Objects.SizeOf(o, p) == Objects.SizeOf(y.o, p)
    ensures f >= 0 ==>
      Objects.Field(o, p, f) == ReturnWord(c, v, slot, ReturnLength(v), p, f, Objects.Field(y.o, p, f))
  {
    var cut := Objects.SetField(y.o, c.callee, 0, NIL_POINTER);
    Objects.FieldAfterSet(y.o, c.callee, 0, NIL_POINTER, p, f);
    Objects.FieldAfterSet(cut, c.callee, 1, NIL_POINTER, p, f);
    Objects.FieldAfterSet(Contexts.Ended(y), c.caller, slot, v, p, f);
  }

  // If the memory has the interpreter's objects before a return, it has those that are still allocated after it, the
  // caller among them.
  lemma {:induction false} ReturnAgrees(run: seq<Config>, c: Send, v: Word, slot: nat, y: Contexts.Machine,
                                        o: Objects.Heap)
    requires ReturnedBoth(run, c, v, slot, y, o)
    ensures c.caller as int in run[ReturnLength(v)].g.alloc
    ensures forall p {:trigger p in o} :: p in o && p in run[ReturnLength(v)].g.alloc ==>
      Shows(run[ReturnLength(v)].s, p, o)
  {
    var t := ReturnLength(v);
    CallerRegistered(run, c, v, slot, t);
    SoundRegisters(run[t].s, run[t].g, run[t].ext);
    forall p | p in o && p in run[t].g.alloc
      ensures Shows(run[t].s, p, o)
    {
      ReturnedShown(run, c, v, slot, y, o, p);
    }
  }

  lemma {:induction false} ReturnedShown(run: seq<Config>, c: Send, v: Word, slot: nat, y: Contexts.Machine,
                                         o: Objects.Heap, p: int)
    requires ReturnedBoth(run, c, v, slot, y, o) && p in o && p in run[ReturnLength(v)].g.alloc
    ensures Shows(run[ReturnLength(v)].s, p, o)
  {
    var t := ReturnLength(v);
    ReturningRemains(run, c, v, slot, t, p);
    ReturnedWord(run, c, v, slot, y, o, p, -1);
    forall f | 0 <= f < |o[p]|
      ensures Objects.Field(o, p, f) == WordOf(run[t].s, p, 2 + f)
    {
      ReturnedWord(run, c, v, slot, y, o, p, f);
      assert Objects.Field(y.o, p, f) == WordOf(run[0].s, p, WordAt(f));
      assert WordOf(run[t].s, p, WordAt(f)) == WordOf(run[t].s, p, 2 + f);
    }
  }
}
