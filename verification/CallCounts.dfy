// Sending a message and returning from it, call by call on the object memory, and what becomes of the
// count of the caller's context.
module CallCounts {
  import opened Words
  import opened Memory
  import opened Layouts
  import opened Accounts
  import opened ObjectAllocation
  import opened MemoryRuns
  import opened RunCounts
  import Contexts

  // A send: the contexts, the method, what a context takes, what is moved to the callee (the receiver
  // and the arguments) and from where in the caller; then the registers stored in the caller.
  datatype Send = Send(caller: Word, callee: Word, newMethod: Word, contextClass: Word, size: Word, initial: Word,
                       temporaries: Word, moved: seq<Word>, first: nat, instructionPointer: Word, stackPointer: Word)

  // The word of a field.
  function WordAt(field: int): int {
    HEADER_SIZE + field
  }

  function SendLength(c: Send): nat {
    9 + 2 * |c.moved|
  }

  // activateNewMethod: the new context, its fields, the transfer, and newActiveContext.
  function SendStep(c: Send, t: nat): Operation
    requires t < SendLength(c)
  {
    var n := |c.moved|;
    if t == 0 then Allocate(c.callee, c.size, 0, 1, c.contextClass)
    else if t == 1 then Store(c.callee, WordAt(Contexts.SENDER_INDEX), c.caller)
    else if t == 2 then Store(c.callee, WordAt(Contexts.INSTRUCTION_POINTER_INDEX), c.initial)
    else if t == 3 then Store(c.callee, WordAt(Contexts.STACK_POINTER_INDEX), c.temporaries)
    else if t == 4 then Store(c.callee, WordAt(Contexts.METHOD_INDEX), c.newMethod)
    else if t < 5 + 2 * n then
      if t % 2 == 1 then Store(c.callee, WordAt(Contexts.RECEIVER_INDEX + (t - 5) / 2), c.moved[(t - 5) / 2])
      else Store(c.caller, WordAt(c.first + (t - 5) / 2), NIL_POINTER)
    else if t == 5 + 2 * n then Store(c.caller, WordAt(Contexts.INSTRUCTION_POINTER_INDEX), c.instructionPointer)
    else if t == 6 + 2 * n then Store(c.caller, WordAt(Contexts.STACK_POINTER_INDEX), c.stackPointer)
    else if t == 7 + 2 * n then Release(c.caller)
    else Refer(c.callee)
  }

  function ReturnLength(v: Word): nat {
    if IsInteger(v) then 6 else 7
  }

  // returnValue:to: with returnToActiveContext and nilContextFields; the value is pushed in the caller.
  function ReturnStep(c: Send, v: Word, slot: nat, t: nat): Operation {
    if t == 0 then Refer(v)
    else if t == 1 then Refer(c.caller)
    else if t == 2 then Store(c.callee, WordAt(Contexts.SENDER_INDEX), NIL_POINTER)
    else if t == 3 then Store(c.callee, WordAt(Contexts.INSTRUCTION_POINTER_INDEX), NIL_POINTER)
    else if t == 4 then Release(c.callee)
    else if t == 5 then Store(c.caller, WordAt(slot), v)
    else Release(v)
  }

  // The operations are a send, a body and the return, which begins after so many.
  ghost predicate IsCall(operations: seq<Operation>, c: Send, v: Word, slot: nat, end: nat) {
    SendLength(c) <= end && |operations| == end + ReturnLength(v) &&
    (forall t {:trigger operations[t]} :: 0 <= t < SendLength(c) ==> operations[t] == SendStep(c, t)) &&
    forall t {:trigger operations[t]} :: end <= t < |operations| ==> operations[t] == ReturnStep(c, v, slot, t - end)
  }

  // Step k neither makes nor loses a reference to q.
  ghost predicate Quiet(run: seq<Config>, operations: seq<Operation>, k: nat, q: int)
    requires k < |operations| < |run|
  {
    Gain(operations[k], q) == 0 && Loss(run[k], operations[k], run[k + 1], q) == 0
  }

  // The call has nothing else to do with the caller's context: it is not among receiver, arguments,
  // method and result, what is stored over does not refer to it, nor does what is freed, and what runs
  // in between neither makes nor loses a reference to it.
  ghost predicate Aside(run: seq<Config>, operations: seq<Operation>, c: Send, v: Word, slot: nat, end: nat)
    requires |run| == |operations| + 1 && IsCall(operations, c, v, slot, end)
  {
    var q := c.caller;
    Apart(c, v) && Unreferred(run[0], c) &&
    (forall k {:trigger run[k]} :: 0 <= k < |operations| ==> HeldByFreed(run[k], run[k + 1], q) == 0) &&
    (forall k {:trigger Quiet(run, operations, k, q)} :: SendLength(c) <= k < end ==> Quiet(run, operations, k, q)) &&
    WordOf(run[end + 2].s, c.callee, WordAt(Contexts.SENDER_INDEX)) == q &&
    WordOf(run[end + 3].s, c.callee, WordAt(Contexts.INSTRUCTION_POINTER_INDEX)) != q &&
    WordOf(run[end + 5].s, q, WordAt(slot)) != q
  }

  ghost predicate Apart(c: Send, v: Word) {
    c.caller != NIL_POINTER && !IsInteger(c.caller) && c.caller !in c.moved && c.caller != v && c.caller != c.callee &&
    c.caller != c.newMethod && c.caller != c.contextClass && IsInteger(c.initial) && IsInteger(c.temporaries) &&
    IsInteger(c.instructionPointer) && IsInteger(c.stackPointer) && c.first >= Contexts.TEMP_FRAME_START
  }

  // Of the caller's words, those to be moved are what is moved, and its registers hold no reference to it.
  ghost predicate Unreferred(x: Config, c: Send) {
    (forall k {:trigger c.moved[k]} :: 0 <= k < |c.moved| ==>
      WordOf(x.s, c.caller, WordAt(c.first + k)) == c.moved[k]) &&
    WordOf(x.s, c.caller, WordAt(Contexts.INSTRUCTION_POINTER_INDEX)) != c.caller &&
    WordOf(x.s, c.caller, WordAt(Contexts.STACK_POINTER_INDEX)) != c.caller
  }

  // The caller is allocated all along, and the callee until the caller goes on.
  ghost predicate BothThere(run: seq<Config>, c: Send, end: nat) {
    (forall k {:trigger run[k]} :: 0 <= k < |run| ==> c.caller as int in run[k].g.alloc) &&
    forall k {:trigger run[k]} :: 1 <= k <= end && k < |run| ==> c.callee as int in run[k].g.alloc
  }

  ghost predicate Called(run: seq<Config>, operations: seq<Operation>, c: Send, v: Word, slot: nat, end: nat) {
    |run| == |operations| + 1 && SendLength(c) <= end && |operations| == end + ReturnLength(v) &&
    forall k {:trigger OpenCall(k)} :: OpenCall(k) ==> CalledUnfolded(run, operations, c, v, slot, end)
  }

  ghost predicate OpenCall(k: int) {
    true
  }

  ghost predicate CalledUnfolded(run: seq<Config>, operations: seq<Operation>, c: Send, v: Word, slot: nat, end: nat) {
    Run(run, operations) && IsCall(operations, c, v, slot, end) && Aside(run, operations, c, v, slot, end) &&
    BothThere(run, c, end)
  }

  // Old words

  lemma {:induction false} WordStays(run: seq<Config>, operations: seq<Operation>, low: nat, high: nat, p: int, i: int)
    requires Run(run, operations) && low <= high <= |operations| && 0 <= i < SizeOf(run[low].s, p)
    requires forall k {:trigger run[k]} :: low <= k <= high ==> p in run[k].g.alloc
    requires forall k {:trigger operations[k]} :: low <= k < high ==> !Overwrites(operations[k], p, i)
    ensures WordOf(run[high].s, p, i) == WordOf(run[low].s, p, i) && SizeOf(run[high].s, p) == SizeOf(run[low].s, p)
    decreases high
  {
    if low < high {
      WordStays(run, operations, low, high - 1, p, i);
      StepRemains(run, operations, high - 1, p);
      assert !Overwrites(operations[high - 1], p, i);
    }
  }

  predicate Overwrites(a: Operation, p: int, i: int) {
    a.Store? && a.p == p && a.i == i
  }

  // A store finds its place in the object.
  lemma {:induction false} StoreInside(run: seq<Config>, operations: seq<Operation>, k: nat)
    requires Run(run, operations) && k < |operations| && operations[k].Store?
    ensures operations[k].p in run[k].g.alloc && 0 <= operations[k].i < SizeOf(run[k].s, operations[k].p)
  {
    assert Makes(run[k], operations[k], run[k + 1]);
    RunStaysSound(run, operations, k);
    SoundReady(run[k].s, run[k].g, run[k].ext);
    assert Sized(run[k].s, operations[k].p, run[k].g.len[operations[k].p]) by {
      assert OpenLayout(0);
    }
  }

  lemma {:induction false} SameSizes(run: seq<Config>, operations: seq<Operation>, low: nat, high: nat, p: int)
    requires Run(run, operations) && low <= high <= |operations|
    requires forall k {:trigger run[k]} :: low <= k <= high ==> p in run[k].g.alloc
    ensures SizeOf(run[high].s, p) == SizeOf(run[low].s, p)
    decreases high
  {
    if low < high {
      SameSizes(run, operations, low, high - 1, p);
      StepRemains(run, operations, high - 1, p);
    }
  }

  // No field is stored twice in a send.
  lemma {:induction false} StoredOnce(c: Send, k: nat, t: nat)
    requires k < t < SendLength(c) && SendStep(c, t).Store? && c.first >= Contexts.TEMP_FRAME_START &&
      c.caller != c.callee
    ensures !Overwrites(SendStep(c, k), SendStep(c, t).p, SendStep(c, t).i)
  {
  }

  lemma {:induction false} StoresIntoBoth(c: Send, t: nat)
    requires t < SendLength(c) && SendStep(c, t).Store? && c.caller != c.callee
    ensures SendStep(c, t).p == c.caller || (SendStep(c, t).p == c.callee && 1 <= t && HEADER_SIZE <= SendStep(c, t).i)
    ensures SendStep(c, t).p == c.caller ==>
      0 <= SendStep(c, t).i - WordAt(c.first) < |c.moved| ||
      SendStep(c, t).i == WordAt(Contexts.INSTRUCTION_POINTER_INDEX) ||
        SendStep(c, t).i == WordAt(Contexts.STACK_POINTER_INDEX)
  {
  }

  lemma {:induction false} NotOverwritten(operations: seq<Operation>, c: Send, v: Word, slot: nat, end: nat, t: nat)
    requires IsCall(operations, c, v, slot, end) && Apart(c, v) && t < SendLength(c) && SendStep(c, t).Store?
    ensures operations[t] == SendStep(c, t)
    ensures forall k {:trigger operations[k]} :: 0 <= k < t ==>
      !Overwrites(operations[k], SendStep(c, t).p, SendStep(c, t).i)
  {
    forall k | 0 <= k < t
      ensures !Overwrites(operations[k], SendStep(c, t).p, SendStep(c, t).i)
    {
      assert operations[k] == SendStep(c, k);
      StoredOnce(c, k, t);
    }
  }

  // What a send stores over in the caller, it finds as it was at first,
  lemma {:induction false} OldInCaller(run: seq<Config>, operations: seq<Operation>, c: Send, v: Word, slot: nat,
                                       end: nat, t: nat, i: int)
    requires Called(run, operations, c, v, slot, end) && t < SendLength(c) && SendStep(c, t).Store?
    requires SendStep(c, t).p == c.caller && i == SendStep(c, t).i
    ensures WordOf(run[t].s, c.caller, i) != c.caller
  {
    assert OpenCall(0);
    NotOverwritten(operations, c, v, slot, end, t);
    StoreInside(run, operations, t);
    SameSizes(run, operations, 0, t, c.caller);
    WordStays(run, operations, 0, t, c.caller, i);
    StoresIntoBoth(c, t);
    OldUnreferred(run[0], c, v, i);
  }

  lemma {:induction false} OldUnreferred(x: Config, c: Send, v: Word, i: int)
    requires Unreferred(x, c) && Apart(c, v)
    requires 0 <= i - WordAt(c.first) < |c.moved| || i == WordAt(Contexts.INSTRUCTION_POINTER_INDEX) ||
      i == WordAt(Contexts.STACK_POINTER_INDEX)
    ensures WordOf(x.s, c.caller, i) != c.caller
  {
    var k := i - WordAt(c.first);
    if 0 <= k < |c.moved| {
      assert c.moved[k] in c.moved;
    }
  }

  // and in the callee nil.
  lemma {:induction false} OldInCallee(run: seq<Config>, operations: seq<Operation>, c: Send, v: Word, slot: nat,
                                       end: nat, t: nat, i: int)
    requires Called(run, operations, c, v, slot, end) && t < SendLength(c) && SendStep(c, t).Store?
    requires SendStep(c, t).p == c.callee && i == SendStep(c, t).i
    ensures WordOf(run[t].s, c.callee, i) == NIL_POINTER
  {
    assert OpenCall(0);
    NotOverwritten(operations, c, v, slot, end, t);
    StoresIntoBoth(c, t);
    StoreInside(run, operations, t);
    SameSizes(run, operations, 1, t, c.callee);
    WordStays(run, operations, 1, t, c.callee, i);
    NewFields(run, operations, c, v, slot, end, i);
  }

  lemma {:induction false} NewFields(run: seq<Config>, operations: seq<Operation>, c: Send, v: Word, slot: nat,
                                     end: nat, i: int)
    requires Called(run, operations, c, v, slot, end) && HEADER_SIZE <= i < SizeOf(run[1].s, c.callee)
    ensures WordOf(run[1].s, c.callee, i) == NIL_POINTER
  {
    assert OpenCall(0);
    var a := operations[0];
    assert a == SendStep(c, 0) && Makes(run[0], a, run[1]);
    var u, h :| Allotted(run[0].s, run[0].g, u, h, c.callee, c.size, 0, 1, c.contextClass, run[1].s) &&
      run[1].g == WithObject(h, c.callee);
    MadeItself(u, h, c.callee, c.size, 0, 1, c.contextClass, run[1].s);
  }

  // Every step but four is quiet

  ghost predicate Marked(c: Send, end: nat, k: nat) {
    k == 1 || k == SendLength(c) - 2 || k == end + 1 || k == end + 2
  }

  lemma {:induction false} SendQuiet(run: seq<Config>, operations: seq<Operation>, c: Send, v: Word, slot: nat,
                                     end: nat, t: nat)
    requires Called(run, operations, c, v, slot, end) && t < SendLength(c) && !Marked(c, end, t)
    ensures Quiet(run, operations, t, c.caller)
  {
    CallStep(run, operations, c, v, slot, end, t);
    var a := SendStep(c, t);
    SentValues(c, v, t, a);
    if a.Store? {
      OldWord(run, operations, c, v, slot, end, t, a);
    }
  }

  lemma {:induction false} OldWord(run: seq<Config>, operations: seq<Operation>, c: Send, v: Word, slot: nat, end: nat,
                                   t: nat, a: Operation)
    requires Called(run, operations, c, v, slot, end) && t < SendLength(c) && a == SendStep(c, t) && a.Store?
    ensures WordOf(run[t].s, a.p, a.i) != c.caller
  {
    assert Apart(c, v) by {
      assert OpenCall(0);
    }
    StoresIntoBoth(c, t);
    if a.p == c.caller {
      OldInCaller(run, operations, c, v, slot, end, t, a.i);
    } else {
      OldInCallee(run, operations, c, v, slot, end, t, a.i);
    }
  }

  // What is known of every step.
  lemma {:induction false} CallStep(run: seq<Config>, operations: seq<Operation>, c: Send, v: Word, slot: nat, end: nat,
                                    t: nat)
    requires Called(run, operations, c, v, slot, end) && t < |operations|
    ensures HeldByFreed(run[t], run[t + 1], c.caller) == 0 && Apart(c, v)
    ensures t < SendLength(c) ==> operations[t] == SendStep(c, t)
    ensures end <= t ==> operations[t] == ReturnStep(c, v, slot, t - end)
    ensures SendLength(c) <= t < end ==> Quiet(run, operations, t, c.caller)
  {
    assert OpenCall(0);
    assert HeldByFreed(run[t], run[t + 1], c.caller) == 0;
    assert SendLength(c) <= t < end ==> Quiet(run, operations, t, c.caller);
  }

  // What the return finds where it stores.
  lemma {:induction false} FoundOnReturn(run: seq<Config>, operations: seq<Operation>, c: Send, v: Word, slot: nat,
                                         end: nat)
    requires Called(run, operations, c, v, slot, end)
    ensures WordOf(run[end + 2].s, c.callee, WordAt(Contexts.SENDER_INDEX)) == c.caller
    ensures WordOf(run[end + 3].s, c.callee, WordAt(Contexts.INSTRUCTION_POINTER_INDEX)) != c.caller
    ensures WordOf(run[end + 5].s, c.caller, WordAt(slot)) != c.caller
  {
    assert OpenCall(0);
  }

  lemma {:induction false} SentValues(c: Send, v: Word, t: nat, a: Operation)
    requires Apart(c, v) && t < SendLength(c) && a == SendStep(c, t) && t != 1
    ensures Gain(a, c.caller) == 0 && (a.Release? ==> t == SendLength(c) - 2)
  {
    var k := (t - 5) / 2;
    if 5 <= t < 5 + 2 * |c.moved| {
      assert c.moved[k] in c.moved;
    }
  }

  lemma {:induction false} ReturnQuiet(run: seq<Config>, operations: seq<Operation>, c: Send, v: Word, slot: nat,
                                       end: nat, t: nat)
    requires Called(run, operations, c, v, slot, end) && end <= t < |operations| && !Marked(c, end, t)
    ensures Quiet(run, operations, t, c.caller)
  {
    CallStep(run, operations, c, v, slot, end, t);
    FoundOnReturn(run, operations, c, v, slot, end);
  }

  lemma {:induction false} AllQuiet(run: seq<Config>, operations: seq<Operation>, c: Send, v: Word, slot: nat, end: nat,
                                    t: nat)
    requires Called(run, operations, c, v, slot, end) && t < |operations| && !Marked(c, end, t)
    ensures Quiet(run, operations, t, c.caller)
  {
    if t < SendLength(c) {
      SendQuiet(run, operations, c, v, slot, end, t);
    } else if t >= end {
      ReturnQuiet(run, operations, c, v, slot, end, t);
    } else {
      CallStep(run, operations, c, v, slot, end, t);
    }
  }

  // The references to the caller: one more while both the register and the sender field hold it.
  function Course(c: Send, end: nat, k: nat): int {
    if 1 < k <= SendLength(c) - 2 || k == end + 2 then 1 else 0
  }

  lemma {:induction false} StepChanges(run: seq<Config>, operations: seq<Operation>, c: Send, v: Word, slot: nat,
                                       end: nat, t: nat)
    requires Called(run, operations, c, v, slot, end) && t < |operations|
    ensures Gain(operations[t], c.caller) == if t == 1 || t == end + 1 then 1 else 0
    ensures Loss(run[t], operations[t], run[t + 1], c.caller) == if t == SendLength(c) - 2 || t == end + 2 then 1 else 0
  {
    CallStep(run, operations, c, v, slot, end, t);
    if t == 1 {
      OldWord(run, operations, c, v, slot, end, t, SendStep(c, t));
    } else if t == end + 2 {
      FoundOnReturn(run, operations, c, v, slot, end);
    } else if !Marked(c, end, t) {
      AllQuiet(run, operations, c, v, slot, end, t);
    }
  }

  lemma {:induction false} CallTotal(run: seq<Config>, operations: seq<Operation>, c: Send, v: Word, slot: nat,
                                     end: nat, k: nat)
    requires Called(run, operations, c, v, slot, end) && k <= |operations|
    ensures Total(run[k], c.caller) == Total(run[0], c.caller) + Course(c, end, k)
    decreases k
  {
    if k > 0 {
      CallTotal(run, operations, c, v, slot, end, k - 1);
      CallStepTotal(run, operations, c, v, slot, end, k - 1);
      StepChanges(run, operations, c, v, slot, end, k - 1);
    }
  }

  lemma {:induction false} CallStepTotal(run: seq<Config>, operations: seq<Operation>, c: Send, v: Word, slot: nat,
                                         end: nat, k: nat)
    requires Called(run, operations, c, v, slot, end) && k < |operations|
    ensures Total(run[k + 1], c.caller) + Loss(run[k], operations[k], run[k + 1], c.caller) ==
      Total(run[k], c.caller) + Gain(operations[k], c.caller)
  {
    assert OpenCall(0);
    StepTotal(run, operations, k, c.caller);
  }

  lemma {:induction false} StepTotal(run: seq<Config>, operations: seq<Operation>, k: nat, q: int)
    requires Run(run, operations) && k < |operations| && q in run[k].g.alloc && q != NIL_POINTER
    ensures Total(run[k + 1], q) + Loss(run[k], operations[k], run[k + 1], q) ==
      Total(run[k], q) + Gain(operations[k], q)
  {
    RunStaysSound(run, operations, k);
    assert Makes(run[k], operations[k], run[k + 1]);
    MakesTotal(run[k], operations[k], run[k + 1], q);
  }

  lemma {:induction false} CallPeak(run: seq<Config>, operations: seq<Operation>, c: Send, v: Word, slot: nat, end: nat)
    requires Called(run, operations, c, v, slot, end)
    ensures Filled(run, operations, |operations|, c.caller) <==> Total(run[0], c.caller) + 1 >= STUCK
  {
    forall k | 0 <= k < |operations|
      ensures Total(run[k], c.caller) + Gain(operations[k], c.caller) <= Total(run[0], c.caller) + 1
      ensures k == 1 ==> Total(run[k], c.caller) + Gain(operations[k], c.caller) == Total(run[0], c.caller) + 1
    {
      CallTotal(run, operations, c, v, slot, end, k);
      StepChanges(run, operations, c, v, slot, end, k);
    }
    var first := 1;
    assert 0 <= first < |operations|;
    assert Total(run[first], c.caller) + Gain(operations[first], c.caller) == Total(run[0], c.caller) + 1;
  }

  // A send and its return, whatever runs between, leave the count of the caller's context as it was,
  // unless it was 127: then it is stuck.
  lemma {:induction false} CallKeepsCount(run: seq<Config>, operations: seq<Operation>, c: Send, v: Word, slot: nat,
                                          end: nat)
    requires Called(run, operations, c, v, slot, end)
    ensures var before, after := run[0].s.E(c.caller).count, run[|operations|].s.E(c.caller).count;
      after == if before == STUCK - 1 then STUCK else before
  {
    assert Run(run, operations) && BothThere(run, c, end) by {
      assert OpenCall(0);
    }
    CountFollows(run, operations, |operations|, c.caller);
    CountAtMost(run[0], c.caller);
    CallTotal(run, operations, c, v, slot, end, |operations|);
    CallPeak(run, operations, c, v, slot, end);
  }
}
