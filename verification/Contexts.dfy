// Contexts: the registers kept in them, the sending of a message, the return to the sender, and what
// is left of the caller after everything the callee has done.
module Contexts {
  import opened Words
  import opened Objects

  const SENDER_INDEX := 0
  const INSTRUCTION_POINTER_INDEX := 1
  const STACK_POINTER_INDEX := 2
  const METHOD_INDEX := 3
  const RECEIVER_INDEX := 5
  const HOME_INDEX := 5
  const TEMP_FRAME_START := 6

  datatype Registers = Registers(activeContext: Word, homeContext: Word, receiver: Word, currentMethod: Word,
                                 instructionPointer: int, stackPointer: int)

  datatype Machine = Machine(o: Heap, r: Registers)

  // A block context has its number of arguments where a method context has its method.
  predicate IsBlockContext(o: Heap, context: Word) {
    IsIntegerObject(Field(o, context, METHOD_INDEX))
  }

  function HomeOf(o: Heap, context: Word): Word {
    if IsBlockContext(o, context) then Field(o, context, HOME_INDEX) else context
  }

  // An integer that is too large is not stored; a field that holds none is fetched as 0.
  function StoreInteger(o: Heap, p: int, i: int, v: int): Heap {
    if IsIntegerValue(v) then SetField(o, p, i, IntegerObject(v)) else o
  }

  function FetchInteger(o: Heap, p: int, i: int): int {
    if IsIntegerObject(Field(o, p, i)) then IntegerValue(Field(o, p, i)) else 0
  }

  function Stored(x: Machine): Heap {
    StoreInteger(StoreInteger(x.o, x.r.activeContext, INSTRUCTION_POINTER_INDEX, x.r.instructionPointer + 1),
                 x.r.activeContext, STACK_POINTER_INDEX, x.r.stackPointer - TEMP_FRAME_START + 1)
  }

  function Fetched(o: Heap, context: Word): Registers {
    var home := HomeOf(o, context);
    Registers(context, home, Field(o, home, RECEIVER_INDEX), Field(o, home, METHOD_INDEX),
              FetchInteger(o, context, INSTRUCTION_POINTER_INDEX) - 1,
              FetchInteger(o, context, STACK_POINTER_INDEX) + TEMP_FRAME_START - 1)
  }

  // The registers are those of the active context, and can be stored in it.
  ghost predicate Held(x: Machine) {
    x.r.activeContext in x.o && x.r.activeContext != NIL_POINTER && x.r.homeContext == HomeOf(x.o, x.r.activeContext) &&
      x.r.homeContext in x.o &&
    x.r.receiver == Field(x.o, x.r.homeContext, RECEIVER_INDEX) &&
      x.r.currentMethod == Field(x.o, x.r.homeContext, METHOD_INDEX) &&
    IsIntegerValue(x.r.instructionPointer + 1) &&
      TEMP_FRAME_START - 1 <= x.r.stackPointer < |x.o[x.r.activeContext]| <= 16384
  }

  lemma {:induction false} StoredField(x: Machine, q: int, j: int)
    requires x.r.activeContext in x.o && |x.o[x.r.activeContext]| > STACK_POINTER_INDEX
    requires IsIntegerValue(x.r.instructionPointer + 1) && IsIntegerValue(x.r.stackPointer - TEMP_FRAME_START + 1)
    ensures Field(Stored(x), q, j) ==
      if q == x.r.activeContext && j == INSTRUCTION_POINTER_INDEX then IntegerObject(x.r.instructionPointer + 1)
      else if q == x.r.activeContext && j == STACK_POINTER_INDEX then
        IntegerObject(x.r.stackPointer - TEMP_FRAME_START + 1)
      else Field(x.o, q, j)
    ensures SizeOf(Stored(x), q) == SizeOf(x.o, q) && (q in Stored(x) <==> q in x.o)
    ensures q != x.r.activeContext && q in x.o ==> Stored(x)[q] == x.o[q]
  {
  }

  // A context's registers, in the words of the objects: a block has an integer where a method context has its
  // method, and its home where that has the receiver; both of these it takes from its home, and the sender too.
  lemma {:induction false} FetchedInWords(o: Heap, context: Word, home: Word, instruction: int, depth: int)
    requires home == if Field(o, context, 3) % 2 == 1 then Field(o, context, 5) else context
    requires IsIntegerValue(instruction) && Field(o, context, 1) == IntegerObject(instruction)
    requires IsIntegerValue(depth) && Field(o, context, 2) == IntegerObject(depth)
    ensures Fetched(o, context) ==
      Registers(context, home, Field(o, home, 5), Field(o, home, 3), instruction - 1, depth + 5)
    ensures SenderOf(Machine(o, Fetched(o, context))) == Field(o, home, 0)
  {
    IntegerThere(instruction);
    IntegerThere(depth);
  }

  // Fetching what was stored gives the registers back,
  lemma {:induction false} FetchStored(x: Machine)
    requires Held(x)
    ensures Fetched(Stored(x), x.r.activeContext) == x.r
  {
    var c, home := x.r.activeContext, x.r.homeContext;
    IntegerThere(x.r.instructionPointer + 1);
    IntegerThere(x.r.stackPointer - TEMP_FRAME_START + 1);
    StoredField(x, c, METHOD_INDEX);
    StoredField(x, c, HOME_INDEX);
    StoredField(x, c, INSTRUCTION_POINTER_INDEX);
    StoredField(x, c, STACK_POINTER_INDEX);
    StoredField(x, home, RECEIVER_INDEX);
    StoredField(x, home, METHOD_INDEX);
  }

  // and storing what was fetched changes nothing.
  lemma {:induction false} StoreFetched(o: Heap, context: Word)
    requires context in o && |o[context]| > STACK_POINTER_INDEX
    requires IsIntegerObject(Field(o, context, INSTRUCTION_POINTER_INDEX)) &&
      IsIntegerObject(Field(o, context, STACK_POINTER_INDEX))
    ensures Stored(Machine(o, Fetched(o, context))) == o
  {
    var x := Machine(o, Fetched(o, context));
    IntegerBack(Field(o, context, INSTRUCTION_POINTER_INDEX));
    IntegerBack(Field(o, context, STACK_POINTER_INDEX));
    forall p | p in o
      ensures p in Stored(x) && Stored(x)[p] == o[p]
    {
      forall i | 0 <= i < |o[p]|
        ensures Field(Stored(x), p, i) == o[p][i] && SizeOf(Stored(x), p) == |o[p]| && p in Stored(x)
      {
        StoredField(x, p, i);
      }
      StoredField(x, p, 0);
      SameFields(o, Stored(x), p);
    }
    forall p | p in Stored(x)
      ensures p in o
    {
      StoredField(x, p, 0);
    }
  }

  lemma {:induction false} SameFields(o: Heap, o': Heap, p: int)
    requires p in o && p in o' && |o'[p]| == |o[p]|
    requires forall i {:trigger Field(o', p, i)} :: 0 <= i < |o[p]| ==> Field(o', p, i) == o[p][i]
    ensures o'[p] == o[p]
  {
    forall i | 0 <= i < |o[p]|
      ensures o'[p][i] == o[p][i]
    {
      assert Field(o', p, i) == o'[p][i];
    }
  }

  // Sending

  // Fields moved from one object to another, nil left in their place.
  function Transferred(o: Heap, count: int, firstFrom: int, from: int, firstTo: int, to: int): Heap
    decreases count
  {
    if count <= 0 then o
    else Transferred(SetField(SetField(o, to, firstTo, Field(o, from, firstFrom)), from, firstFrom, NIL_POINTER),
      count - 1, firstFrom + 1, from, firstTo + 1, to)
  }

  lemma {:induction false} TransferredField(o: Heap, count: int, firstFrom: int, from: int, firstTo: int, to: int,
                                            q: int, j: int)
    requires from != to && from in o && to in o && 0 <= count && 0 <= firstFrom && 0 <= firstTo &&
      firstFrom + count <= |o[from]| && firstTo + count <= |o[to]|
    ensures Field(Transferred(o, count, firstFrom, from, firstTo, to), q, j) ==
      if q == from && firstFrom <= j < firstFrom + count then NIL_POINTER
      else if q == to && firstTo <= j < firstTo + count then Field(o, from, firstFrom + j - firstTo)
      else Field(o, q, j)
    ensures SizeOf(Transferred(o, count, firstFrom, from, firstTo, to), q) == SizeOf(o, q)
    ensures q in Transferred(o, count, firstFrom, from, firstTo, to) <==> q in o
    ensures q != from && q != to && q in o ==> Transferred(o, count, firstFrom, from, firstTo, to)[q] == o[q]
    decreases count
  {
    if count > 0 {
      var o1 := SetField(o, to, firstTo, Field(o, from, firstFrom));
      var o2 := SetField(o1, from, firstFrom, NIL_POINTER);
      TransferredField(o2, count - 1, firstFrom + 1, from, firstTo + 1, to, q, j);
    }
  }

  function FrameSize(o: Heap, m: int): nat {
    (if LargeContextFlagOf(o, m) == 1 then 32 else 12) + TEMP_FRAME_START
  }

  // The new context before the arguments are moved to it.
  function Framed(o: Heap, callee: Word, m: Word, sender: Word): Heap {
    var o1 := SetField(o[callee := Nils(FrameSize(o, m))], callee, SENDER_INDEX, sender);
    var o2 := StoreInteger(StoreInteger(o1, callee, INSTRUCTION_POINTER_INDEX, InitialInstructionPointerOf(o, m)),
      callee, STACK_POINTER_INDEX, TemporaryCountOf(o, m));
    SetField(o2, callee, METHOD_INDEX, m)
  }

  // The caller after its arguments are gone.
  function Sent(x: Machine, callee: Word, m: Word, argumentCount: int): Machine {
    Machine(Transferred(Framed(x.o, callee, m, x.r.activeContext), argumentCount + 1, x.r.stackPointer - argumentCount,
      x.r.activeContext, RECEIVER_INDEX, callee),
            x.r.(stackPointer := x.r.stackPointer - (argumentCount + 1)))
  }

  function Activated(x: Machine, callee: Word, m: Word, argumentCount: int): Machine {
    var o := Stored(Sent(x, callee, m, argumentCount));
    Machine(o, Fetched(o, callee))
  }

  // What the object memory and the compiler see to: the context is a new object, and it has room for
  // the arguments and temporaries of the method.
  predicate CanSend(x: Machine, callee: Word, m: Word, argumentCount: int) {
    callee !in x.o && callee != NIL_POINTER && m in x.o && !IsIntegerObject(m) && 0 <= argumentCount &&
      TEMP_FRAME_START + argumentCount <= x.r.stackPointer &&
    argumentCount <= TemporaryCountOf(x.o, m) && TemporaryCountOf(x.o, m) + TEMP_FRAME_START <= FrameSize(x.o, m)
  }

  lemma {:induction false} FramedField(o: Heap, callee: Word, m: Word, sender: Word, q: int, j: int)
    requires callee !in o
    ensures Field(Framed(o, callee, m, sender), q, j) ==
      if q != callee then Field(o, q, j)
      else if j == SENDER_INDEX then sender
      else if j == INSTRUCTION_POINTER_INDEX then IntegerObject(InitialInstructionPointerOf(o, m))
      else if j == STACK_POINTER_INDEX then IntegerObject(TemporaryCountOf(o, m))
      else if j == METHOD_INDEX then m
      else NIL_POINTER
    ensures SizeOf(Framed(o, callee, m, sender), q) == (if q == callee then FrameSize(o, m) else SizeOf(o, q))
    ensures q in Framed(o, callee, m, sender) <==> q in o || q == callee
    ensures q in o ==> Framed(o, callee, m, sender)[q] == o[q]
  {
    HeaderRanges(o, m);
  }

  // The receiver and the arguments lie in the caller, and there is room for them in the new context.
  lemma {:induction false} TransferFits(x: Machine, callee: Word, m: Word, argumentCount: int, o: Heap)
    requires Held(x) && CanSend(x, callee, m, argumentCount) && o == Framed(x.o, callee, m, x.r.activeContext)
    ensures x.r.activeContext != callee && x.r.activeContext in o && callee in o
    ensures 0 <= ReceiverAt(x, argumentCount) && x.r.stackPointer + 1 <= |o[x.r.activeContext]| &&
      RECEIVER_INDEX + argumentCount + 1 <= |o[callee]|
  {
    FramedField(x.o, callee, m, x.r.activeContext, x.r.activeContext, 0);
    FramedField(x.o, callee, m, x.r.activeContext, callee, 0);
  }

  lemma {:induction false} SentField(x: Machine, callee: Word, m: Word, argumentCount: int, q: int, j: int)
    requires Held(x) && CanSend(x, callee, m, argumentCount)
    ensures Field(Sent(x, callee, m, argumentCount).o, q, j) ==
      if q == x.r.activeContext && ReceiverAt(x, argumentCount) <= j <= x.r.stackPointer then NIL_POINTER
      else if q == callee && RECEIVER_INDEX <= j <= RECEIVER_INDEX + argumentCount then
        Field(x.o, x.r.activeContext, ReceiverAt(x, argumentCount) + j - RECEIVER_INDEX)
      else Field(Framed(x.o, callee, m, x.r.activeContext), q, j)
  {
    var o, first := Framed(x.o, callee, m, x.r.activeContext), ReceiverAt(x, argumentCount);
    TransferFits(x, callee, m, argumentCount, o);
    FramedCaller(x, callee, m, first + j - RECEIVER_INDEX);
    SentFrom(o, argumentCount, first, x.r.activeContext, callee, q, j);
  }

  lemma {:induction false} FramedCaller(x: Machine, callee: Word, m: Word, i: int)
    requires Held(x) && callee !in x.o
    ensures Field(Framed(x.o, callee, m, x.r.activeContext), x.r.activeContext, i) == Field(x.o, x.r.activeContext, i)
  {
    FramedField(x.o, callee, m, x.r.activeContext, x.r.activeContext, i);
  }

  lemma {:induction false} SentFrom(o: Heap, argumentCount: int, first: int, from: int, callee: int, q: int, j: int)
    requires from != callee && from in o && callee in o && 0 <= argumentCount && 0 <= first &&
      first + argumentCount + 1 <= |o[from]| && RECEIVER_INDEX + argumentCount + 1 <= |o[callee]|
    ensures Field(Transferred(o, argumentCount + 1, first, from, RECEIVER_INDEX, callee), q, j) ==
      if q == from && first <= j <= first + argumentCount then NIL_POINTER
      else if q == callee && RECEIVER_INDEX <= j <= RECEIVER_INDEX + argumentCount then
        Field(o, from, first + j - RECEIVER_INDEX)
      else Field(o, q, j)
  {
    TransferredField(o, argumentCount + 1, first, from, RECEIVER_INDEX, callee, q, j);
  }

  lemma {:induction false} SentObjects(x: Machine, callee: Word, m: Word, argumentCount: int, q: int)
    requires Held(x) && CanSend(x, callee, m, argumentCount)
    ensures var y := Sent(x, callee, m, argumentCount);
      SizeOf(y.o, q) == (if q == callee then FrameSize(x.o, m) else SizeOf(x.o, q)) &&
      (q in y.o <==> q in x.o || q == callee) && (q in x.o && q != x.r.activeContext ==> y.o[q] == x.o[q])
  {
    FramedField(x.o, callee, m, x.r.activeContext, q, 0);
    TransferFits(x, callee, m, argumentCount, Framed(x.o, callee, m, x.r.activeContext));
    TransferredField(Framed(x.o, callee, m, x.r.activeContext), argumentCount + 1, ReceiverAt(x, argumentCount),
      x.r.activeContext, RECEIVER_INDEX, callee, q, 0);
  }

  function ReceiverAt(x: Machine, argumentCount: int): int {
    x.r.stackPointer - argumentCount
  }

  // Field j of q after the send.
  function AfterSend(x: Machine, callee: Word, m: Word, argumentCount: int, q: int, j: int): Word
    requires Held(x) && CanSend(x, callee, m, argumentCount)
  {
    HeaderRanges(x.o, m);
    if q == x.r.activeContext then
      if ReceiverAt(x, argumentCount) <= j <= x.r.stackPointer then NIL_POINTER
      else if j == INSTRUCTION_POINTER_INDEX then IntegerObject(x.r.instructionPointer + 1)
      else if j == STACK_POINTER_INDEX then IntegerObject(x.r.stackPointer - argumentCount - TEMP_FRAME_START)
      else Field(x.o, q, j)
    else if q == callee then
      if j == SENDER_INDEX then x.r.activeContext
      else if j == INSTRUCTION_POINTER_INDEX then IntegerObject(InitialInstructionPointerOf(x.o, m))
      else if j == STACK_POINTER_INDEX then IntegerObject(TemporaryCountOf(x.o, m))
      else if j == METHOD_INDEX then m
      else if RECEIVER_INDEX <= j <= RECEIVER_INDEX + argumentCount then
        Field(x.o, x.r.activeContext, ReceiverAt(x, argumentCount) + j - RECEIVER_INDEX)
      else NIL_POINTER
    else Field(x.o, q, j)
  }

  lemma {:induction false} ActivatedField(x: Machine, callee: Word, m: Word, argumentCount: int, q: int, j: int)
    requires Held(x) && CanSend(x, callee, m, argumentCount)
    ensures var y := Activated(x, callee, m, argumentCount);
      && Field(y.o, q, j) == AfterSend(x, callee, m, argumentCount, q, j)
      && SizeOf(y.o, q) == (if q == callee then FrameSize(x.o, m) else SizeOf(x.o, q)) &&
        (q in y.o <==> q in x.o || q == callee)
      && (q in x.o && q != x.r.activeContext ==> y.o[q] == x.o[q])
  {
    var z := Sent(x, callee, m, argumentCount);
    HeaderRanges(x.o, m);
    SentObjects(x, callee, m, argumentCount, x.r.activeContext);
    SentObjects(x, callee, m, argumentCount, q);
    SentWord(x, callee, m, argumentCount, q, j);
    StoredAfter(x, callee, m, argumentCount, z, q, j);
  }

  // The sender's stack as it is before the registers are kept in it.
  function BeforeStore(x: Machine, callee: Word, m: Word, argumentCount: int, q: int, j: int): Word
    requires Held(x) && CanSend(x, callee, m, argumentCount)
  {
    if q == x.r.activeContext && !(ReceiverAt(x, argumentCount) <= j <= x.r.stackPointer) then Field(x.o, q, j)
      else AfterSend(x, callee, m, argumentCount, q, j)
  }

  lemma {:induction false} SentWord(x: Machine, callee: Word, m: Word, argumentCount: int, q: int, j: int)
    requires Held(x) && CanSend(x, callee, m, argumentCount)
    ensures Field(Sent(x, callee, m, argumentCount).o, q, j) == BeforeStore(x, callee, m, argumentCount, q, j)
  {
    HeaderRanges(x.o, m);
    SentField(x, callee, m, argumentCount, q, j);
    FramedField(x.o, callee, m, x.r.activeContext, q, j);
  }

  lemma {:induction false} StoredAfter(x: Machine, callee: Word, m: Word, argumentCount: int, z: Machine, q: int,
                                       j: int)
    requires Held(x) && CanSend(x, callee, m, argumentCount) &&
      z.r == x.r.(stackPointer := x.r.stackPointer - (argumentCount + 1))
    requires Field(z.o, q, j) == BeforeStore(x, callee, m, argumentCount, q, j) && x.r.activeContext in z.o &&
      |z.o[x.r.activeContext]| == |x.o[x.r.activeContext]|
    ensures Field(Stored(z), q, j) == AfterSend(x, callee, m, argumentCount, q, j)
    ensures SizeOf(Stored(z), q) == SizeOf(z.o, q) && (q in Stored(z) <==> q in z.o)
    ensures q != x.r.activeContext && q in z.o ==> Stored(z)[q] == z.o[q]
  {
    StoredField(z, q, j);
  }

  // The callee's registers, and what the send leaves of the caller.
  lemma {:induction false} ActivatedIs(x: Machine, callee: Word, m: Word, argumentCount: int)
    requires Held(x) && CanSend(x, callee, m, argumentCount)
    ensures var y := Activated(x, callee, m, argumentCount);
      && y.r == Registers(callee, callee, Field(x.o, x.r.activeContext, ReceiverAt(x, argumentCount)), m,
                          InitialInstructionPointerOf(x.o, m) - 1, TemporaryCountOf(x.o, m) + TEMP_FRAME_START - 1)
      && Held(y)
  {
    var y := Activated(x, callee, m, argumentCount);
    HeaderRanges(x.o, m);
    IntegerThere(InitialInstructionPointerOf(x.o, m));
    IntegerThere(TemporaryCountOf(x.o, m));
    ActivatedField(x, callee, m, argumentCount, callee, METHOD_INDEX);
    ActivatedField(x, callee, m, argumentCount, callee, RECEIVER_INDEX);
    ActivatedField(x, callee, m, argumentCount, callee, INSTRUCTION_POINTER_INDEX);
    ActivatedField(x, callee, m, argumentCount, callee, STACK_POINTER_INDEX);
  }

  // The send in the words of the objects: the registers, and sender, method, receiver and arguments of the new
  // context.
  lemma {:induction false} SendInWords(x: Machine, callee: Word, m: Word, argumentCount: int, y: Machine)
    requires Held(x) && CanSend(x, callee, m, argumentCount) && y == Activated(x, callee, m, argumentCount)
    ensures y.r == Registers(callee, callee, Field(x.o, x.r.activeContext, x.r.stackPointer - argumentCount), m,
      2 * (1 + LiteralCountOf(x.o, m)), 5 + TemporaryCountOf(x.o, m))
    ensures forall j {:trigger Field(y.o, callee, j)} :: j == 0 || j >= 3 ==>
      (Field(y.o, callee, j) ==
         if j == 0 then x.r.activeContext
         else if j == 3 then m
         else if 5 <= j <= 5 + argumentCount then
           Field(x.o, x.r.activeContext, x.r.stackPointer - argumentCount + (j - 5))
         else 2)
    ensures SizeOf(y.o, callee) == if LargeContextFlagOf(x.o, m) == 1 then 38 else 18
  {
    ActivatedIs(x, callee, m, argumentCount);
    ActivatedField(x, callee, m, argumentCount, callee, 0);
    forall j | j == 0 || j >= 3
      ensures Field(y.o, callee, j) == AfterSend(x, callee, m, argumentCount, callee, j)
    {
      ActivatedField(x, callee, m, argumentCount, callee, j);
    }
    CalleeInWords(x, callee, m, argumentCount, y.o);
  }

  lemma {:induction false} CalleeInWords(x: Machine, callee: Word, m: Word, argumentCount: int, o: Heap)
    requires Held(x) && CanSend(x, callee, m, argumentCount)
    requires forall j {:trigger Field(o, callee, j)} :: j == 0 || j >= 3 ==>
      Field(o, callee, j) == AfterSend(x, callee, m, argumentCount, callee, j)
    ensures forall j {:trigger Field(o, callee, j)} :: j == 0 || j >= 3 ==>
      (Field(o, callee, j) ==
         if j == 0 then x.r.activeContext
         else if j == 3 then m
         else if 5 <= j <= 5 + argumentCount then
           Field(x.o, x.r.activeContext, x.r.stackPointer - argumentCount + (j - 5))
         else 2)
  {
  }

  // Of the caller the registers are kept in it, and nil stands where receiver and arguments were.
  lemma {:induction false} CallerInWords(x: Machine, callee: Word, m: Word, argumentCount: int, o: Heap)
    requires Held(x) && CanSend(x, callee, m, argumentCount) && o == Activated(x, callee, m, argumentCount).o
    ensures FetchInteger(o, x.r.activeContext, 1) == x.r.instructionPointer + 1 &&
      FetchInteger(o, x.r.activeContext, 2) == x.r.stackPointer - argumentCount - 6
    ensures forall j {:trigger Field(o, x.r.activeContext, j)} :: j == 0 || j >= 3 ==>
      (Field(o, x.r.activeContext, j) ==
         if x.r.stackPointer - argumentCount <= j <= x.r.stackPointer then 2 else Field(x.o, x.r.activeContext, j))
  {
    forall j
      ensures Field(o, x.r.activeContext, j) == AfterSend(x, callee, m, argumentCount, x.r.activeContext, j)
    {
      ActivatedField(x, callee, m, argumentCount, x.r.activeContext, j);
    }
    assert IsIntegerValue(x.r.stackPointer - argumentCount - TEMP_FRAME_START);
    IntegerThere(x.r.instructionPointer + 1);
    IntegerThere(x.r.stackPointer - argumentCount - TEMP_FRAME_START);
  }

  // Returning

  function Pushed(x: Machine, v: Word): Machine {
    Machine(SetField(x.o, x.r.activeContext, x.r.stackPointer + 1, v), x.r.(stackPointer := x.r.stackPointer + 1))
  }

  // The active context is cut off from its sender and can not be resumed.
  function Ended(x: Machine): Heap {
    SetField(SetField(x.o, x.r.activeContext, SENDER_INDEX, NIL_POINTER), x.r.activeContext, INSTRUCTION_POINTER_INDEX,
      NIL_POINTER)
  }

  function Returned(x: Machine, v: Word, context: Word): Machine {
    Pushed(Machine(Ended(x), Fetched(Ended(x), context)), v)
  }

  // There is a context to return to.
  predicate CanReturn(o: Heap, context: Word) {
    context != NIL_POINTER && Field(o, context, INSTRUCTION_POINTER_INDEX) != NIL_POINTER
  }

  function SenderOf(x: Machine): Word {
    Field(x.o, x.r.homeContext, SENDER_INDEX)
  }

  // Runs

  // What a context may do in a run: a call holds all that the callee does before it returns.
  datatype Action = Push(value: Word) | Pop(count: nat) | Jump(to: int) | Store(object_: Word, index: int, value: Word)
                  | Call(context: Word, newMethod: Word, argumentCount: nat, body: seq<Action>, result: Word)

  function Perform(x: Machine, a: Action): Machine
    decreases a, 0
  {
    match a
    case Push(v) => Pushed(x, v)
    case Pop(n) => x.(r := x.r.(stackPointer := x.r.stackPointer - n))
    case Jump(to) => x.(r := x.r.(instructionPointer := to))
    case Store(p, i, v) => x.(o := SetField(x.o, p, i, v))
    case Call(context, m, n, body, v) =>
      var y := PerformAll(Activated(x, context, m, n), body);
      Returned(y, v, SenderOf(y))
  }

  function PerformAll(x: Machine, body: seq<Action>): Machine
    decreases body, |body|
  {
    if body == [] then x else Perform(PerformAll(x, body[..|body| - 1]), body[|body| - 1])
  }

  // The contexts that wait while x sends a message: those that waited, and its own and its home.
  function Waiting(x: Machine, waiting: set<int>): set<int> {
    waiting + {x.r.activeContext as int, x.r.homeContext as int}
  }

  // The stack neither overflows nor underflows, every new context is a new object, and nothing is
  // stored into a context that waits, nor over the fields of the active one that are not temporaries.
  ghost predicate Possible(x: Machine, a: Action, waiting: set<int>)
    decreases a, 0
  {
    match a
    case Push(_) => x.r.stackPointer + 1 < SizeOf(x.o, x.r.activeContext)
    case Pop(n) => TEMP_FRAME_START - 1 <= x.r.stackPointer - n
    case Jump(to) => IsIntegerValue(to + 1)
    case Store(p, i, _) =>
      p as int !in waiting && (p == x.r.activeContext || p == x.r.homeContext ==> i >= TEMP_FRAME_START)
    case Call(context, m, n, body, _) =>
      CanSend(x, context, m, n) && AllPossible(Activated(x, context, m, n), body, Waiting(x, waiting))
  }

  ghost predicate AllPossible(x: Machine, body: seq<Action>, waiting: set<int>)
    decreases body, |body|
  {
    body == [] || (AllPossible(x, body[..|body| - 1], waiting) &&
                   Possible(PerformAll(x, body[..|body| - 1]), body[|body| - 1], waiting))
  }

  ghost predicate SameControl(o: Heap, o': Heap, context: Word) {
    forall i {:trigger Field(o', context, i)} :: i in {SENDER_INDEX, METHOD_INDEX, RECEIVER_INDEX} ==>
      Field(o', context, i) == Field(o, context, i)
  }

  // y runs the same context as x, with the same receiver, method and sender, and no context that waits
  // has changed.
  ghost predicate SameFrame(x: Machine, y: Machine, waiting: set<int>) {
    Held(y) && y.r.activeContext == x.r.activeContext && y.r.homeContext == x.r.homeContext &&
    y.r.receiver == x.r.receiver && y.r.currentMethod == x.r.currentMethod && x.o.Keys <= y.o.Keys &&
    (forall q {:trigger y.o[q]} {:trigger x.o[q]} :: q in waiting && q in x.o ==> y.o[q] == x.o[q]) &&
    x.r.activeContext in x.o && |y.o[x.r.activeContext]| == |x.o[x.r.activeContext]| && SenderOf(y) == SenderOf(x) &&
    SameControl(x.o, y.o, x.r.activeContext) && SameControl(x.o, y.o, x.r.homeContext)
  }

  // What a call comes to: the receiver and the arguments have been replaced by the result, nil is
  // left where they were, and the registers are back.
  ghost predicate CallIs(x: Machine, argumentCount: nat, v: Word, y: Machine) {
    y.r == x.r.(stackPointer := x.r.stackPointer - argumentCount) &&
    forall i {:trigger Field(y.o, x.r.activeContext, i)} :: TEMP_FRAME_START <= i ==>
      (Field(y.o, x.r.activeContext, i) ==
         if i == ReceiverAt(x, argumentCount) then v
         else if ReceiverAt(x, argumentCount) < i <= x.r.stackPointer then NIL_POINTER
         else Field(x.o, x.r.activeContext, i))
  }

  lemma {:induction false} PushedIs(x: Machine, v: Word, waiting: set<int>)
    requires Held(x) && x.r.stackPointer + 1 < |x.o[x.r.activeContext]| && x.r.activeContext as int !in waiting
    ensures SameFrame(x, Pushed(x, v), waiting)
  {
    var y := Pushed(x, v);
    forall q, j
      ensures Field(y.o, q, j) == if q == x.r.activeContext && j == x.r.stackPointer + 1 then v else Field(x.o, q, j)
      ensures SizeOf(y.o, q) == SizeOf(x.o, q) && (q in y.o <==> q in x.o) &&
        (q != x.r.activeContext && q in x.o ==> y.o[q] == x.o[q])
    {
      FieldAfterSet(x.o, x.r.activeContext, x.r.stackPointer + 1, v, q, j);
    }
    assert x.o.Keys <= y.o.Keys;
  }

  lemma {:induction false} StoredIs(x: Machine, p: Word, i: int, v: Word, waiting: set<int>)
    requires Held(x) && Possible(x, Store(p, i, v), waiting)
    ensures SameFrame(x, Perform(x, Store(p, i, v)), waiting)
  {
    var y := Perform(x, Store(p, i, v));
    forall q, j
      ensures Field(y.o, q, j) == if q == p && j == i && p in x.o && 0 <= i < |x.o[p]| then v else Field(x.o, q, j)
      ensures SizeOf(y.o, q) == SizeOf(x.o, q) && (q in y.o <==> q in x.o) && (q != p && q in x.o ==> y.o[q] == x.o[q])
    {
      FieldAfterSet(x.o, p, i, v, q, j);
    }
    assert x.o.Keys <= y.o.Keys;
  }

  lemma {:induction false} FrameOn(x: Machine, y: Machine, z: Machine, waiting: set<int>)
    requires SameFrame(x, y, waiting) && SameFrame(y, z, waiting)
    ensures SameFrame(x, z, waiting)
  {
    forall q | q in waiting && q in x.o
      ensures z.o[q] == x.o[q]
    {
      assert y.o[q] == x.o[q];
    }
    ControlOn(x.o, y.o, z.o, x.r.activeContext);
    ControlOn(x.o, y.o, z.o, x.r.homeContext);
  }

  lemma {:induction false} ControlOn(o: Heap, o': Heap, o'': Heap, context: Word)
    requires SameControl(o, o', context) && SameControl(o', o'', context)
    ensures SameControl(o, o'', context)
  {
    forall i | i in {SENDER_INDEX, METHOD_INDEX, RECEIVER_INDEX}
      ensures Field(o'', context, i) == Field(o, context, i)
    {
      assert Field(o', context, i) == Field(o, context, i);
    }
  }

  // The return, after whatever the callee has done.

  // y is where the callee's run has led.
  ghost predicate Ran(x: Machine, callee: Word, m: Word, argumentCount: nat, y: Machine, waiting: set<int>) {
    Held(x) && CanSend(x, callee, m, argumentCount) &&
    SameFrame(Activated(x, callee, m, argumentCount), y, Waiting(x, waiting))
  }

  lemma {:induction false} BackToCaller(x: Machine, callee: Word, m: Word, argumentCount: nat, y: Machine,
                                        waiting: set<int>)
    requires Ran(x, callee, m, argumentCount, y, waiting)
    ensures y.r.activeContext == callee && SenderOf(y) == x.r.activeContext && x.o.Keys <= y.o.Keys && callee in y.o
    ensures forall q {:trigger y.o[q]} :: q in Waiting(x, waiting) && q in x.o ==>
      q in Activated(x, callee, m, argumentCount).o && y.o[q] == Activated(x, callee, m, argumentCount).o[q]
  {
    ActivatedIs(x, callee, m, argumentCount);
    ActivatedField(x, callee, m, argumentCount, callee, SENDER_INDEX);
    forall q | q in x.o
      ensures q in Activated(x, callee, m, argumentCount).o
    {
      ActivatedField(x, callee, m, argumentCount, q, 0);
    }
  }

  lemma {:induction false} EndedField(x: Machine, callee: Word, m: Word, argumentCount: nat, y: Machine,
                                      waiting: set<int>, q: int, j: int)
    requires Ran(x, callee, m, argumentCount, y, waiting) && q in Waiting(x, waiting) && q in x.o
    ensures Field(Ended(y), q, j) == AfterSend(x, callee, m, argumentCount, q, j) && q in Ended(y) &&
      SizeOf(Ended(y), q) == SizeOf(x.o, q)
    ensures q != x.r.activeContext ==> Ended(y)[q] == x.o[q]
  {
    BackToCaller(x, callee, m, argumentCount, y, waiting);
    ActivatedField(x, callee, m, argumentCount, q, j);
    FieldAfterSet(y.o, callee, SENDER_INDEX, NIL_POINTER, q, j);
    FieldAfterSet(SetField(y.o, callee, SENDER_INDEX, NIL_POINTER), callee, INSTRUCTION_POINTER_INDEX, NIL_POINTER, q,
      j);
    assert y.o[q] == Activated(x, callee, m, argumentCount).o[q];
  }

  lemma {:induction false} CallerFetched(x: Machine, callee: Word, m: Word, argumentCount: nat, y: Machine,
                                         waiting: set<int>)
    requires Ran(x, callee, m, argumentCount, y, waiting)
    ensures Fetched(Ended(y), x.r.activeContext) == x.r.(stackPointer := x.r.stackPointer - argumentCount - 1)
    ensures CanReturn(y.o, x.r.activeContext)
  {
    var c, home := x.r.activeContext, x.r.homeContext;
    EndedField(x, callee, m, argumentCount, y, waiting, c, METHOD_INDEX);
    EndedField(x, callee, m, argumentCount, y, waiting, c, HOME_INDEX);
    EndedField(x, callee, m, argumentCount, y, waiting, c, INSTRUCTION_POINTER_INDEX);
    EndedField(x, callee, m, argumentCount, y, waiting, c, STACK_POINTER_INDEX);
    EndedField(x, callee, m, argumentCount, y, waiting, home, RECEIVER_INDEX);
    EndedField(x, callee, m, argumentCount, y, waiting, home, METHOD_INDEX);
    IntegerThere(x.r.instructionPointer + 1);
    assert IsIntegerValue(x.r.stackPointer - argumentCount - TEMP_FRAME_START);
    IntegerThere(x.r.stackPointer - argumentCount - TEMP_FRAME_START);
    BackToCaller(x, callee, m, argumentCount, y, waiting);
    ActivatedField(x, callee, m, argumentCount, c, INSTRUCTION_POINTER_INDEX);
    assert y.o[c] == Activated(x, callee, m, argumentCount).o[c];
  }

  lemma {:induction false} ReturnedField(x: Machine, callee: Word, m: Word, argumentCount: nat, y: Machine,
                                         waiting: set<int>, v: Word, q: int, j: int)
    requires Ran(x, callee, m, argumentCount, y, waiting) && q in Waiting(x, waiting) && q in x.o
    ensures var z := Returned(y, v, SenderOf(y));
      && q in z.o && SizeOf(z.o, q) == SizeOf(x.o, q) && (q != x.r.activeContext ==> z.o[q] == x.o[q])
      && Field(z.o, q, j) == if q == x.r.activeContext && j == ReceiverAt(x, argumentCount) then v
        else AfterSend(x, callee, m, argumentCount, q, j)
  {
    BackToCaller(x, callee, m, argumentCount, y, waiting);
    CallerFetched(x, callee, m, argumentCount, y, waiting);
    EndedField(x, callee, m, argumentCount, y, waiting, x.r.activeContext, 0);
    EndedField(x, callee, m, argumentCount, y, waiting, q, j);
    FieldAfterSet(Ended(y), x.r.activeContext, ReceiverAt(x, argumentCount), v, q, j);
  }

  lemma {:induction false} KeysStay(x: Machine, callee: Word, m: Word, argumentCount: nat, y: Machine,
                                    waiting: set<int>, v: Word)
    requires Ran(x, callee, m, argumentCount, y, waiting)
    ensures x.o.Keys <= Returned(y, v, SenderOf(y)).o.Keys
  {
    BackToCaller(x, callee, m, argumentCount, y, waiting);
  }

  // A call, whatever runs in it, comes to the replacement of receiver and arguments by its result;
  // no context that waits changes but the caller's, and the callee can not be returned to.
  lemma {:induction false} CallReturns(x: Machine, callee: Word, m: Word, argumentCount: nat, y: Machine, v: Word,
                                       waiting: set<int>)
    requires Ran(x, callee, m, argumentCount, y, waiting) && x.r.activeContext as int !in waiting
    ensures CanReturn(y.o, SenderOf(y))
    ensures CallIs(x, argumentCount, v, Returned(y, v, SenderOf(y)))
    ensures SameFrame(x, Returned(y, v, SenderOf(y)), waiting)
    ensures var o := Returned(y, v, SenderOf(y)).o;
      Field(o, callee, 0) == NIL_POINTER && Field(o, callee, 1) == NIL_POINTER && !CanReturn(o, callee)
  {
    CalleeEnded(x, callee, m, argumentCount, y, v, waiting);
    var z, c := Returned(y, v, SenderOf(y)), x.r.activeContext;
    BackToCaller(x, callee, m, argumentCount, y, waiting);
    CallerFetched(x, callee, m, argumentCount, y, waiting);
    forall q | q in Waiting(x, waiting) && q in x.o
      ensures q in z.o && SizeOf(z.o, q) == SizeOf(x.o, q) && (q != c ==> z.o[q] == x.o[q])
    {
      ReturnedField(x, callee, m, argumentCount, y, waiting, v, q, 0);
    }
    forall j
      ensures Field(z.o, c, j) == if j == ReceiverAt(x, argumentCount) then v
        else AfterSend(x, callee, m, argumentCount, c, j)
    {
      ReturnedField(x, callee, m, argumentCount, y, waiting, v, c, j);
    }
    KeysStay(x, callee, m, argumentCount, y, waiting, v);
    CallFrame(x, callee, m, argumentCount, v, z, waiting);
  }

  lemma {:induction false} CalleeEnded(x: Machine, callee: Word, m: Word, argumentCount: nat, y: Machine, v: Word,
                                       waiting: set<int>)
    requires Ran(x, callee, m, argumentCount, y, waiting)
    ensures var o := Returned(y, v, SenderOf(y)).o;
      Field(o, callee, 0) == NIL_POINTER && Field(o, callee, 1) == NIL_POINTER
  {
    BackToCaller(x, callee, m, argumentCount, y, waiting);
    CallerFetched(x, callee, m, argumentCount, y, waiting);
    forall j | 0 <= j <= 1
      ensures Field(Ended(y), callee, j) == NIL_POINTER
    {
      FieldAfterSet(y.o, callee, SENDER_INDEX, NIL_POINTER, callee, j);
      FieldAfterSet(SetField(y.o, callee, SENDER_INDEX, NIL_POINTER), callee, INSTRUCTION_POINTER_INDEX, NIL_POINTER,
        callee, j);
      FieldAfterSet(Ended(y), x.r.activeContext, ReceiverAt(x, argumentCount), v, callee, j);
    }
  }

  lemma {:induction false} CallFrame(x: Machine, callee: Word, m: Word, argumentCount: nat, v: Word, z: Machine,
                                     waiting: set<int>)
    requires Held(x) && CanSend(x, callee, m, argumentCount) &&
      z.r == x.r.(stackPointer := x.r.stackPointer - argumentCount) && x.o.Keys <= z.o.Keys
    requires forall q {:trigger z.o[q]} :: q in Waiting(x, waiting) && q in x.o && q != x.r.activeContext ==>
      z.o[q] == x.o[q]
    requires |z.o[x.r.activeContext]| == |x.o[x.r.activeContext]| && x.r.activeContext as int !in waiting
    requires forall j {:trigger Field(z.o, x.r.activeContext, j)} ::
      (Field(z.o, x.r.activeContext, j) == if j == ReceiverAt(x, argumentCount) then v
        else AfterSend(x, callee, m, argumentCount, x.r.activeContext, j))
    ensures CallIs(x, argumentCount, v, z) && SameFrame(x, z, waiting)
  {
    var c, home := x.r.activeContext, x.r.homeContext;
    assert Field(z.o, c, METHOD_INDEX) == Field(x.o, c, METHOD_INDEX) &&
      Field(z.o, c, HOME_INDEX) == Field(x.o, c, HOME_INDEX);
    assert Field(z.o, c, SENDER_INDEX) == Field(x.o, c, SENDER_INDEX);
    if home != c {
      assert z.o[home] == x.o[home];
    }
  }

  // Whatever a context does, calls and what runs in them included, it stays in its frame.
  lemma {:induction false} StaysInFrame(x: Machine, a: Action, waiting: set<int>)
    requires Held(x) && Possible(x, a, waiting) && x.r.activeContext as int !in waiting && waiting <= x.o.Keys
    ensures SameFrame(x, Perform(x, a), waiting)
    decreases a, 0
  {
    match a
    case Push(v) => PushedIs(x, v, waiting);
    case Pop(n) =>
    case Jump(to) =>
    case Store(p, i, v) => StoredIs(x, p, i, v, waiting);
    case Call(context, m, n, body, v) =>
      ActivatedIs(x, context, m, n);
      ActivatedKeys(x, context, m, n);
      AllStayInFrame(Activated(x, context, m, n), body, Waiting(x, waiting));
      CallReturns(x, context, m, n, PerformAll(Activated(x, context, m, n), body), v, waiting);
  }

  lemma {:induction false} ActivatedKeys(x: Machine, callee: Word, m: Word, argumentCount: nat)
    requires Held(x) && CanSend(x, callee, m, argumentCount)
    ensures x.o.Keys <= Activated(x, callee, m, argumentCount).o.Keys
  {
    forall q | q in x.o
      ensures q in Activated(x, callee, m, argumentCount).o
    {
      ActivatedField(x, callee, m, argumentCount, q, 0);
    }
  }

  lemma {:induction false} AllStayInFrame(x: Machine, body: seq<Action>, waiting: set<int>)
    requires Held(x) && AllPossible(x, body, waiting) && x.r.activeContext as int !in waiting && waiting <= x.o.Keys
    ensures SameFrame(x, PerformAll(x, body), waiting)
    decreases body, |body|
  {
    if body != [] {
      var most, last := body[..|body| - 1], body[|body| - 1];
      AllStayInFrame(x, most, waiting);
      StaysInFrame(PerformAll(x, most), last, waiting);
      FrameOn(x, PerformAll(x, most), PerformAll(x, body), waiting);
    }
  }

  // A send and everything that runs until its return: the caller's registers and stack are as before,
  // but that the result stands for receiver and arguments.
  lemma {:induction false} SendReturns(x: Machine, callee: Word, m: Word, argumentCount: nat, body: seq<Action>,
                                       v: Word, waiting: set<int>)
    requires Held(x) && x.r.activeContext as int !in waiting && waiting <= x.o.Keys
    requires Possible(x, Call(callee, m, argumentCount, body, v), waiting)
    ensures CallIs(x, argumentCount, v, Perform(x, Call(callee, m, argumentCount, body, v)))
    ensures CanReturn(PerformAll(Activated(x, callee, m, argumentCount), body).o, x.r.activeContext)
  {
    var y := PerformAll(Activated(x, callee, m, argumentCount), body);
    ActivatedIs(x, callee, m, argumentCount);
    ActivatedKeys(x, callee, m, argumentCount);
    AllStayInFrame(Activated(x, callee, m, argumentCount), body, Waiting(x, waiting));
    BackToCaller(x, callee, m, argumentCount, y, waiting);
    CallReturns(x, callee, m, argumentCount, y, v, waiting);
  }
}
