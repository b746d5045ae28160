// Sending and returning on the object memory itself: each call it makes is a step of a run.
module Activations {
  import opened Words
  import opened Memory
  import opened Traversal
  import opened RefCounts
  import opened Layouts
  import opened Freeing
  import opened StorePointers
  import opened Accounts
  import opened ObjectAllocation
  import opened Soundness
  import opened MemoryRuns
  import opened RunCounts
  import opened CallCounts

  // What field i of p holds is an integer, or held by a register or another place, or stuck.
  ghost predicate HeldElsewhere(x: Config, p: int, i: int) {
    var w := WordOf(x.s, p, i);
    IsInteger(w) || x.s.E(w).count == STUCK || x.ext[w] > 0 || exists r, j :: HeldAt(x, r, j, w) && (r, j) != (p, i)
  }

  ghost predicate HeldAt(x: Config, r: int, j: int, w: int) {
    (r, j) in Places(x.s, x.g.alloc) && WordOf(x.s, r, j) == w
  }

  lemma {:induction false} OneHolder(s: State, A: set<int>, hole: set<(int, int)>, r: int, j: int)
    requires (r, j) in Places(s, A) - hole
    ensures Refs(s, A, hole, WordOf(s, r, j)) >= 1
  {
    assert (r, j) in Holders(s, Places(s, A) - hole, WordOf(s, r, j));
  }

  // Then every object does without the field.
  lemma {:induction false} AllSupported(x: Config, p: int, i: int)
    requires SoundAt(x) && p in x.g.alloc && PointerField(x.s, p, i) && HeldElsewhere(x, p, i)
    ensures KeptWithout(x.s, x.g, x.ext, p, i, x.g.alloc)
  {
    forall r | r in x.g.alloc
      ensures x.s.E(r).count >= STUCK || x.s.E(r).count == 0 || x.ext[r] >= 1 || Refs(x.s, x.g.alloc, {(p, i)}, r) >= 1
    {
      SupportedThere(x, p, i, r);
    }
  }

  lemma {:induction false} SupportedThere(x: Config, p: int, i: int, r: int)
    requires SoundAt(x) && p in x.g.alloc && PointerField(x.s, p, i) && HeldElsewhere(x, p, i) && r in x.g.alloc
    ensures x.s.E(r).count >= STUCK || x.s.E(r).count == 0 || x.ext[r] >= 1 || Refs(x.s, x.g.alloc, {(p, i)}, r) >= 1
  {
    CountAtMost(x, r);
    SoundReady(x.s, x.g, x.ext);
    AllocEven(x.s, x.g, r);
    assert (p, i) in Places(x.s, x.g.alloc);
    RefsAtHole(x.s, x.g.alloc, (p, i), r);
    if WordOf(x.s, p, i) == r && x.s.E(r).count < STUCK && x.ext[r] == 0 {
      var q, j :| HeldAt(x, q, j, r) && (q, j) != (p, i);
      OneHolder(x.s, x.g.alloc, {(p, i)}, q, j);
    }
  }

  // A store that frees nothing.
  method StoreKeeping(om: ObjectMemory, p: Word, fieldIndex: nat, v: Word, ghost x: Config) returns (ghost y: Config)
    requires om.Valid() && om.st == x.s && SoundAt(x) && p in x.g.alloc && (IsInteger(v) || v in x.g.alloc)
    requires PointerField(x.s, p, WordAt(fieldIndex)) && HeldElsewhere(x, p, WordAt(fieldIndex))
    modifies om`st, om`freeWords, om`freeOops, om.mem
    ensures om.Valid() && om.st == y.s && Makes(x, Store(p, WordAt(fieldIndex), v), y) && y.g.alloc == x.g.alloc
    ensures SoundAt(y) && y.ext == x.ext
  {
    AllSupported(x, p, WordAt(fieldIndex));
    y := Stores(om, p, fieldIndex, v, x, x.g.alloc);
    MakesSound(x, Store(p, WordAt(fieldIndex), v), y);
  }

  // A register gives up an object that a field holds as well: nothing is freed.
  lemma {:induction false} ReleaseKeeps(x: Config, p: int, y: Config, r: int, j: int)
    requires SoundAt(x) && Makes(x, Release(p), y) && HeldAt(x, r, j, p)
    ensures y.g.alloc == x.g.alloc
  {
    var d := Drop(y.ext, NO_HOLE, {});
    var order :| Freed(x.s, x.g, d, y.s, y.g, order);
    SoundRegisters(x.s, x.g, x.ext);
    SoundReady(x.s, x.g, x.ext);
    AllocEven(x.s, x.g, p);
    ReadyToDrop(x.s, x.g, x.ext, p);
    forall q | q in x.g.alloc
      ensures x.s.E(q).count >= STUCK || x.s.E(q).count == 0 || y.ext[q] >= 1 || Refs(x.s, x.g.alloc, NO_HOLE, q) >= 1
    {
      CountAtMost(x, q);
      OneHolder(x.s, x.g.alloc, NO_HOLE, r, j);
    }
    assert Supported(x.s, x.g.alloc, d.(keep := x.g.alloc));
    assert Shaped(x.s) && Supported(x.s, x.g.alloc, d) by {
      CountAtMost(x, p);
    }
    forall q | q in x.g.alloc
      ensures q in y.g.alloc
    {
      FreedExactly(x.s, x.g, d, y.s, y.g, order, q);
    }
    assert OpenFreed(0);
  }

  // The send

  // What the caller brings to a send.
  ghost predicate CallerReady(x: Config, c: Send) {
    SoundAt(x) && c.caller as int in x.g.alloc && x.ext[c.caller] > 0 && x.s.E(c.caller).pointer == 1 &&
    c.first >= Contexts.TEMP_FRAME_START && WordAt(c.first) + |c.moved| <= SizeOf(x.s, c.caller) &&
    WordAt(Contexts.METHOD_INDEX) <= SizeOf(x.s, c.caller) &&
    IsInteger(WordOf(x.s, c.caller, WordAt(Contexts.INSTRUCTION_POINTER_INDEX))) &&
    IsInteger(WordOf(x.s, c.caller, WordAt(Contexts.STACK_POINTER_INDEX)))
  }

  // Of the callee's fields those from `filled` on are nil, and of what is to be moved that from `done` on
  // is still in the caller.
  ghost predicate Frame(x: Config, c: Send, filled: nat, done: nat) {
    CallerReady(x, c) && c.callee as int in x.g.alloc && c.callee != c.caller && x.s.E(c.callee).pointer == 1 &&
    SizeOf(x.s, c.callee) == c.size && WordAt(Contexts.RECEIVER_INDEX) + |c.moved| <= c.size &&
    (forall i {:trigger WordOf(x.s, c.callee, i)} :: WordAt(filled) <= i < c.size ==>
      WordOf(x.s, c.callee, i) == NIL_POINTER) &&
    (filled > 0 ==> WordOf(x.s, c.callee, WordAt(Contexts.SENDER_INDEX)) == c.caller) &&
    forall k {:trigger c.moved[k]} :: done <= k < |c.moved| ==>
      WordOf(x.s, c.caller, WordAt(c.first + k)) == c.moved[k]
  }

  lemma {:induction false} NilHeld(x: Config, p: int, i: int)
    requires SoundAt(x) && WordOf(x.s, p, i) == NIL_POINTER
    ensures HeldElsewhere(x, p, i)
  {
    assert OpenSound(0);
  }

  lemma {:induction false} PlaceOf(x: Config, p: int, i: int)
    requires x.s.E(p).pointer == 1 && HEADER_SIZE <= i < SizeOf(x.s, p)
    ensures PointerField(x.s, p, i) && (p in x.g.alloc ==> HeldAt(x, p, i, WordOf(x.s, p, i)))
  {
  }

  // A field of the callee is stored.
  lemma {:induction false} FrameStored(x: Config, c: Send, filled: nat, done: nat, f: nat, v: int, y: Config)
    requires Frame(x, c, filled, done) && Makes(x, Store(c.callee, WordAt(f), v), y) && filled <= f &&
      WordAt(f) < c.size
    requires y.g.alloc == x.g.alloc && SoundAt(y) && (f == 0 ==> v == c.caller) && (f > 0 ==> filled > 0)
    ensures Frame(y, c, f + 1, done)
  {
    var a := Store(c.callee, WordAt(f), v);
    MakesRemains(x, a, y, c.callee);
    MakesRemains(x, a, y, c.caller);
    CallerStays(x, c, done, a, y);
    CalleeStored(x, c, filled, f, v, y);
  }

  lemma {:induction false} CallerStays(x: Config, c: Send, done: nat, a: Operation, y: Config)
    requires CallerReady(x, c) && Remains(x, a, y, c.caller) && SoundAt(y) && y.ext == x.ext && y.g.alloc == x.g.alloc
    requires a.Store? && a.p != c.caller
    requires forall k {:trigger c.moved[k]} :: done <= k < |c.moved| ==>
      WordOf(x.s, c.caller, WordAt(c.first + k)) == c.moved[k]
    ensures CallerReady(y, c)
    ensures forall k {:trigger c.moved[k]} :: done <= k < |c.moved| ==>
      WordOf(y.s, c.caller, WordAt(c.first + k)) == c.moved[k]
  {
    forall k | done <= k < |c.moved|
      ensures WordOf(y.s, c.caller, WordAt(c.first + k)) == c.moved[k]
    {
      assert WordOf(x.s, c.caller, WordAt(c.first + k)) == c.moved[k];
    }
  }

  lemma {:induction false} CalleeStored(x: Config, c: Send, filled: nat, f: nat, v: int, y: Config)
    requires Remains(x, Store(c.callee, WordAt(f), v), y, c.callee) && SizeOf(x.s, c.callee) == c.size && filled <= f
    requires forall i {:trigger WordOf(x.s, c.callee, i)} :: WordAt(filled) <= i < c.size ==>
      WordOf(x.s, c.callee, i) == NIL_POINTER
    requires filled > 0 ==> WordOf(x.s, c.callee, WordAt(Contexts.SENDER_INDEX)) == c.caller
    requires (f == 0 ==> v == c.caller) && (f > 0 ==> filled > 0) && WordAt(f) < c.size
    ensures forall i {:trigger WordOf(y.s, c.callee, i)} :: WordAt(f + 1) <= i < c.size ==>
      WordOf(y.s, c.callee, i) == NIL_POINTER
    ensures WordOf(y.s, c.callee, WordAt(Contexts.SENDER_INDEX)) == c.caller
  {
    forall i | WordAt(f + 1) <= i < c.size
      ensures WordOf(y.s, c.callee, i) == NIL_POINTER
    {
      assert WordOf(x.s, c.callee, i) == NIL_POINTER;
    }
  }

  // A field of the caller is stored.
  lemma {:induction false} FrameMoved(x: Config, c: Send, filled: nat, done: nat, i: int, v: int, y: Config, done': nat)
    requires Frame(x, c, filled, done) && Makes(x, Store(c.caller, i, v), y) && y.g.alloc == x.g.alloc && SoundAt(y)
    requires HEADER_SIZE <= i && (IsInteger(v) || i >= WordAt(Contexts.TEMP_FRAME_START))
    requires done <= done' && (i < WordAt(c.first) || i < WordAt(c.first + done') || i >= WordAt(c.first + |c.moved|))
    ensures Frame(y, c, filled, done')
  {
    var a := Store(c.caller, i, v);
    MakesRemains(x, a, y, c.callee);
    MakesRemains(x, a, y, c.caller);
    forall k | done' <= k < |c.moved|
      ensures WordOf(y.s, c.caller, WordAt(c.first + k)) == c.moved[k]
    {
      assert WordOf(x.s, c.caller, WordAt(c.first + k)) == c.moved[k];
    }
  }

  // The steps made so far; nothing has been freed since the callee was allocated.
  ghost predicate Sending(run: seq<Config>, c: Send, t: nat) {
    |run| == t + 1 && t <= SendLength(c) && SoundAt(run[0]) &&
    (forall k {:trigger StepMade(run, c, k)} :: 0 <= k < t ==> StepMade(run, c, k)) &&
    (forall k {:trigger run[k]} :: 1 <= k <= t ==>
      run[k].g.alloc == run[1].g.alloc && c.callee as int in run[k].g.alloc) &&
    forall k {:trigger run[k]} :: 0 <= k <= t && k <= SendLength(c) - 2 ==> run[k].ext == run[0].ext
  }

  ghost predicate StepMade(run: seq<Config>, c: Send, k: int) {
    0 <= k < |run| - 1 && k < SendLength(c) && Makes(run[k], SendStep(c, k), run[k + 1])
  }

  lemma {:induction false} SendingOn(run: seq<Config>, c: Send, t: nat, y: Config)
    requires Sending(run, c, t) && 1 <= t < SendLength(c) && Makes(run[t], SendStep(c, t), y) &&
      y.g.alloc == run[t].g.alloc
    requires t < SendLength(c) - 2 ==> y.ext == run[t].ext
    ensures Sending(run + [y], c, t + 1)
  {
    var run' := run + [y];
    forall k | 0 <= k <= t + 1
      ensures run'[k] == if k <= t then run[k] else y
    {
    }
    forall k | 0 <= k < t + 1
      ensures StepMade(run', c, k)
    {
      if k < t {
        assert StepMade(run, c, k) && run'[k] == run[k] && run'[k + 1] == run[k + 1];
      }
    }
  }

  // One step of a send into the callee.
  method SendInto(om: ObjectMemory, callee: Word, f: nat, v: Word, ghost run: seq<Config>, ghost c: Send, ghost t: nat,
                  ghost filled: nat, ghost done: nat)
    returns (ghost run': seq<Config>)
    requires om.Valid() && Sending(run, c, t) && 1 <= t < SendLength(c) && om.st == run[t].s && callee == c.callee
    requires Frame(run[t], c, filled, done) && filled <= f && WordAt(f) < c.size
    requires SendStep(c, t) == Store(c.callee, WordAt(f), v) && (IsInteger(v) || v in run[t].g.alloc)
    requires (f == 0 ==> v == c.caller) && (f > 0 ==> filled > 0)
    modifies om`st, om`freeWords, om`freeOops, om.mem
    ensures om.Valid() && Sending(run', c, t + 1) && om.st == run'[t + 1].s && Frame(run'[t + 1], c, f + 1, done)
    ensures run' == run + [run'[t + 1]] && run'[t + 1].g.alloc == run[t].g.alloc
    ensures WordOf(run'[t + 1].s, c.callee, WordAt(f)) == v
  {
    ghost var x := run[t];
    NilHeld(x, callee, WordAt(f));
    PlaceOf(x, callee, WordAt(f));
    ghost var y := StoreKeeping(om, callee, f, v, x);
    FrameStored(x, c, filled, done, f, v, y);
    SendingOn(run, c, t, y);
    MakesRemains(x, Store(c.callee, WordAt(f), v), y, c.callee);
    run' := run + [y];
  }

  // One step of a send in the caller: what it stores over is held elsewhere.
  method SendFrom(om: ObjectMemory, caller: Word, f: nat, v: Word, ghost run: seq<Config>, ghost c: Send, ghost t: nat,
                  ghost filled: nat, ghost done: nat, ghost done': nat)
    returns (ghost run': seq<Config>)
    requires om.Valid() && Sending(run, c, t) && 1 <= t < SendLength(c) && om.st == run[t].s && caller == c.caller
    requires Frame(run[t], c, filled, done) && SendStep(c, t) == Store(c.caller, WordAt(f), v) &&
      WordAt(f) < SizeOf(run[t].s, c.caller)
    requires IsInteger(v) || (v == NIL_POINTER && f >= Contexts.TEMP_FRAME_START)
    requires done <= done' && (f < c.first || f < c.first + done' || f >= c.first + |c.moved|)
    requires HeldElsewhere(run[t], caller, WordAt(f))
    modifies om`st, om`freeWords, om`freeOops, om.mem
    ensures om.Valid() && Sending(run', c, t + 1) && om.st == run'[t + 1].s && Frame(run'[t + 1], c, filled, done')
    ensures run' == run + [run'[t + 1]] && run'[t + 1].g.alloc == run[t].g.alloc
  {
    ghost var x := run[t];
    PlaceOf(x, caller, WordAt(f));
    SoundReady(x.s, x.g, x.ext);
    ghost var y := StoreKeeping(om, caller, f, v, x);
    FrameMoved(x, c, filled, done, WordAt(f), v, y, done');
    SendingOn(run, c, t, y);
    run' := run + [y];
  }

  lemma {:induction false} FieldThere(x: Config, p: int, i: int)
    requires SoundAt(x) && p in x.g.alloc && x.s.E(p).pointer == 1 && HEADER_SIZE <= i < SizeOf(x.s, p)
    ensures IsInteger(WordOf(x.s, p, i)) || WordOf(x.s, p, i) in x.g.alloc
  {
    assert OpenSound(0) && OpenHealthy(0);
    if !IsInteger(WordOf(x.s, p, i)) {
      assert PointsTo(x.s, p, i, WordOf(x.s, p, i));
    }
  }

  function Fill(k: nat): nat {
    if k == 0 then 4 else Contexts.RECEIVER_INDEX + k
  }

  // The transfer of the receiver or of one argument,
  method TransferOne(om: ObjectMemory, caller: Word, callee: Word, first: nat, k: nat, ghost run: seq<Config>,
                     ghost c: Send)
    returns (ghost run': seq<Config>)
    requires om.Valid() && k < |c.moved| && Sending(run, c, 5 + 2 * k) && om.st == run[5 + 2 * k].s
    requires caller == c.caller && callee == c.callee && first == c.first && Frame(run[5 + 2 * k], c, Fill(k), k)
    modifies om`st, om`freeWords, om`freeOops, om.mem
    ensures om.Valid() && Sending(run', c, 7 + 2 * k) && om.st == run'[7 + 2 * k].s
    ensures Frame(run'[7 + 2 * k], c, Fill(k + 1), k + 1) && run' == run + run'[|run|..]
  {
    ghost var run1 := MoveIn(om, caller, callee, first, k, run, c, 5 + 2 * k);
    run' := MoveOut(om, caller, first, k, run1, c, 6 + 2 * k);
  }

  // to the callee,
  method MoveIn(om: ObjectMemory, caller: Word, callee: Word, first: nat, k: nat, ghost run: seq<Config>, ghost c: Send,
                ghost t: nat)
    returns (ghost run': seq<Config>)
    requires om.Valid() && k < |c.moved| && Sending(run, c, t) && t == 5 + 2 * k && om.st == run[t].s
    requires caller == c.caller && callee == c.callee && first == c.first && Frame(run[t], c, Fill(k), k)
    modifies om`st, om`freeWords, om`freeOops, om.mem
    ensures om.Valid() && Sending(run', c, t + 1) && om.st == run'[t + 1].s && Frame(run'[t + 1], c, Fill(k + 1), k)
    ensures run' == run + [run'[t + 1]] && HeldElsewhere(run'[t + 1], caller, WordAt(first + k))
  {
    ghost var x := run[t];
    FrameInHeap(x, c, WordAt(first + k));
    var oop := om.HeapChunkWord(caller, WordAt(first + k));
    assert oop == c.moved[k];
    FieldThere(x, caller, WordAt(first + k));
    run' := SendInto(om, callee, Contexts.RECEIVER_INDEX + k, oop, run, c, t, Fill(k), k);
    MovedHeld(run'[t + 1], c, k);
  }

  // and nil in its place.
  method MoveOut(om: ObjectMemory, caller: Word, first: nat, k: nat, ghost run: seq<Config>, ghost c: Send,
                 ghost t: nat)
    returns (ghost run': seq<Config>)
    requires om.Valid() && k < |c.moved| && Sending(run, c, t) && t == 6 + 2 * k && om.st == run[t].s
    requires caller == c.caller && first == c.first && Frame(run[t], c, Fill(k + 1), k)
    requires HeldElsewhere(run[t], caller, WordAt(first + k))
    modifies om`st, om`freeWords, om`freeOops, om.mem
    ensures om.Valid() && Sending(run', c, t + 1) && om.st == run'[t + 1].s && Frame(run'[t + 1], c, Fill(k + 1), k + 1)
    ensures run' == run + [run'[t + 1]]
  {
    assert SendStep(c, t) == Store(c.caller, WordAt(c.first + k), NIL_POINTER);
    run' := SendFrom(om, caller, first + k, NIL_POINTER, run, c, t, Fill(k + 1), k, k + 1);
  }

  lemma {:induction false} FrameInHeap(x: Config, c: Send, i: int)
    requires CallerReady(x, c) && 0 <= i < SizeOf(x.s, c.caller)
    ensures Oop(c.caller) && InHeap(x.s.E(c.caller), i)
  {
    SoundReady(x.s, x.g, x.ext);
    AllocEven(x.s, x.g, c.caller);
    assert Sized(x.s, c.caller, x.g.len[c.caller]) && Placed(x.s, c.caller, x.g.len[c.caller]) by {
      assert OpenLayout(0);
    }
  }

  // What has been moved is held by the callee as well.
  lemma {:induction false} MovedHeld(y: Config, c: Send, k: nat)
    requires Frame(y, c, Fill(k + 1), k) && k < |c.moved|
    requires WordOf(y.s, c.callee, WordAt(Contexts.RECEIVER_INDEX + k)) == c.moved[k]
    ensures HeldElsewhere(y, c.caller, WordAt(c.first + k))
  {
    PlaceOf(y, c.callee, WordAt(Contexts.RECEIVER_INDEX + k));
    assert HeldAt(y, c.callee, WordAt(Contexts.RECEIVER_INDEX + k), c.moved[k]);
  }

  // The new context: its fields are nil.
  lemma {:induction false} FrameBegins(x: Config, c: Send, y: Config)
    requires CallerReady(x, c) && Makes(x, SendStep(c, 0), y) && WordAt(Contexts.RECEIVER_INDEX) + |c.moved| <= c.size
    requires forall k {:trigger c.moved[k]} :: 0 <= k < |c.moved| ==>
      WordOf(x.s, c.caller, WordAt(c.first + k)) == c.moved[k]
    ensures Frame(y, c, 0, 0) && Sending([x, y], c, 1) && y.g.alloc == x.g.alloc + {c.callee as int}
  {
    var a := SendStep(c, 0);
    MakesSound(x, a, y);
    NewContext(x, c, y);
    MakesRemains(x, a, y, c.caller);
    CallerKept(x, c, a, y);
    assert StepMade([x, y], c, 0);
  }

  lemma {:induction false} NewContext(x: Config, c: Send, y: Config)
    requires SoundAt(x) && Makes(x, SendStep(c, 0), y)
    ensures y.g.alloc == x.g.alloc + {c.callee as int} && c.callee as int !in x.g.alloc && y.ext == x.ext
    ensures y.s.E(c.callee).pointer == 1 && SizeOf(y.s, c.callee) == c.size
    ensures forall i {:trigger WordOf(y.s, c.callee, i)} :: HEADER_SIZE <= i < c.size ==>
      WordOf(y.s, c.callee, i) == NIL_POINTER
  {
    var u, h :| Allotted(x.s, x.g, u, h, c.callee, c.size, 0, 1, c.contextClass, y.s) && y.g == WithObject(h, c.callee);
    MadeItself(u, h, c.callee, c.size, 0, 1, c.contextClass, y.s);
    HandParts(u, h, c.callee);
  }

  lemma {:induction false} CallerKept(x: Config, c: Send, a: Operation, y: Config)
    requires CallerReady(x, c) && Remains(x, a, y, c.caller) && SoundAt(y) && y.ext == x.ext && !a.Store?
    requires c.caller as int in y.g.alloc
    requires forall k {:trigger c.moved[k]} :: 0 <= k < |c.moved| ==>
      WordOf(x.s, c.caller, WordAt(c.first + k)) == c.moved[k]
    ensures CallerReady(y, c)
    ensures forall k {:trigger c.moved[k]} :: 0 <= k < |c.moved| ==>
      WordOf(y.s, c.caller, WordAt(c.first + k)) == c.moved[k]
  {
    forall k | 0 <= k < |c.moved|
      ensures WordOf(y.s, c.caller, WordAt(c.first + k)) == c.moved[k]
    {
      assert WordOf(x.s, c.caller, WordAt(c.first + k)) == c.moved[k];
    }
  }

  // Sender, registers and method.
  method FillFrame(om: ObjectMemory, caller: Word, callee: Word, newMethod: Word, initial: Word, temporaries: Word,
                   ghost run: seq<Config>, ghost c: Send)
    returns (ghost run': seq<Config>)
    requires om.Valid() && Sending(run, c, 1) && om.st == run[1].s && Frame(run[1], c, 0, 0)
    requires caller == c.caller && callee == c.callee && newMethod == c.newMethod && initial == c.initial &&
      temporaries == c.temporaries
    requires IsInteger(initial) && IsInteger(temporaries) && (IsInteger(newMethod) || newMethod in run[1].g.alloc)
    modifies om`st, om`freeWords, om`freeOops, om.mem
    ensures om.Valid() && Sending(run', c, 5) && om.st == run'[5].s && Frame(run'[5], c, 4, 0) && run'[0] == run[0]
  {
    run' := SendInto(om, callee, Contexts.SENDER_INDEX, caller, run, c, 1, 0, 0);
    run' := SendInto(om, callee, Contexts.INSTRUCTION_POINTER_INDEX, initial, run', c, 2, 1, 0);
    run' := FillRest(om, callee, newMethod, temporaries, run', c);
  }

  method FillRest(om: ObjectMemory, callee: Word, newMethod: Word, temporaries: Word, ghost run: seq<Config>,
                  ghost c: Send)
    returns (ghost run': seq<Config>)
    requires om.Valid() && Sending(run, c, 3) && om.st == run[3].s && Frame(run[3], c, 2, 0)
    requires callee == c.callee && newMethod == c.newMethod && temporaries == c.temporaries
    requires IsInteger(temporaries) && (IsInteger(newMethod) || newMethod in run[3].g.alloc)
    modifies om`st, om`freeWords, om`freeOops, om.mem
    ensures om.Valid() && Sending(run', c, 5) && om.st == run'[5].s && Frame(run'[5], c, 4, 0) && run'[0] == run[0]
  {
    run' := SendInto(om, callee, Contexts.STACK_POINTER_INDEX, temporaries, run, c, 3, 2, 0);
    run' := SendInto(om, callee, Contexts.METHOD_INDEX, newMethod, run', c, 4, 3, 0);
  }

  method TransferAll(om: ObjectMemory, caller: Word, callee: Word, first: nat, count: nat, ghost run: seq<Config>,
                     ghost c: Send)
    returns (ghost run': seq<Config>)
    requires om.Valid() && Sending(run, c, 5) && om.st == run[5].s && Frame(run[5], c, 4, 0) && count == |c.moved|
    requires caller == c.caller && callee == c.callee && first == c.first
    modifies om`st, om`freeWords, om`freeOops, om.mem
    ensures om.Valid() && Sending(run', c, 5 + 2 * count) && om.st == run'[5 + 2 * count].s && run'[0] == run[0]
    ensures Frame(run'[5 + 2 * count], c, Fill(count), count)
  {
    run' := run;
    var k := 0;
    while k < count
      invariant 0 <= k <= count && om.Valid() && Sending(run', c, 5 + 2 * k) && om.st == run'[5 + 2 * k].s
      invariant Frame(run'[5 + 2 * k], c, Fill(k), k) && run'[0] == run[0]
    {
      run' := TransferOne(om, caller, callee, first, k, run', c);
      k := k + 1;
    }
  }

  // newActiveContext: the registers are stored, and the callee takes the caller's place in the register.
  method StoreRegisters(om: ObjectMemory, caller: Word, callee: Word, instructionPointer: Word, stackPointer: Word,
                        ghost run: seq<Config>, ghost c: Send)
    returns (ghost run': seq<Config>)
    requires om.Valid() && Sending(run, c, SendLength(c) - 4) && om.st == run[SendLength(c) - 4].s
    requires Frame(run[SendLength(c) - 4], c, Fill(|c.moved|), |c.moved|) && caller == c.caller && callee == c.callee
    requires instructionPointer == c.instructionPointer && stackPointer == c.stackPointer
    requires IsInteger(instructionPointer) && IsInteger(stackPointer)
    modifies om`st, om`freeWords, om`freeOops, om.mem
    ensures om.Valid() && Sending(run', c, SendLength(c) - 2) && om.st == run'[SendLength(c) - 2].s && run'[0] == run[0]
    ensures Frame(run'[SendLength(c) - 2], c, Fill(|c.moved|), |c.moved|)
  {
    ghost var n, m := SendLength(c) - 4, |c.moved|;
    run' := SendFrom(om, caller, Contexts.INSTRUCTION_POINTER_INDEX, instructionPointer, run, c, n, Fill(m), m, m);
    run' := SendFrom(om, caller, Contexts.STACK_POINTER_INDEX, stackPointer, run', c, n + 1, Fill(m), m, m);
  }

  method Switch(om: ObjectMemory, caller: Word, callee: Word, ghost run: seq<Config>, ghost c: Send, ghost t: nat)
    returns (ghost run': seq<Config>)
    requires om.Valid() && Sending(run, c, t) && t == SendLength(c) - 2 && om.st == run[t].s && t >= 1
    requires Frame(run[t], c, Fill(|c.moved|), |c.moved|) && caller == c.caller && callee == c.callee
    modifies om`st, om`freeWords, om`freeOops, om.mem
    ensures om.Valid() && Sending(run', c, t + 2) && om.st == run'[t + 2].s && run'[0] == run[0]
    ensures run'[t + 2].ext == run[0].ext - multiset{caller as int} + multiset{callee as int}
  {
    ghost var x := run[t];
    PlaceOf(x, callee, WordAt(Contexts.SENDER_INDEX));
    SoundReady(x.s, x.g, x.ext);
    AllocEven(x.s, x.g, caller);
    AllocEven(x.s, x.g, callee);
    ghost var y := Releases(om, caller, x);
    ReleaseKeeps(x, caller, y, callee, WordAt(Contexts.SENDER_INDEX));
    MakesSound(x, Release(caller), y);
    SendingOn(run, c, t, y);
    ghost var z := Refers(om, callee, y);
    SendingOn(run + [y], c, t + 1, z);
    run' := run + [y] + [z];
  }

  // activateNewMethod, on the memory, once the new context is allocated: each step is that of the send,
  // and nothing is freed.
  method ActivateOn(om: ObjectMemory, caller: Word, callee: Word, newMethod: Word, initial: Word, temporaries: Word,
                    count: nat, first: nat, instructionPointer: Word, stackPointer: Word, ghost run: seq<Config>,
                    ghost c: Send)
    returns (ghost run': seq<Config>)
    requires om.Valid() && Sending(run, c, 1) && om.st == run[1].s && Frame(run[1], c, 0, 0)
    requires c == Send(caller, callee, newMethod, c.contextClass, c.size, initial, temporaries, c.moved, first,
      instructionPointer, stackPointer)
    requires |c.moved| == count && (IsInteger(newMethod) || newMethod in run[1].g.alloc)
    requires IsInteger(initial) && IsInteger(temporaries) && IsInteger(instructionPointer) && IsInteger(stackPointer)
    modifies om`st, om`freeWords, om`freeOops, om.mem
    ensures om.Valid() && Sending(run', c, SendLength(c)) && run'[0] == run[0] && om.st == run'[SendLength(c)].s
    ensures run'[SendLength(c)].ext == run[0].ext - multiset{caller as int} + multiset{callee as int}
  {
    run' := FillFrame(om, caller, callee, newMethod, initial, temporaries, run, c);
    run' := LeaveCaller(om, caller, callee, count, first, instructionPointer, stackPointer, run', c);
    run' := Switch(om, caller, callee, run', c, SendLength(c) - 2);
  }

  method LeaveCaller(om: ObjectMemory, caller: Word, callee: Word, count: nat, first: nat, instructionPointer: Word,
                     stackPointer: Word, ghost run: seq<Config>, ghost c: Send)
    returns (ghost run': seq<Config>)
    requires om.Valid() && Sending(run, c, 5) && om.st == run[5].s && Frame(run[5], c, 4, 0) && count == |c.moved|
    requires caller == c.caller && callee == c.callee && first == c.first && IsInteger(instructionPointer)
    requires instructionPointer == c.instructionPointer && stackPointer == c.stackPointer && IsInteger(stackPointer)
    modifies om`st, om`freeWords, om`freeOops, om.mem
    ensures om.Valid() && Sending(run', c, SendLength(c) - 2) && om.st == run'[SendLength(c) - 2].s && run'[0] == run[0]
    ensures Frame(run'[SendLength(c) - 2], c, Fill(|c.moved|), |c.moved|)
  {
    run' := TransferAll(om, caller, callee, first, count, run, c);
    run' := StoreRegisters(om, caller, callee, instructionPointer, stackPointer, run', c);
  }

  // The return

  ghost predicate Returning(run: seq<Config>, c: Send, v: Word, slot: nat, t: nat) {
    |run| == t + 1 && t <= ReturnLength(v) && SoundAt(run[0]) &&
    (forall k {:trigger ReturnMade(run, c, v, slot, k)} :: 0 <= k < t ==> ReturnMade(run, c, v, slot, k)) &&
    SoundAt(run[t])
  }

  ghost predicate ReturnMade(run: seq<Config>, c: Send, v: Word, slot: nat, k: int) {
    0 <= k < |run| - 1 && Makes(run[k], ReturnStep(c, v, slot, k), run[k + 1])
  }

  lemma {:induction false} ReturningOn(run: seq<Config>, c: Send, v: Word, slot: nat, t: nat, y: Config)
    requires Returning(run, c, v, slot, t) && t < ReturnLength(v) && Makes(run[t], ReturnStep(c, v, slot, t), y)
    ensures Returning(run + [y], c, v, slot, t + 1)
  {
    var run' := run + [y];
    forall k | 0 <= k <= t + 1
      ensures run'[k] == if k <= t then run[k] else y
    {
    }
    forall k | 0 <= k < t + 1
      ensures ReturnMade(run', c, v, slot, k)
    {
      assert k < t ==> ReturnMade(run, c, v, slot, k);
    }
    MakesSound(run[t], ReturnStep(c, v, slot, t), y);
  }

  // The callee runs, its sender field holds the caller, and its other register fields no object.
  ghost predicate CalleeReady(x: Config, c: Send, slot: nat) {
    SoundAt(x) && c.callee as int in x.g.alloc && x.ext[c.callee] > 0 && x.s.E(c.callee).pointer == 1 &&
    WordAt(Contexts.METHOD_INDEX) <= SizeOf(x.s, c.callee) && c.caller != c.callee && !IsInteger(c.caller) &&
    WordOf(x.s, c.callee, WordAt(Contexts.SENDER_INDEX)) == c.caller &&
    IsInteger(WordOf(x.s, c.callee, WordAt(Contexts.INSTRUCTION_POINTER_INDEX))) &&
    x.s.E(c.caller).pointer == 1 && WordAt(slot) < SizeOf(x.s, c.caller)
  }

  // returnValue:to:, on the memory: each step is that of the return.
  method ReturnOn(om: ObjectMemory, caller: Word, callee: Word, v: Word, slot: nat, ghost c: Send, ghost x: Config)
    returns (ghost run: seq<Config>)
    requires om.Valid() && om.st == x.s && CalleeReady(x, c, slot) && caller == c.caller && callee == c.callee
    requires IsInteger(v) || v in x.g.alloc
    modifies om`st, om`freeWords, om`freeOops, om.mem
    ensures om.Valid() && Returning(run, c, v, slot, ReturnLength(v)) && run[0] == x && om.st == run[ReturnLength(v)].s
  {
    run := LeaveCallee(om, caller, callee, v, slot, c, x);
    run := EnterCaller(om, caller, v, slot, c, run);
  }

  // returnToActiveContext, after the value is counted: the caller is counted for the register, and the
  // callee, cut off from it, is not.
  method LeaveCallee(om: ObjectMemory, caller: Word, callee: Word, v: Word, slot: nat, ghost c: Send, ghost x: Config)
    returns (ghost run: seq<Config>)
    requires om.Valid() && om.st == x.s && CalleeReady(x, c, slot) && caller == c.caller && callee == c.callee
    requires IsInteger(v) || v in x.g.alloc
    modifies om`st, om`freeWords, om`freeOops, om.mem
    ensures om.Valid() && Returning(run, c, v, slot, 5) && run[0] == x && om.st == run[5].s
    ensures CallerBack(run[5], c, v, slot)
  {
    FieldThere(x, callee, WordAt(Contexts.SENDER_INDEX));
    ghost var y1 := Refers(om, v, x);
    run := [x, y1];
    MakesSound(x, Refer(v), y1);
    assert ReturnMade(run, c, v, slot, 0);
    ghost var y2 := Refers(om, caller, y1);
    ReturningOn(run, c, v, slot, 1, y2);
    run := run + [y2];
    ReferredReady(x, c, v, slot, y1, y2);
    run := CutOff(om, callee, c, v, slot, run);
  }

  // The caller is in the register, and the value counted.
  ghost predicate CallerBack(x: Config, c: Send, v: Word, slot: nat) {
    SoundAt(x) && x.ext[c.caller] > 0 && (!IsInteger(v) ==> x.ext[v] > 0 && (v == c.caller ==> x.ext[v] > 1)) &&
    x.s.E(c.caller).pointer == 1 && WordAt(slot) < SizeOf(x.s, c.caller)
  }

  ghost predicate CallerCounted(x: Config, c: Send, v: Word, slot: nat) {
    CalleeReady(x, c, slot) && CallerBack(x, c, v, slot) && (v == c.callee ==> x.ext[v] > 1)
  }

  lemma {:induction false} ReferredReady(x: Config, c: Send, v: Word, slot: nat, y1: Config, y2: Config)
    requires CalleeReady(x, c, slot) && (IsInteger(v) || v in x.g.alloc) && c.caller as int in x.g.alloc
    requires Makes(x, Refer(v), y1) && Makes(y1, Refer(c.caller), y2) && SoundAt(y1)
    ensures CallerCounted(y2, c, v, slot)
  {
    SoundReady(x.s, x.g, x.ext);
    AllocEven(x.s, x.g, c.callee);
    MakesSound(y1, Refer(c.caller), y2);
    MakesRemains(x, Refer(v), y1, c.callee);
    MakesRemains(y1, Refer(c.caller), y2, c.callee);
    MakesRemains(x, Refer(v), y1, c.caller);
    MakesRemains(y1, Refer(c.caller), y2, c.caller);
  }

  method CutOff(om: ObjectMemory, callee: Word, ghost c: Send, ghost v: Word, ghost slot: nat, ghost run: seq<Config>)
    returns (ghost run': seq<Config>)
    requires om.Valid() && Returning(run, c, v, slot, 2) && om.st == run[2].s && CallerCounted(run[2], c, v, slot) &&
      callee == c.callee
    modifies om`st, om`freeWords, om`freeOops, om.mem
    ensures om.Valid() && Returning(run', c, v, slot, 5) && run'[0] == run[0] && om.st == run'[5].s
    ensures CallerBack(run'[5], c, v, slot)
  {
    ghost var x := run[2];
    SoundReady(x.s, x.g, x.ext);
    PlaceOf(x, callee, WordAt(Contexts.SENDER_INDEX));
    ghost var y := StoreKeeping(om, callee, Contexts.SENDER_INDEX, NIL_POINTER, x);
    ReturningOn(run, c, v, slot, 2, y);
    run' := run + [y];
    CutReady(x, c, v, slot, y);
    run' := EndCallee(om, callee, c, v, slot, run');
  }

  // No instruction pointer: the callee can not be resumed.
  method EndCallee(om: ObjectMemory, callee: Word, ghost c: Send, ghost v: Word, ghost slot: nat,
                   ghost run: seq<Config>)
    returns (ghost run': seq<Config>)
    requires om.Valid() && Returning(run, c, v, slot, 3) && om.st == run[3].s && Leaving(run[3], c, v, slot)
    requires run[3].s.E(c.callee).pointer == 1 && WordAt(Contexts.METHOD_INDEX) <= SizeOf(run[3].s, c.callee)
    requires IsInteger(WordOf(run[3].s, c.callee, WordAt(Contexts.INSTRUCTION_POINTER_INDEX)))
    requires callee == c.callee && NIL_POINTER as int in run[3].g.alloc && callee as int in run[3].g.alloc
    modifies om`st, om`freeWords, om`freeOops, om.mem
    ensures om.Valid() && Returning(run', c, v, slot, 5) && run'[0] == run[0] && om.st == run'[5].s
    ensures CallerBack(run'[5], c, v, slot)
  {
    ghost var y := run[3];
    PlaceOf(y, callee, WordAt(Contexts.INSTRUCTION_POINTER_INDEX));
    ghost var z := StoreKeeping(om, callee, Contexts.INSTRUCTION_POINTER_INDEX, NIL_POINTER, y);
    ReturningOn(run, c, v, slot, 3, z);
    run' := run + [z];
    StillLeaving(y, c, v, slot, z);
    run' := LetGo(om, callee, c, v, slot, run');
  }

  lemma {:induction false} CutReady(x: Config, c: Send, v: Word, slot: nat, y: Config)
    requires CallerCounted(x, c, v, slot) && Makes(x, Store(c.callee, WordAt(Contexts.SENDER_INDEX), NIL_POINTER), y)
    requires y.g.alloc == x.g.alloc && SoundAt(y)
    ensures y.s.E(c.callee).pointer == 1 && WordAt(Contexts.METHOD_INDEX) <= SizeOf(y.s, c.callee)
    ensures IsInteger(WordOf(y.s, c.callee, WordAt(Contexts.INSTRUCTION_POINTER_INDEX)))
    ensures Leaving(y, c, v, slot) && NIL_POINTER as int in y.g.alloc
  {
    var a := Store(c.callee, WordAt(Contexts.SENDER_INDEX), NIL_POINTER);
    SoundReady(x.s, x.g, x.ext);
    AllocEven(x.s, x.g, c.callee);
    SoundReady(y.s, y.g, y.ext);
    SoundRegisters(x.s, x.g, x.ext);
    MakesRemains(x, a, y, c.callee);
    MakesRemains(x, a, y, c.caller);
  }

  // Both contexts are in registers, and the value counted.
  ghost predicate Leaving(x: Config, c: Send, v: Word, slot: nat) {
    CallerBack(x, c, v, slot) && !IsInteger(c.callee) && x.ext[c.callee] > 0 && (v == c.callee ==> x.ext[v] > 1) &&
    c.caller != c.callee
  }

  lemma {:induction false} StillLeaving(x: Config, c: Send, v: Word, slot: nat, y: Config)
    requires Leaving(x, c, v, slot) && SoundAt(y)
    requires Makes(x, Store(c.callee, WordAt(Contexts.INSTRUCTION_POINTER_INDEX), NIL_POINTER), y)
    ensures Leaving(y, c, v, slot)
  {
    SoundRegisters(x.s, x.g, x.ext);
    SoundRegisters(y.s, y.g, y.ext);
    MakesRemains(x, Store(c.callee, WordAt(Contexts.INSTRUCTION_POINTER_INDEX), NIL_POINTER), y, c.caller);
  }

  method LetGo(om: ObjectMemory, callee: Word, ghost c: Send, ghost v: Word, ghost slot: nat, ghost run: seq<Config>)
    returns (ghost run': seq<Config>)
    requires om.Valid() && Returning(run, c, v, slot, 4) && om.st == run[4].s && callee == c.callee
    requires Leaving(run[4], c, v, slot)
    modifies om`st, om`freeWords, om`freeOops, om.mem
    ensures om.Valid() && Returning(run', c, v, slot, 5) && run' == run + [run'[5]] && om.st == run'[5].s
    ensures CallerBack(run'[5], c, v, slot)
  {
    ghost var z := run[4];
    ghost var w := Releases(om, callee, z);
    ReturningOn(run, c, v, slot, 4, w);
    MakesSound(z, Release(callee), w);
    LetGoReady(z, c, v, slot, w);
    run' := run + [w];
  }

  lemma {:induction false} LetGoReady(z: Config, c: Send, v: Word, slot: nat, w: Config)
    requires Leaving(z, c, v, slot) && Makes(z, Release(c.callee), w) && SoundAt(w)
    ensures CallerBack(w, c, v, slot)
  {
    assert w.ext[c.caller] > 0;
    SoundRegisters(z.s, z.g, z.ext);
    SoundRegisters(w.s, w.g, w.ext);
    MakesRemains(z, Release(c.callee), w, c.caller);
  }

  // The value is pushed in the caller, and counted no more.
  method EnterCaller(om: ObjectMemory, caller: Word, v: Word, slot: nat, ghost c: Send, ghost run: seq<Config>)
    returns (ghost run': seq<Config>)
    requires om.Valid() && Returning(run, c, v, slot, 5) && om.st == run[5].s && CallerBack(run[5], c, v, slot) &&
      caller == c.caller
    modifies om`st, om`freeWords, om`freeOops, om.mem
    ensures om.Valid() && Returning(run', c, v, slot, ReturnLength(v)) && run'[0] == run[0] &&
      om.st == run'[ReturnLength(v)].s
  {
    ghost var x := run[5];
    SoundRegisters(x.s, x.g, x.ext);
    PlaceOf(x, caller, WordAt(slot));
    RegisterKeeps(x, caller, WordAt(slot));
    ghost var y := Stores(om, caller, slot, v, x, {caller as int});
    ReturningOn(run, c, v, slot, 5, y);
    run' := run + [y];
    if !IsInteger(v) {
      ghost var z := Releases(om, v, y);
      ReturningOn(run', c, v, slot, 6, z);
      run' := run' + [z];
    }
  }

  // An object in a register does without any of its fields.
  lemma {:induction false} RegisterKeeps(x: Config, p: int, i: int)
    requires SoundAt(x) && p in x.g.alloc && x.ext[p] > 0
    ensures KeptWithout(x.s, x.g, x.ext, p, i, {p})
  {
  }

  // Send, body and return, end to end

  ghost predicate Parts(send: seq<Config>, c: Send, body: seq<Config>, operations: seq<Operation>, end: seq<Config>,
                        v: Word, slot: nat) {
    |send| == SendLength(c) + 1 && |body| == |operations| + 1 && |end| == ReturnLength(v) + 1 &&
    body[0] == send[SendLength(c)] && end[0] == body[|operations|] &&
    forall k {:trigger OpenParts(k)} :: OpenParts(k) ==>
      Sending(send, c, SendLength(c)) && Run(body, operations) && Returning(end, c, v, slot, ReturnLength(v))
  }

  ghost predicate OpenParts(k: int) {
    true
  }

  ghost function JoinedAt(send: seq<Config>, c: Send, body: seq<Config>, operations: seq<Operation>, end: seq<Config>,
                          v: Word, slot: nat, k: nat): Config
    requires Parts(send, c, body, operations, end, v, slot) && k <= SendLength(c) + |operations| + ReturnLength(v)
  {
    if k <= SendLength(c) then send[k] else if k <= SendLength(c) + |operations| then body[k - SendLength(c)]
      else end[k - SendLength(c) - |operations|]
  }

  ghost function StepAt(c: Send, operations: seq<Operation>, v: Word, slot: nat, k: nat): Operation {
    if k < SendLength(c) then SendStep(c, k) else if k < SendLength(c) + |operations| then operations[k - SendLength(c)]
      else ReturnStep(c, v, slot, k - SendLength(c) - |operations|)
  }

  // They make one run, which is a call.
  lemma {:induction false} Joined(send: seq<Config>, c: Send, body: seq<Config>, operations: seq<Operation>,
                                  end: seq<Config>, v: Word, slot: nat)
    returns (run: seq<Config>, all: seq<Operation>)
    requires Parts(send, c, body, operations, end, v, slot)
    ensures Run(run, all) && IsCall(all, c, v, slot, SendLength(c) + |operations|)
    ensures forall k {:trigger run[k]} :: 0 <= k < |run| ==>
      run[k] == JoinedAt(send, c, body, operations, end, v, slot, k)
  {
    var n := SendLength(c) + |operations| + ReturnLength(v);
    all := seq(n, k requires 0 <= k < n => StepAt(c, operations, v, slot, k));
    run := seq(n + 1, k requires 0 <= k < n + 1 => JoinedAt(send, c, body, operations, end, v, slot, k));
    assert SoundAt(send[0]) by {
      assert OpenParts(0);
    }
    forall k | 0 <= k < n
      ensures Makes(run[k], all[k], run[k + 1])
    {
      JoinedStep(send, c, body, operations, end, v, slot, k);
    }
  }

  lemma {:induction false} JoinedStep(send: seq<Config>, c: Send, body: seq<Config>, operations: seq<Operation>,
                                      end: seq<Config>, v: Word, slot: nat, k: nat)
    requires Parts(send, c, body, operations, end, v, slot) && k < SendLength(c) + |operations| + ReturnLength(v)
    ensures Makes(JoinedAt(send, c, body, operations, end, v, slot, k), StepAt(c, operations, v, slot, k),
      JoinedAt(send, c, body, operations, end, v, slot, k + 1))
  {
    var n, m := SendLength(c), SendLength(c) + |operations|;
    var x, y := JoinedAt(send, c, body, operations, end, v, slot, k),
      JoinedAt(send, c, body, operations, end, v, slot, k + 1);
    if k < n {
      assert x == send[k] && y == send[k + 1];
      FirstStep(send, c, body, operations, end, v, slot, k);
    } else if k < m {
      JoinedBody(send, c, body, operations, end, v, slot, k - n);
      assert x == body[k - n] && y == body[k - n + 1];
      BodyStep(send, c, body, operations, end, v, slot, k - n);
    } else {
      JoinedEnd(send, c, body, operations, end, v, slot, k - m);
      assert x == end[k - m] && y == end[k - m + 1];
      EndStep(send, c, body, operations, end, v, slot, k - m);
    }
  }

  lemma {:induction false} FirstStep(send: seq<Config>, c: Send, body: seq<Config>, operations: seq<Operation>,
                                     end: seq<Config>, v: Word, slot: nat, k: nat)
    requires Parts(send, c, body, operations, end, v, slot) && k < SendLength(c)
    ensures Makes(send[k], SendStep(c, k), send[k + 1])
  {
    assert OpenParts(0) && StepMade(send, c, k);
  }

  lemma {:induction false} JoinedBody(send: seq<Config>, c: Send, body: seq<Config>, operations: seq<Operation>,
                                      end: seq<Config>, v: Word, slot: nat, k: nat)
    requires Parts(send, c, body, operations, end, v, slot) && k <= |operations|
    ensures JoinedAt(send, c, body, operations, end, v, slot, SendLength(c) + k) == body[k]
  {
  }

  lemma {:induction false} JoinedEnd(send: seq<Config>, c: Send, body: seq<Config>, operations: seq<Operation>,
                                     end: seq<Config>, v: Word, slot: nat, k: nat)
    requires Parts(send, c, body, operations, end, v, slot) && k <= ReturnLength(v)
    ensures JoinedAt(send, c, body, operations, end, v, slot, SendLength(c) + |operations| + k) == end[k]
  {
    if k == 0 {
      JoinedBody(send, c, body, operations, end, v, slot, |operations|);
    }
  }

  lemma {:induction false} BodyStep(send: seq<Config>, c: Send, body: seq<Config>, operations: seq<Operation>,
                                    end: seq<Config>, v: Word, slot: nat, k: nat)
    requires Parts(send, c, body, operations, end, v, slot) && k < |operations|
    ensures Makes(body[k], operations[k], body[k + 1])
  {
    assert OpenParts(0);
  }

  lemma {:induction false} EndStep(send: seq<Config>, c: Send, body: seq<Config>, operations: seq<Operation>,
                                   end: seq<Config>, v: Word, slot: nat, k: nat)
    requires Parts(send, c, body, operations, end, v, slot) && k < ReturnLength(v)
    ensures Makes(end[k], ReturnStep(c, v, slot, k), end[k + 1])
  {
    assert OpenParts(0) && ReturnMade(end, c, v, slot, k);
  }
}
