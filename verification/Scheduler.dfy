// The scheduler on linked lists of objects: what it does to their fields is what Scheduling says.
module Schedulers {
  import opened Scheduling
  import opened Dispatching

  const NIL := 2

  const NEXT_LINK := 0
  const SUSPENDED_CONTEXT := 1
  const PRIORITY := 2
  const MY_LIST := 3
  const FIRST_LINK := 0
  const LAST_LINK := 1
  const EXCESS_SIGNALS := 2
  const ACTIVE_PROCESS := 1

  // The fields of the objects: (object, index) to value.
  type Fields = map<(int, int), int>

  function Get(f: Fields, p: int, i: int): int {
    if (p, i) in f then f[(p, i)] else NIL
  }

  function Link(q: seq<int>, i: int): int {
    if 0 <= i < |q| then q[i] else NIL
  }

  // l's links are those of q.
  ghost predicate ListIs(f: Fields, l: int, q: seq<int>) {
    Get(f, l, FIRST_LINK) == Link(q, 0) && (q != [] ==> Get(f, l, LAST_LINK) == q[|q| - 1]) &&
    forall i {:trigger q[i]} :: 0 <= i < |q| ==> Get(f, q[i], NEXT_LINK) == Link(q, i + 1) && Get(f, q[i], MY_LIST) == l
  }

  // The fields are those of world w.
  ghost predicate Holds(f: Fields, env: Setting, w: World) {
    (forall l {:trigger IsList(env, l)} :: IsList(env, l) ==> ListIs(f, l, QueueOf(w, l))) &&
    (forall s {:trigger ExcessOf(w, s)} :: s in env.semaphores ==> Get(f, s, EXCESS_SIGNALS) == ExcessOf(w, s)) &&
    (forall p {:trigger p in env.priority} :: p in env.priority ==> Get(f, p, PRIORITY) == env.priority[p]) &&
    (forall p {:trigger OnList(w, p)} :: p in env.priority && !OnList(w, p) ==> Get(f, p, NEXT_LINK) == NIL)
  }

  // nil, the scheduler and its process are none of the objects linked.
  ghost predicate Apart(env: Setting, scheduler: int) {
    WellSet(env) && NIL !in env.priority && scheduler !in env.priority && !IsList(env, scheduler)
  }

  // Contexts and the scheduler's own fields are not touched.
  ghost predicate SameContexts(f: Fields, f': Fields, env: Setting, scheduler: int) {
    (forall p {:trigger p in env.priority} :: p in env.priority ==>
      Get(f', p, SUSPENDED_CONTEXT) == Get(f, p, SUSPENDED_CONTEXT)) &&
    forall i {:trigger Get(f', scheduler, i)} :: Get(f', scheduler, i) == Get(f, scheduler, i)
  }

  // Adding to a list

  function Added(f: Fields, l: int, p: int): Fields {
    var f1 := if Get(f, l, FIRST_LINK) == NIL then f[(l, FIRST_LINK) := p]
      else f[(Get(f, l, LAST_LINK), NEXT_LINK) := p];
    f1[(l, LAST_LINK) := p][(p, MY_LIST) := l]
  }

  lemma {:induction false} FirstIsNil(f: Fields, env: Setting, w: World, l: int)
    requires WellSet(env) && NIL !in env.priority && Settled(env, w) && IsList(env, l) && ListIs(f, l, QueueOf(w, l))
    ensures Get(f, l, FIRST_LINK) == NIL <==> QueueOf(w, l) == []
  {
    if QueueOf(w, l) != [] {
      assert Member(env, l, QueueOf(w, l)[0]);
    }
  }

  // The fields that adding changes.
  lemma {:induction false} AddedFields(f: Fields, env: Setting, w: World, l: int, p: int, r: int, i: int)
    requires Apart(env, r) || r in env.priority || IsList(env, r)
    requires WellSet(env) && NIL !in env.priority && Settled(env, w) && IsList(env, l) && p in env.priority &&
      Holds(f, env, w)
    ensures Get(Added(f, l, p), r, i) ==
      if r == p && i == MY_LIST then l
      else if r == l && i == LAST_LINK then p
      else if r == l && i == FIRST_LINK && QueueOf(w, l) == [] then p
      else if QueueOf(w, l) != [] && r == QueueOf(w, l)[|QueueOf(w, l)| - 1] && i == NEXT_LINK then p
      else Get(f, r, i)
  {
    FirstIsNil(f, env, w, l);
    assert l !in env.priority;
    if QueueOf(w, l) != [] {
      assert Member(env, l, QueueOf(w, l)[|QueueOf(w, l)| - 1]);
    }
  }

  lemma {:induction false} AddedList(f: Fields, env: Setting, w: World, l: int, p: int, m: int)
    requires WellSet(env) && NIL !in env.priority && Settled(env, w) && IsList(env, l) && Member(env, l, p) &&
      !OnList(w, p) && Holds(f, env, w)
    requires IsList(env, m)
    ensures ListIs(Added(f, l, p), m, QueueOf(Enqueued(w, l, p), m))
  {
    var q, q' := QueueOf(w, m), QueueOf(Enqueued(w, l, p), m);
    QueueAfter(w, l, QueueOf(w, l) + [p], m);
    assert ListIs(f, m, q) && m !in env.priority;
    AddedFields(f, env, w, l, p, m, FIRST_LINK);
    AddedFields(f, env, w, l, p, m, LAST_LINK);
    assert Get(f, p, NEXT_LINK) == NIL;
    forall i | 0 <= i < |q'|
      ensures Get(Added(f, l, p), q'[i], NEXT_LINK) == Link(q', i + 1) && Get(Added(f, l, p), q'[i], MY_LIST) == m
    {
      EnqueuedAt(w, l, p, m, i);
      if i < |q| {
        OnItsList(w, m, i);
        assert Member(env, m, q[i]);
        assert Get(f, q[i], NEXT_LINK) == Link(q, i + 1);
        if m != l && QueueOf(w, l) != [] {
          assert QueueOf(w, l)[|QueueOf(w, l)| - 1] != QueueOf(w, m)[i];
        }
      }
      AddedFields(f, env, w, l, p, q'[i], NEXT_LINK);
      AddedFields(f, env, w, l, p, q'[i], MY_LIST);
    }
  }

  lemma {:induction false} AddedHolds(f: Fields, env: Setting, w: World, l: int, p: int, scheduler: int)
    requires Apart(env, scheduler) && Settled(env, w) && IsList(env, l) && Member(env, l, p) && !OnList(w, p) &&
      Holds(f, env, w)
    ensures Holds(Added(f, l, p), env, Enqueued(w, l, p)) && SameContexts(f, Added(f, l, p), env, scheduler)
  {
    var f', v := Added(f, l, p), Enqueued(w, l, p);
    forall m | IsList(env, m)
      ensures ListIs(f', m, QueueOf(v, m))
    {
      AddedList(f, env, w, l, p, m);
    }
    forall s | s in env.semaphores
      ensures Get(f', s, EXCESS_SIGNALS) == ExcessOf(v, s)
    {
      SemaphoreIsList(env, s);
      AddedFields(f, env, w, l, p, s, EXCESS_SIGNALS);
      assert ExcessOf(v, s) == ExcessOf(w, s);
    }
    forall q | q in env.priority
      ensures Get(f', q, PRIORITY) == env.priority[q] && Get(f', q, SUSPENDED_CONTEXT) == Get(f, q, SUSPENDED_CONTEXT)
    {
      AddedFields(f, env, w, l, p, q, PRIORITY);
      AddedFields(f, env, w, l, p, q, SUSPENDED_CONTEXT);
    }
    forall q | q in env.priority && !OnList(v, q)
      ensures Get(f', q, NEXT_LINK) == NIL
    {
      EnqueueOnList(w, l, p, v, q);
      AddedFields(f, env, w, l, p, q, NEXT_LINK);
      if QueueOf(w, l) != [] {
        OnItsList(w, l, |QueueOf(w, l)| - 1);
      }
    }
    forall i
      ensures Get(f', scheduler, i) == Get(f, scheduler, i)
    {
      AddedFields(f, env, w, l, p, scheduler, i);
      if QueueOf(w, l) != [] {
        assert Member(env, l, QueueOf(w, l)[|QueueOf(w, l)| - 1]);
      }
    }
  }

  // Removing the first of a list

  function Removed(f: Fields, l: int): Fields {
    var first := Get(f, l, FIRST_LINK);
    var f1 := if Get(f, l, LAST_LINK) == first then f[(l, FIRST_LINK) := NIL][(l, LAST_LINK) := NIL]
              else f[(l, FIRST_LINK) := Get(f, first, NEXT_LINK)];
    f1[(first, NEXT_LINK) := NIL]
  }

  lemma {:induction false} RemovedFields(f: Fields, env: Setting, w: World, l: int, r: int, i: int)
    requires WellSet(env) && NIL !in env.priority && Settled(env, w) && IsList(env, l) && QueueOf(w, l) != [] &&
      ListIs(f, l, QueueOf(w, l))
    requires r != l || (i != LAST_LINK || |QueueOf(w, l)| > 1)
    ensures Get(Removed(f, l), r, i) ==
      if r == First(w, l) && i == NEXT_LINK then NIL
      else if r == l && i == FIRST_LINK then Link(QueueOf(w, l), 1)
      else Get(f, r, i)
  {
    var q := QueueOf(w, l);
    assert Member(env, l, q[0]) && l !in env.priority;
    assert q[0] == First(w, l) && Get(f, q[0], NEXT_LINK) == Link(q, 1);
    assert q[|q| - 1] == q[0] ==> |q| == 1;
  }

  lemma {:induction false} RemovedLink(f: Fields, env: Setting, w: World, l: int, m: int, i: int)
    requires WellSet(env) && NIL !in env.priority && Settled(env, w) && IsList(env, l) && QueueOf(w, l) != [] &&
      Holds(f, env, w) && IsList(env, m)
    requires 0 <= i < |QueueOf(Dequeued(w, l), m)|
    ensures Get(Removed(f, l), QueueOf(Dequeued(w, l), m)[i], NEXT_LINK) == Link(QueueOf(Dequeued(w, l), m), i + 1)
    ensures Get(Removed(f, l), QueueOf(Dequeued(w, l), m)[i], MY_LIST) == m
  {
    var q, q' := QueueOf(w, m), QueueOf(Dequeued(w, l), m);
    QueueAfter(w, l, QueueOf(w, l)[1..], m);
    assert ListIs(f, m, q) && ListIs(f, l, QueueOf(w, l));
    var k := if m == l then i + 1 else i;
    assert q'[i] == q[k] && Member(env, m, q[k]);
    assert QueueOf(w, l)[0] == First(w, l) && QueueOf(w, m)[k] != QueueOf(w, l)[0];
    assert IsList(env, l);
    RemovedFields(f, env, w, l, q[k], NEXT_LINK);
    RemovedFields(f, env, w, l, q[k], MY_LIST);
    assert Get(f, q[k], NEXT_LINK) == Link(q, k + 1);
  }

  lemma {:induction false} RemovedEnds(f: Fields, env: Setting, w: World, l: int, m: int)
    requires WellSet(env) && NIL !in env.priority && Settled(env, w) && IsList(env, l) && QueueOf(w, l) != [] &&
      Holds(f, env, w) && IsList(env, m)
    ensures var q := QueueOf(Dequeued(w, l), m);
      Get(Removed(f, l), m, FIRST_LINK) == Link(q, 0) && (q != [] ==> Get(Removed(f, l), m, LAST_LINK) == q[|q| - 1])
  {
    var q, q' := QueueOf(w, m), QueueOf(Dequeued(w, l), m);
    QueueAfter(w, l, QueueOf(w, l)[1..], m);
    assert ListIs(f, m, q) && ListIs(f, l, QueueOf(w, l)) && m !in env.priority;
    assert Member(env, l, QueueOf(w, l)[0]);
    RemovedFields(f, env, w, l, m, FIRST_LINK);
    if q' != [] {
      RemovedFields(f, env, w, l, m, LAST_LINK);
    }
  }

  lemma {:induction false} RemovedList(f: Fields, env: Setting, w: World, l: int, m: int)
    requires WellSet(env) && NIL !in env.priority && Settled(env, w) && IsList(env, l) && QueueOf(w, l) != [] &&
      Holds(f, env, w) && IsList(env, m)
    ensures ListIs(Removed(f, l), m, QueueOf(Dequeued(w, l), m))
  {
    var q, q' := QueueOf(w, m), QueueOf(Dequeued(w, l), m);
    QueueAfter(w, l, QueueOf(w, l)[1..], m);
    assert ListIs(f, m, q) && ListIs(f, l, QueueOf(w, l)) && m !in env.priority;
    RemovedEnds(f, env, w, l, m);
    forall i | 0 <= i < |q'|
      ensures Get(Removed(f, l), q'[i], NEXT_LINK) == Link(q', i + 1) && Get(Removed(f, l), q'[i], MY_LIST) == m
    {
      RemovedLink(f, env, w, l, m, i);
    }
  }

  // A process's own fields.
  lemma {:induction false} RemovedProcess(f: Fields, env: Setting, w: World, l: int, q: int)
    requires WellSet(env) && NIL !in env.priority && Settled(env, w) && IsList(env, l) && QueueOf(w, l) != [] &&
      Holds(f, env, w) && q in env.priority
    ensures Get(Removed(f, l), q, PRIORITY) == env.priority[q] &&
      Get(Removed(f, l), q, SUSPENDED_CONTEXT) == Get(f, q, SUSPENDED_CONTEXT)
    ensures !OnList(Dequeued(w, l), q) ==> Get(Removed(f, l), q, NEXT_LINK) == NIL
  {
    assert IsList(env, l) && ListIs(f, l, QueueOf(w, l));
    RemovedFields(f, env, w, l, q, PRIORITY);
    RemovedFields(f, env, w, l, q, SUSPENDED_CONTEXT);
    RemovedFields(f, env, w, l, q, NEXT_LINK);
    StillOnList(w, l, Dequeued(w, l), q);
  }

  lemma {:induction false} RemovedHolds(f: Fields, env: Setting, w: World, l: int, scheduler: int)
    requires Apart(env, scheduler) && Settled(env, w) && IsList(env, l) && QueueOf(w, l) != [] && Holds(f, env, w)
    ensures Get(f, l, FIRST_LINK) == First(w, l) && First(w, l) in env.priority
    ensures Holds(Removed(f, l), env, Dequeued(w, l)) && SameContexts(f, Removed(f, l), env, scheduler)
  {
    var f', v := Removed(f, l), Dequeued(w, l);
    assert ListIs(f, l, QueueOf(w, l)) && Member(env, l, QueueOf(w, l)[0]) && QueueOf(w, l)[0] == First(w, l);
    forall m | IsList(env, m)
      ensures ListIs(f', m, QueueOf(v, m))
    {
      RemovedList(f, env, w, l, m);
    }
    forall s | s in env.semaphores
      ensures Get(f', s, EXCESS_SIGNALS) == ExcessOf(v, s)
    {
      SemaphoreIsList(env, s);
      RemovedFields(f, env, w, l, s, EXCESS_SIGNALS);
      assert ExcessOf(v, s) == ExcessOf(w, s);
    }
    forall q | q in env.priority
      ensures Get(f', q, PRIORITY) == env.priority[q] && Get(f', q, SUSPENDED_CONTEXT) == Get(f, q, SUSPENDED_CONTEXT)
      ensures !OnList(v, q) ==> Get(f', q, NEXT_LINK) == NIL
    {
      RemovedProcess(f, env, w, l, q);
    }
    forall i
      ensures Get(f', scheduler, i) == Get(f, scheduler, i)
    {
      RemovedFields(f, env, w, l, scheduler, i);
    }
  }

  lemma {:induction false} SameContextsOn(f: Fields, f': Fields, f'': Fields, env: Setting, scheduler: int)
    requires SameContexts(f, f', env, scheduler) && SameContexts(f', f'', env, scheduler)
    ensures SameContexts(f, f'', env, scheduler)
  {
    forall p | p in env.priority
      ensures Get(f'', p, SUSPENDED_CONTEXT) == Get(f, p, SUSPENDED_CONTEXT)
    {
    }
    forall i
      ensures Get(f'', scheduler, i) == Get(f, scheduler, i)
    {
      assert Get(f'', scheduler, i) == Get(f', scheduler, i) && Get(f', scheduler, i) == Get(f, scheduler, i);
    }
  }

  // Who runs does not matter to the links.
  lemma {:induction false} HoldsAnyCurrent(f: Fields, env: Setting, w: World, v: World)
    requires v == w.(current := v.current)
    ensures Holds(f, env, w) ==> Holds(f, env, v)
  {
    SameLists(env, w, v);
    if Holds(f, env, w) {
      forall l | IsList(env, l)
        ensures ListIs(f, l, QueueOf(v, l))
      {
        assert QueueOf(v, l) == QueueOf(w, l);
      }
      forall s | s in env.semaphores
        ensures Get(f, s, EXCESS_SIGNALS) == ExcessOf(v, s)
      {
        assert ExcessOf(v, s) == ExcessOf(w, s);
      }
    }
  }

  lemma {:induction false} ExcessHolds(f: Fields, env: Setting, w: World, s: int, n: int, v: World, scheduler: int)
    requires Apart(env, scheduler) && Holds(f, env, w) && s in env.semaphores && v == w.(excess := w.excess[s := n])
    ensures Holds(f[(s, EXCESS_SIGNALS) := n], env, v) && SameContexts(f, f[(s, EXCESS_SIGNALS) := n], env, scheduler)
  {
    var f' := f[(s, EXCESS_SIGNALS) := n];
    SemaphoreIsList(env, s);
    assert s !in env.priority;
    forall l
      ensures QueueOf(v, l) == QueueOf(w, l)
    {
    }
    forall l | IsList(env, l)
      ensures ListIs(f', l, QueueOf(v, l))
    {
      assert ListIs(f, l, QueueOf(w, l));
    }
    forall r | r in env.semaphores
      ensures Get(f', r, EXCESS_SIGNALS) == ExcessOf(v, r)
    {
      assert r != s ==> ExcessOf(v, r) == ExcessOf(w, r);
    }
    forall p | p in env.priority && !OnList(v, p)
      ensures Get(f', p, NEXT_LINK) == NIL
    {
      SameOnList(w, v, p);
    }
  }

  class Scheduler {
    const scheduler: int
    const processLists: seq<int>
    const semaphoreList: array<int>
    var fields: Fields
    var newProcessWaiting: bool
    var newProcess: int
    var semaphoreIndex: int
    var activeContext: int

    constructor (scheduler: int, processLists: seq<int>, semaphoreList: array<int>, fields: Fields, activeContext: int)
      ensures this.scheduler == scheduler && this.processLists == processLists && this.semaphoreList == semaphoreList
      ensures this.fields == fields && this.activeContext == activeContext && !newProcessWaiting && newProcess == NIL &&
        semaphoreIndex == -1
    {
      this.scheduler := scheduler;
      this.processLists := processLists;
      this.semaphoreList := semaphoreList;
      this.fields := fields;
      this.activeContext := activeContext;
      this.newProcessWaiting := false;
      this.newProcess := NIL;
      this.semaphoreIndex := -1;
    }

    // The linked lists are those of w, whoever runs.
    ghost predicate Linked(env: Setting, w: World)
      reads this
    {
      Apart(env, scheduler) && processLists == env.ready && Settled(env, w) && Holds(fields, env, w)
    }

    function ActiveProcess(): int
      reads this
    {
      if newProcessWaiting then newProcess else Get(fields, scheduler, ACTIVE_PROCESS)
    }

    // What holds between two operations.
    ghost predicate Valid(env: Setting, w: World)
      reads this
    {
      Linked(env, w) && Sound(env, w) && ActiveProcess() == w.current && (!newProcessWaiting ==> newProcess == NIL)
    }

    method IsEmptyList(l: int) returns (empty: bool)
      ensures empty == (Get(fields, l, FIRST_LINK) == NIL)
    {
      empty := Get(fields, l, FIRST_LINK) == NIL;
    }

    method RemoveFirstLinkOfList(l: int) returns (firstLink: int)
      modifies this`fields
      ensures firstLink == Get(old(fields), l, FIRST_LINK) && fields == Removed(old(fields), l)
      ensures Get(fields, firstLink, 0) == NIL
      ensures Get(old(fields), l, 1) == firstLink ==> Get(fields, l, 0) == NIL && Get(fields, l, 1) == NIL
      ensures Get(old(fields), l, 1) != firstLink && firstLink != l ==>
        Get(fields, l, 0) == Get(old(fields), firstLink, 0) && Get(fields, l, 1) == Get(old(fields), l, 1)
    {
      firstLink := Get(fields, l, FIRST_LINK);
      var lastLink := Get(fields, l, LAST_LINK);
      if lastLink == firstLink {
        fields := fields[(l, FIRST_LINK) := NIL];
        fields := fields[(l, LAST_LINK) := NIL];
      } else {
        var nextLink := Get(fields, firstLink, NEXT_LINK);
        fields := fields[(l, FIRST_LINK) := nextLink];
      }
      fields := fields[(firstLink, NEXT_LINK) := NIL];
    }

    method AddLastLink(aLink: int, l: int)
      modifies this`fields
      ensures fields == Added(old(fields), l, aLink)
      ensures Get(fields, l, 1) == aLink && Get(fields, aLink, 3) == l
      ensures Get(fields, if Get(old(fields), l, 0) == NIL then l else Get(old(fields), l, 1), 0) == aLink
    {
      var empty := IsEmptyList(l);
      if empty {
        fields := fields[(l, FIRST_LINK) := aLink];
      } else {
        var lastLink := Get(fields, l, LAST_LINK);
        fields := fields[(lastLink, NEXT_LINK) := aLink];
      }
      fields := fields[(l, LAST_LINK) := aLink];
      fields := fields[(aLink, MY_LIST) := l];
    }

    method TransferTo(p: int)
      modifies this`newProcessWaiting, this`newProcess
      ensures newProcessWaiting && newProcess == p
    {
      newProcessWaiting := true;
      newProcess := p;
    }

    // The process goes to the end of the ready list of its priority.
    method Sleep(p: int, ghost env: Setting, ghost w: World)
      requires Linked(env, w) && p in env.priority
      modifies this`fields
      ensures fields == Added(old(fields), ReadyList(env, PriorityOf(env, p)), p)
      ensures AtEnd(env, p)
      ensures !OnList(w, p) ==> Linked(env, Asleep(env, w, p)) && SameContexts(old(fields), fields, env, scheduler)
    {
      ghost var l := ReadyList(env, PriorityOf(env, p));
      ReadyListIs(env, p);
      if !OnList(w, p) {
        AddedHolds(fields, env, w, l, p, scheduler);
        EnqueueSettled(env, w, l, p, Asleep(env, w, p));
      }
      var priority := Get(fields, p, PRIORITY);
      AddLastLink(p, processLists[priority - 1]);
    }

    // The ready list of its priority ends with p.
    ghost predicate AtEnd(env: Setting, p: int)
      reads this
    {
      p in env.priority && 1 <= env.priority[p] <= |processLists| &&
      Get(fields, processLists[env.priority[p] - 1], 1) == p && Get(fields, p, 3) == processLists[env.priority[p] - 1]
    }

    // The search through the ready lists, from the most urgent.
    method HighestList(ghost env: Setting, ghost w: World) returns (processList: int)
      requires Linked(env, w) && SomeReady(env, w)
      ensures processList == ReadyList(env, Highest(env, w, |env.ready|)) && IsList(env, processList) &&
        QueueOf(w, processList) != []
    {
      HighestIs(env, w, |env.ready|);
      var priority := |processLists|;
      processList := processLists[priority - 1];
      var empty := IsEmptyList(processList);
      ListAt(env, w, priority);
      while empty
        invariant 1 <= priority <= |processLists| && Highest(env, w, priority) == Highest(env, w, |env.ready|) > 0
        invariant processList == ReadyList(env, priority) && IsList(env, processList)
        invariant empty == (QueueOf(w, processList) == [])
        decreases priority
      {
        assert ReadyQueue(env, w, priority) == [];
        priority := priority - 1;
        processList := processLists[priority - 1];
        empty := IsEmptyList(processList);
        ListAt(env, w, priority);
      }
      assert ReadyQueue(env, w, priority) != [];
    }

    // The first of the most urgent ready processes leaves its list.
    method WakeHighestPriority(ghost env: Setting, ghost w: World) returns (p: int)
      requires Linked(env, w) && SomeReady(env, w)
      modifies this`fields
      ensures Linked(env, Woken(env, w)) && p == Woken(env, w).current &&
        SameContexts(old(fields), fields, env, scheduler)
    {
      var processList := HighestList(env, w);
      FirstRemoved(env, w, processList);
      SameLists(env, Dequeued(w, processList), Woken(env, w));
      HoldsAnyCurrent(Removed(fields, processList), env, Dequeued(w, processList), Woken(env, w));
      p := RemoveFirstLinkOfList(processList);
    }

    lemma {:induction false} FirstRemoved(env: Setting, w: World, l: int)
      requires Linked(env, w) && IsList(env, l) && QueueOf(w, l) != []
      ensures Get(fields, l, FIRST_LINK) == First(w, l) && First(w, l) in env.priority &&
        !OnList(Dequeued(w, l), First(w, l))
      ensures Settled(env, Dequeued(w, l)) && Holds(Removed(fields, l), env, Dequeued(w, l)) &&
        SameContexts(fields, Removed(fields, l), env, scheduler)
    {
      RemovedHolds(fields, env, w, l, scheduler);
      DequeueSettled(env, w, l, Dequeued(w, l));
    }

    lemma {:induction false} ListAt(env: Setting, w: World, k: int)
      requires Linked(env, w) && 1 <= k <= |processLists|
      ensures IsList(env, processLists[k - 1]) && processLists[k - 1] == ReadyList(env, k)
      ensures Get(fields, processLists[k - 1], FIRST_LINK) == NIL <==> QueueOf(w, processLists[k - 1]) == []
    {
      assert env.ready[k - 1] in env.ready;
      assert IsList(env, processLists[k - 1]);
      FirstIsNil(fields, env, w, processLists[k - 1]);
    }

    method SuspendActive(ghost env: Setting, ghost w: World)
      requires Linked(env, w) && SomeReady(env, w) && WellSet(env) && Spare(env, w)
      modifies this`fields, this`newProcessWaiting, this`newProcess
      ensures Valid(env, Woken(env, w)) && SameContexts(old(fields), fields, env, scheduler)
    {
      WokenSound(env, w);
      var p := WakeHighestPriority(env, w);
      TransferTo(p);
    }

    // The less urgent of the two processes joins its ready list.  What is left is a world exactly if p was
    // on no list and not running.
    method Resume(p: int, ghost env: Setting, ghost w: World)
      requires Valid(env, w) && p in env.priority
      modifies this`fields, this`newProcessWaiting, this`newProcess
      ensures Valid(env, Resumed(env, w, p)) <==> !OnList(w, p) && p != w.current
      ensures !OnList(w, p) && p != w.current ==> SameContexts(old(fields), fields, env, scheduler)
      ensures var q := if PriorityOf(env, p) > PriorityOf(env, w.current) then w.current else p;
        fields == Added(old(fields), ReadyList(env, PriorityOf(env, q)), q)
    {
      ResumedSoundExactly(env, w, p);
      var theActiveProcess := ActiveProcess();
      var activePriority := Get(fields, theActiveProcess, PRIORITY);
      var newPriority := Get(fields, p, PRIORITY);
      if newPriority > activePriority {
        Sleep(theActiveProcess, env, w);
        HoldsAnyCurrent(fields, env, Asleep(env, w, w.current), Resumed(env, w, p));
        TransferTo(p);
      } else {
        Sleep(p, env, w);
      }
    }

    // It is the last there.
    lemma {:induction false} ResumedAtEnd(f: Fields, env: Setting, w: World, p: int)
      requires Apart(env, scheduler) && processLists == env.ready && p in env.priority && w.current in env.priority
      requires var q := if PriorityOf(env, p) > PriorityOf(env, w.current) then w.current else p;
        fields == Added(f, ReadyList(env, PriorityOf(env, q)), q)
      ensures AtEnd(env, Loser(env, w, p)) && Resumed(env, w, p).current == Winner(env, w, p)
    {
      ListOfIs(env, Loser(env, w, p));
    }

    // synchronousSignal
    method SynchronousSignal(s: int, ghost env: Setting, ghost w: World)
      requires Valid(env, w) && s in env.semaphores
      modifies this`fields, this`newProcessWaiting, this`newProcess
      ensures Valid(env, Signaled(env, w, s)) && SameContexts(old(fields), fields, env, scheduler)
      ensures QueueOf(w, s) == [] ==>
        Get(fields, s, 2) == if ExcessOf(w, s) < 16383 then ExcessOf(w, s) + 1 else ExcessOf(w, s)
      ensures QueueOf(w, s) != [] ==> var p := QueueOf(w, s)[0];
        p in env.priority && ActiveProcess() == Winner(env, w, p) &&
        AtEnd(env, Loser(env, w, p))
    {
      SignaledSound(env, w, s);
      SemaphoreIsList(env, s);
      FirstIsNil(fields, env, w, s);
      var empty := IsEmptyList(s);
      if empty {
        var excessSignals := Get(fields, s, EXCESS_SIGNALS);
        assert excessSignals == ExcessOf(w, s);
        // an integer beyond the range of small integers is not stored
        if excessSignals + 1 <= MAX_INTEGER {
          ExcessHolds(fields, env, w, s, excessSignals + 1, Signaled(env, w, s), scheduler);
          fields := fields[(s, EXCESS_SIGNALS) := excessSignals + 1];
        }
      } else {
        ghost var u := Dequeued(w, s);
        FirstRemoved(env, w, s);
        TakenOff(env, w, s, u);
        var p := RemoveFirstLinkOfList(s);
        ghost var f := fields;
        Resume(p, env, u);
        ResumedAtEnd(f, env, u, p);
      }
    }

    method PrimitiveSignal(s: int, ghost env: Setting, ghost w: World)
      requires Valid(env, w) && s in env.semaphores
      modifies this`fields, this`newProcessWaiting, this`newProcess
      ensures Valid(env, Step(env, w, Signal(s)))
    {
      SynchronousSignal(s, env, w);
    }

    method PrimitiveWait(s: int, ghost env: Setting, ghost w: World)
      requires Valid(env, w) && Enabled(env, w, Wait(s))
      modifies this`fields, this`newProcessWaiting, this`newProcess
      ensures Valid(env, Step(env, w, Wait(s))) && SameContexts(old(fields), fields, env, scheduler)
    {
      SemaphoreIsList(env, s);
      assert 0 <= ExcessOf(w, s);
      var excessSignals := Get(fields, s, EXCESS_SIGNALS);
      assert excessSignals == ExcessOf(w, s);
      WaitedSound(env, w, s);
      if excessSignals > 0 {
        ExcessHolds(fields, env, w, s, excessSignals - 1, Waited(env, w, s), scheduler);
        fields := fields[(s, EXCESS_SIGNALS) := excessSignals - 1];
      } else {
        WaitsAt(env, w, s, Enqueued(w, s, w.current));
        var p := ActiveProcess();
        AddLastLink(p, s);
        SuspendActive(env, Enqueued(w, s, w.current));
      }
    }

    // The running process has joined the semaphore's list.
    lemma {:induction false} WaitsAt(env: Setting, w: World, s: int, u: World)
      requires Valid(env, w) && s in env.semaphores && SomeReady(env, w) && ExcessOf(w, s) == 0 &&
        u == Enqueued(w, s, w.current)
      ensures Holds(Added(fields, s, w.current), env, u) &&
        SameContexts(fields, Added(fields, s, w.current), env, scheduler)
      ensures Settled(env, u) && SomeReady(env, u) && Spare(env, u)
    {
      SemaphoreIsList(env, s);
      AddedHolds(fields, env, w, s, w.current, scheduler);
      EnqueueSettled(env, w, s, w.current, u);
      forall m
        ensures QueueOf(u, m) == if m == s then QueueOf(w, s) + [w.current] else QueueOf(w, m)
      {
        QueueAfter(w, s, QueueOf(w, s) + [w.current], m);
      }
      StillReady(env, w, s, u);
      forall r | r in env.semaphores
        ensures 0 <= ExcessOf(u, r) <= MAX_INTEGER && (ExcessOf(u, r) > 0 ==> QueueOf(u, r) == [])
      {
        assert ExcessOf(u, r) == ExcessOf(w, r);
      }
    }

    method PrimitiveResume(p: int, ghost env: Setting, ghost w: World)
      requires Valid(env, w) && Enabled(env, w, Event.Resume(p))
      modifies this`fields, this`newProcessWaiting, this`newProcess
      ensures Valid(env, Step(env, w, Event.Resume(p)))
    {
      Resume(p, env, w);
    }

    // Only the running process suspends itself.
    method PrimitiveSuspend(p: int, ghost env: Setting, ghost w: World) returns (success: bool)
      requires Valid(env, w) && Enabled(env, w, Suspend)
      modifies this`fields, this`newProcessWaiting, this`newProcess
      ensures success == (p == w.current)
      ensures Valid(env, if success then Step(env, w, Suspend) else w)
    {
      success := p == ActiveProcess();
      if success {
        SuspendActive(env, w);
      }
    }

    // The buffered signals are for semaphores.
    ghost predicate Buffered(env: Setting)
      reads this, semaphoreList
    {
      -1 <= semaphoreIndex < semaphoreList.Length &&
      forall k {:trigger semaphoreList[k]} :: 0 <= k <= semaphoreIndex ==> semaphoreList[k] in env.semaphores
    }

    function Buffer(): seq<int>
      requires -1 <= semaphoreIndex < semaphoreList.Length
      reads this, semaphoreList
    {
      semaphoreList[..semaphoreIndex + 1]
    }

    // The system stops when the buffer is full.
    method AsynchronousSignal(s: int, ghost env: Setting) returns (ok: bool)
      requires Buffered(env) && s in env.semaphores
      modifies this`semaphoreIndex, semaphoreList
      ensures ok == (old(semaphoreIndex) + 1 < semaphoreList.Length)
      ensures ok ==> Buffered(env) && Buffer() == old(Buffer()) + [s]
    {
      semaphoreIndex := semaphoreIndex + 1;
      if semaphoreIndex == semaphoreList.Length {
        return false;
      }
      semaphoreList[semaphoreIndex] := s;
      ok := true;
    }

    // The last buffered signal.
    method DeliverLast(ghost env: Setting, ghost w: World)
      requires Valid(env, w) && Buffered(env) && semaphoreIndex >= 0
      modifies this`fields, this`newProcessWaiting, this`newProcess
      ensures Valid(env, Signaled(env, w, semaphoreList[semaphoreIndex])) &&
        SameContexts(old(fields), fields, env, scheduler)
    {
      SynchronousSignal(semaphoreList[semaphoreIndex], env, w);
    }

    // All that is buffered is signaled, the last first.
    method DrainBuffer(ghost env: Setting, ghost w: World)
      requires Valid(env, w) && Buffered(env)
      modifies this`fields, this`newProcessWaiting, this`newProcess, this`semaphoreIndex
      ensures semaphoreIndex == -1 && Valid(env, Run(env, w, Deliveries(old(Buffer())))) &&
        SameContexts(old(fields), fields, env, scheduler)
    {
      ghost var v, buffer := w, Buffer();
      while semaphoreIndex >= 0
        invariant Valid(env, v) && Buffered(env) && SameContexts(old(fields), fields, env, scheduler)
        invariant Run(env, w, Deliveries(buffer)) == Run(env, v, Deliveries(Buffer()))
        decreases semaphoreIndex
      {
        ghost var s, f := semaphoreList[semaphoreIndex], fields;
        assert Buffer()[semaphoreIndex] == s && Buffer()[..semaphoreIndex] == semaphoreList[..semaphoreIndex];
        RunFirst(env, v, Signal(s), Deliveries(semaphoreList[..semaphoreIndex]));
        DeliverLast(env, v);
        SameContextsOn(old(fields), f, fields, env, scheduler);
        v := Signaled(env, v, s);
        semaphoreIndex := semaphoreIndex - 1;
      }
      assert Buffer() == [];
    }

    // checkProcessSwitch.  Every buffered signal is delivered; then the process chosen last runs, and
    // only the process that was really running has its context saved.
    method CheckProcessSwitch(ghost env: Setting, ghost w: World)
      requires Valid(env, w) && Buffered(env) && Get(fields, scheduler, ACTIVE_PROCESS) in env.priority
      modifies this`fields, this`newProcessWaiting, this`newProcess, this`semaphoreIndex, this`activeContext
      ensures semaphoreIndex == -1 && !newProcessWaiting && newProcess == NIL
      ensures Valid(env, Run(env, w, Deliveries(old(Buffer()))))
      ensures Get(fields, scheduler, ACTIVE_PROCESS) == Run(env, w, Deliveries(old(Buffer()))).current
      ensures activeContext ==
        if Get(fields, scheduler, ACTIVE_PROCESS) == Get(old(fields), scheduler, ACTIVE_PROCESS)
        then old(activeContext)
        else Get(old(fields), Get(fields, scheduler, ACTIVE_PROCESS), SUSPENDED_CONTEXT)
      ensures forall p :: p in env.priority && p != Get(old(fields), scheduler, ACTIVE_PROCESS) ==>
        Get(fields, p, SUSPENDED_CONTEXT) == Get(old(fields), p, SUSPENDED_CONTEXT)
      ensures Get(fields, scheduler, ACTIVE_PROCESS) != Get(old(fields), scheduler, ACTIVE_PROCESS) ==>
        Get(fields, Get(old(fields), scheduler, ACTIVE_PROCESS), SUSPENDED_CONTEXT) == old(activeContext)
    {
      ghost var v := Run(env, w, Deliveries(Buffer()));
      DrainBuffer(env, w);
      if newProcessWaiting {
        newProcessWaiting := false;
        var theActiveProcess := ActiveProcess();
        ghost var f := fields;
        fields := fields[(theActiveProcess, SUSPENDED_CONTEXT) := activeContext];
        fields := fields[(scheduler, ACTIVE_PROCESS) := newProcess];
        SwitchHolds(f, env, v, theActiveProcess, activeContext, newProcess);
        activeContext := Get(fields, newProcess, SUSPENDED_CONTEXT);
        newProcess := NIL;
      }
    }

    // Neither field is a link.
    lemma {:induction false} SwitchHolds(f: Fields, env: Setting, w: World, running: int, context: int, next: int)
      requires Apart(env, scheduler) && Settled(env, w) && Holds(f, env, w) && running in env.priority
      ensures Holds(f[(running, SUSPENDED_CONTEXT) := context][(scheduler, ACTIVE_PROCESS) := next], env, w)
    {
      var f' := f[(running, SUSPENDED_CONTEXT) := context][(scheduler, ACTIVE_PROCESS) := next];
      forall r, i | r != scheduler && (r != running || i != SUSPENDED_CONTEXT)
        ensures Get(f', r, i) == Get(f, r, i)
      {
      }
      forall l | IsList(env, l)
        ensures ListIs(f', l, QueueOf(w, l))
      {
        assert ListIs(f, l, QueueOf(w, l)) && l !in env.priority;
        forall i | 0 <= i < |QueueOf(w, l)|
          ensures Get(f', QueueOf(w, l)[i], NEXT_LINK) == Link(QueueOf(w, l), i + 1) &&
            Get(f', QueueOf(w, l)[i], MY_LIST) == l
        {
          assert Member(env, l, QueueOf(w, l)[i]);
        }
      }
      forall s | s in env.semaphores
        ensures Get(f', s, EXCESS_SIGNALS) == ExcessOf(w, s)
      {
        SemaphoreIsList(env, s);
      }
    }
  }
}
