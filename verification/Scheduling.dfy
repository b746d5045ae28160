// What the process scheduler does, on sequences: which process runs, which wait in which list, and
// how many signals each semaphore has in excess.
module Scheduling {

  const MAX_INTEGER := 16383

  // What does not change: the ready list of each priority, lowest first; the semaphores; the
  // processes and their priorities.
  datatype Setting = Setting(ready: seq<int>, semaphores: set<int>, priority: map<int, int>)

  datatype World = World(current: int, lists: map<int, seq<int>>, excess: map<int, int>)

  ghost predicate IsList(env: Setting, l: int) {
    l in env.ready || l in env.semaphores
  }

  // Lists, semaphores and processes are different objects, and every priority has a ready list.
  ghost predicate WellSet(env: Setting) {
    (forall i, j {:trigger env.ready[i], env.ready[j]} ::
      0 <= i < |env.ready| && 0 <= j < |env.ready| && env.ready[i] == env.ready[j] ==> i == j) &&
    (forall l {:trigger IsList(env, l)} :: IsList(env, l) ==>
      l !in env.priority && !(l in env.ready && l in env.semaphores)) &&
    (forall p {:trigger p in env.priority} :: p in env.priority ==> 1 <= env.priority[p] <= |env.ready|)
  }

  function QueueOf(w: World, l: int): seq<int> {
    if l in w.lists then w.lists[l] else []
  }

  function ExcessOf(w: World, s: int): int {
    if s in w.excess then w.excess[s] else 0
  }

  function PriorityOf(env: Setting, p: int): int {
    if p in env.priority then env.priority[p] else 1
  }

  function ReadyList(env: Setting, priority: int): int {
    if 1 <= priority <= |env.ready| then env.ready[priority - 1] else 0
  }

  ghost predicate OnList(w: World, p: int) {
    exists l, i {:trigger QueueOf(w, l)[i]} :: 0 <= i < |QueueOf(w, l)| && QueueOf(w, l)[i] == p
  }

  // No process is twice on the lists.
  ghost predicate Once(w: World) {
    forall l, m, i, j {:trigger QueueOf(w, l)[i], QueueOf(w, m)[j]} ::
      0 <= i < |QueueOf(w, l)| && 0 <= j < |QueueOf(w, m)| && QueueOf(w, l)[i] == QueueOf(w, m)[j] ==> l == m && i == j
  }

  // A ready list holds processes of its priority.
  ghost predicate Member(env: Setting, l: int, p: int) {
    p in env.priority && (l in env.ready ==> l == ReadyList(env, PriorityOf(env, p)))
  }

  ghost predicate Members(env: Setting, w: World) {
    forall l, i {:trigger QueueOf(w, l)[i]} :: 0 <= i < |QueueOf(w, l)| ==> Member(env, l, QueueOf(w, l)[i])
  }

  ghost predicate Complete(env: Setting, w: World) {
    (forall l {:trigger IsList(env, l)} {:trigger l in w.lists} :: IsList(env, l) <==> l in w.lists) &&
    (forall s {:trigger s in env.semaphores} {:trigger s in w.excess} :: s in env.semaphores <==> s in w.excess)
  }

  // Every process is in one place: it runs, or it is on one list once, or it is on none.
  ghost predicate Settled(env: Setting, w: World) {
    Complete(env, w) && Once(w) && Members(env, w)
  }

  ghost predicate Running(env: Setting, w: World) {
    w.current in env.priority && !OnList(w, w.current)
  }

  function ReadyQueue(env: Setting, w: World, k: int): seq<int> {
    QueueOf(w, ReadyList(env, k))
  }

  // No ready process has a higher priority than the running one.
  ghost predicate Fair(env: Setting, w: World) {
    forall k {:trigger ReadyQueue(env, w, k)} :: 1 <= k <= |env.ready| && ReadyQueue(env, w, k) != [] ==>
      k <= PriorityOf(env, w.current)
  }

  // Signals are in excess only when nobody waits.
  ghost predicate Spare(env: Setting, w: World) {
    forall s {:trigger ExcessOf(w, s)} :: s in env.semaphores ==>
      0 <= ExcessOf(w, s) <= MAX_INTEGER && (ExcessOf(w, s) > 0 ==> QueueOf(w, s) == [])
  }

  // What holds between any two operations.
  ghost predicate Sound(env: Setting, w: World) {
    WellSet(env) && Settled(env, w) && Running(env, w) && Fair(env, w) && Spare(env, w)
  }

  // The operations

  function Enqueued(w: World, l: int, p: int): World {
    w.(lists := w.lists[l := QueueOf(w, l) + [p]])
  }

  function Dequeued(w: World, l: int): World {
    w.(lists := w.lists[l := if QueueOf(w, l) == [] then [] else QueueOf(w, l)[1..]])
  }

  function First(w: World, l: int): int {
    if QueueOf(w, l) == [] then 0 else QueueOf(w, l)[0]
  }

  function Asleep(env: Setting, w: World, p: int): World {
    Enqueued(w, ReadyList(env, PriorityOf(env, p)), p)
  }

  // resume: p runs if it is more urgent than the running process, which then goes to sleep.
  function Resumed(env: Setting, w: World, p: int): World {
    if PriorityOf(env, p) > PriorityOf(env, w.current) then Asleep(env, w, w.current).(current := p)
      else Asleep(env, w, p)
  }

  // synchronousSignal: the first waiter is resumed, or the excess goes up as far as an integer can.
  function Signaled(env: Setting, w: World, s: int): World {
    if QueueOf(w, s) != [] then Resumed(env, Dequeued(w, s), First(w, s))
    else if ExcessOf(w, s) < MAX_INTEGER then w.(excess := w.excess[s := ExcessOf(w, s) + 1])
    else w
  }

  // The highest priority not above k whose ready list is not empty; 0 if there is none.
  function Highest(env: Setting, w: World, k: int): int
    decreases k
  {
    if k <= 0 then 0 else if ReadyQueue(env, w, k) != [] then k else Highest(env, w, k - 1)
  }

  function Woken(env: Setting, w: World): World {
    var l := ReadyList(env, Highest(env, w, |env.ready|));
    Dequeued(w, l).(current := First(w, l))
  }

  function Waited(env: Setting, w: World, s: int): World {
    if ExcessOf(w, s) > 0 then w.(excess := w.excess[s := ExcessOf(w, s) - 1])
      else Woken(env, Enqueued(w, s, w.current))
  }

  // Some process is ready to run.
  ghost predicate SomeReady(env: Setting, w: World) {
    exists k {:trigger ReadyQueue(env, w, k)} :: 1 <= k <= |env.ready| && ReadyQueue(env, w, k) != []
  }

  lemma {:induction false} HighestIs(env: Setting, w: World, k: int)
    requires 0 <= k <= |env.ready|
    ensures 0 <= Highest(env, w, k) <= k
    ensures Highest(env, w, k) > 0 ==> ReadyQueue(env, w, Highest(env, w, k)) != []
    ensures forall j {:trigger ReadyQueue(env, w, j)} :: Highest(env, w, k) < j <= k ==> ReadyQueue(env, w, j) == []
    decreases k
  {
    if k > 0 && ReadyQueue(env, w, k) == [] {
      HighestIs(env, w, k - 1);
    }
  }

  // The queues after a change to one of them.
  lemma {:induction false} QueueAfter(w: World, l: int, q: seq<int>, m: int)
    ensures QueueOf(w.(lists := w.lists[l := q]), m) == if m == l then q else QueueOf(w, m)
  {
  }

  lemma {:induction false} ReadyListIs(env: Setting, p: int)
    requires WellSet(env) && p in env.priority
    ensures IsList(env, ReadyList(env, PriorityOf(env, p))) && ReadyList(env, PriorityOf(env, p)) in env.ready
    ensures ReadyList(env, PriorityOf(env, p)) !in env.semaphores
  {
    assert env.ready[PriorityOf(env, p) - 1] in env.ready;
    assert IsList(env, ReadyList(env, PriorityOf(env, p)));
  }

  lemma {:induction false} OnItsList(w: World, l: int, i: int)
    requires 0 <= i < |QueueOf(w, l)|
    ensures OnList(w, QueueOf(w, l)[i])
  {
  }

  lemma {:induction false} SameOnList(w: World, v: World, p: int)
    requires v.lists == w.lists
    ensures OnList(v, p) <==> OnList(w, p)
  {
    if OnList(w, p) {
      var l, i :| 0 <= i < |QueueOf(w, l)| && QueueOf(w, l)[i] == p;
      assert QueueOf(v, l)[i] == p;
    }
    if OnList(v, p) {
      var l, i :| 0 <= i < |QueueOf(v, l)| && QueueOf(v, l)[i] == p;
      assert QueueOf(w, l)[i] == p;
    }
  }

  lemma {:induction false} EnqueuedAt(w: World, l: int, p: int, m: int, i: int)
    ensures |QueueOf(Enqueued(w, l, p), m)| == |QueueOf(w, m)| + (if m == l then 1 else 0)
    ensures 0 <= i < |QueueOf(Enqueued(w, l, p), m)| ==>
      QueueOf(Enqueued(w, l, p), m)[i] == if i < |QueueOf(w, m)| then QueueOf(w, m)[i] else p
  {
    QueueAfter(w, l, QueueOf(w, l) + [p], m);
  }

  lemma {:induction false} EnqueueOnce(w: World, l: int, p: int, v: World)
    requires Once(w) && !OnList(w, p) && v == Enqueued(w, l, p)
    ensures Once(v)
  {
    forall m, n, i, j | 0 <= i < |QueueOf(v, m)| && 0 <= j < |QueueOf(v, n)| && QueueOf(v, m)[i] == QueueOf(v, n)[j]
      ensures m == n && i == j
    {
      EnqueuedAt(w, l, p, m, i);
      EnqueuedAt(w, l, p, n, j);
      if i < |QueueOf(w, m)| {
        OnItsList(w, m, i);
      }
      if j < |QueueOf(w, n)| {
        OnItsList(w, n, j);
      }
    }
  }

  lemma {:induction false} EnqueueOnList(w: World, l: int, p: int, v: World, q: int)
    requires v == Enqueued(w, l, p)
    ensures OnList(v, q) <==> OnList(w, q) || q == p
  {
    if OnList(w, q) {
      var m, i :| 0 <= i < |QueueOf(w, m)| && QueueOf(w, m)[i] == q;
      EnqueuedAt(w, l, p, m, i);
      assert QueueOf(v, m)[i] == q;
    }
    if OnList(v, q) {
      var m, i :| 0 <= i < |QueueOf(v, m)| && QueueOf(v, m)[i] == q;
      EnqueuedAt(w, l, p, m, i);
      assert q != p ==> QueueOf(w, m)[i] == q;
    }
    EnqueuedAt(w, l, p, l, |QueueOf(w, l)|);
    assert QueueOf(v, l)[|QueueOf(w, l)|] == p;
  }

  // A process on no list joins one.
  lemma {:induction false} EnqueueSettled(env: Setting, w: World, l: int, p: int, v: World)
    requires Settled(env, w) && IsList(env, l) && Member(env, l, p) && !OnList(w, p) && v == Enqueued(w, l, p)
    ensures Settled(env, v)
    ensures forall q {:trigger OnList(v, q)} :: OnList(v, q) <==> OnList(w, q) || q == p
  {
    EnqueueOnce(w, l, p, v);
    forall m, i | 0 <= i < |QueueOf(v, m)|
      ensures Member(env, m, QueueOf(v, m)[i])
    {
      EnqueuedAt(w, l, p, m, i);
    }
    forall q
      ensures OnList(v, q) <==> OnList(w, q) || q == p
    {
      EnqueueOnList(w, l, p, v, q);
    }
  }

  lemma {:induction false} DequeuedAt(w: World, l: int, m: int, i: int)
    requires QueueOf(w, l) != []
    ensures |QueueOf(Dequeued(w, l), m)| == |QueueOf(w, m)| - (if m == l then 1 else 0)
    ensures 0 <= i < |QueueOf(Dequeued(w, l), m)| ==>
      QueueOf(Dequeued(w, l), m)[i] == QueueOf(w, m)[if m == l then i + 1 else i]
  {
    QueueAfter(w, l, QueueOf(w, l)[1..], m);
  }

  lemma {:induction false} DequeueOnce(w: World, l: int, v: World)
    requires Once(w) && QueueOf(w, l) != [] && v == Dequeued(w, l)
    ensures Once(v) && !OnList(v, First(w, l))
  {
    forall m, n, i, j | 0 <= i < |QueueOf(v, m)| && 0 <= j < |QueueOf(v, n)| && QueueOf(v, m)[i] == QueueOf(v, n)[j]
      ensures m == n && i == j
    {
      DequeuedAt(w, l, m, i);
      DequeuedAt(w, l, n, j);
    }
    forall m, i | 0 <= i < |QueueOf(v, m)|
      ensures QueueOf(v, m)[i] != First(w, l)
    {
      DequeuedAt(w, l, m, i);
      assert QueueOf(w, l)[0] == First(w, l);
    }
  }

  lemma {:induction false} StillOnList(w: World, l: int, v: World, q: int)
    requires QueueOf(w, l) != [] && v == Dequeued(w, l)
    ensures OnList(w, q) ==> q == First(w, l) || OnList(v, q)
  {
    if OnList(w, q) {
      var m, i :| 0 <= i < |QueueOf(w, m)| && QueueOf(w, m)[i] == q;
      var k := if m == l then i - 1 else i;
      if k >= 0 {
        DequeuedAt(w, l, m, k);
        assert QueueOf(v, m)[k] == q;
      }
    }
  }

  // The first of a list leaves it.
  lemma {:induction false} DequeueSettled(env: Setting, w: World, l: int, v: World)
    requires Settled(env, w) && IsList(env, l) && QueueOf(w, l) != [] && v == Dequeued(w, l)
    ensures Settled(env, v) && !OnList(v, First(w, l)) && OnList(w, First(w, l)) && Member(env, l, First(w, l))
    ensures forall q {:trigger OnList(v, q)} :: OnList(v, q) ==> OnList(w, q)
  {
    DequeueOnce(w, l, v);
    OnItsList(w, l, 0);
    forall m, i | 0 <= i < |QueueOf(v, m)|
      ensures Member(env, m, QueueOf(v, m)[i]) && OnList(w, QueueOf(v, m)[i])
    {
      DequeuedAt(w, l, m, i);
      OnItsList(w, m, if m == l then i + 1 else i);
    }
    assert Member(env, l, QueueOf(w, l)[0]);
  }

  // What the operations keep

  lemma {:induction false} SemaphoreIsList(env: Setting, s: int)
    requires WellSet(env) && s in env.semaphores
    ensures IsList(env, s) && s !in env.ready
  {
    assert IsList(env, s);
  }

  // A process goes to sleep.
  lemma {:induction false} AsleepKeeps(env: Setting, w: World, p: int, v: World)
    requires WellSet(env) && Settled(env, w) && Spare(env, w) && p in env.priority && !OnList(w, p) &&
      v == Asleep(env, w, p)
    ensures Settled(env, v) && Spare(env, v)
    ensures forall q {:trigger OnList(v, q)} :: OnList(v, q) <==> OnList(w, q) || q == p
    ensures forall s {:trigger QueueOf(v, s)} :: s in env.semaphores ==> QueueOf(v, s) == QueueOf(w, s)
    ensures forall k {:trigger ReadyQueue(env, v, k)} :: 1 <= k <= |env.ready| && k != PriorityOf(env, p) ==>
      ReadyQueue(env, v, k) == ReadyQueue(env, w, k)
  {
    var l := ReadyList(env, PriorityOf(env, p));
    ReadyListIs(env, p);
    EnqueueSettled(env, w, l, p, v);
    forall m
      ensures QueueOf(v, m) == if m == l then QueueOf(w, l) + [p] else QueueOf(w, m)
    {
      QueueAfter(w, l, QueueOf(w, l) + [p], m);
    }
    forall s | s in env.semaphores
      ensures 0 <= ExcessOf(v, s) <= MAX_INTEGER && (ExcessOf(v, s) > 0 ==> QueueOf(v, s) == [])
    {
      assert ExcessOf(v, s) == ExcessOf(w, s);
    }
    forall k | 1 <= k <= |env.ready| && k != PriorityOf(env, p)
      ensures ReadyQueue(env, v, k) == ReadyQueue(env, w, k)
    {
      assert env.ready[k - 1] == ReadyList(env, k) && env.ready[PriorityOf(env, p) - 1] == l;
    }
  }

  lemma {:induction false} ResumedSound(env: Setting, w: World, p: int)
    requires Sound(env, w) && p in env.priority && !OnList(w, p) && p != w.current
    ensures Sound(env, Resumed(env, w, p))
    ensures forall s {:trigger QueueOf(Resumed(env, w, p), s)} :: s in env.semaphores ==>
      QueueOf(Resumed(env, w, p), s) == QueueOf(w, s)
    ensures Resumed(env, w, p).excess == w.excess
  {
    var sleeper := if PriorityOf(env, p) > PriorityOf(env, w.current) then w.current else p;
    var u := Asleep(env, w, sleeper);
    AsleepKeeps(env, w, sleeper, u);
    var v := u.(current := if sleeper == p then w.current else p);
    assert v == Resumed(env, w, p);
    SameLists(env, u, v);
    forall k | 1 <= k <= |env.ready| && ReadyQueue(env, v, k) != []
      ensures k <= PriorityOf(env, v.current)
    {
      assert ReadyQueue(env, v, k) == ReadyQueue(env, u, k);
      assert k != PriorityOf(env, sleeper) ==> ReadyQueue(env, u, k) == ReadyQueue(env, w, k);
    }
  }

  // Who runs does not matter to the lists.
  lemma {:induction false} SameLists(env: Setting, u: World, v: World)
    requires v == u.(current := v.current)
    ensures forall l {:trigger QueueOf(v, l)} :: QueueOf(v, l) == QueueOf(u, l)
    ensures forall q {:trigger OnList(v, q)} :: OnList(v, q) <==> OnList(u, q)
    ensures Settled(env, u) ==> Settled(env, v)
    ensures Spare(env, u) ==> Spare(env, v)
  {
    forall q
      ensures OnList(v, q) <==> OnList(u, q)
    {
      SameOnList(u, v, q);
    }
    if Settled(env, u) {
      forall l, i | 0 <= i < |QueueOf(v, l)|
        ensures Member(env, l, QueueOf(v, l)[i])
      {
        assert Member(env, l, QueueOf(u, l)[i]);
      }
      forall l, m, i, j | 0 <= i < |QueueOf(v, l)| && 0 <= j < |QueueOf(v, m)| && QueueOf(v, l)[i] == QueueOf(v, m)[j]
        ensures l == m && i == j
      {
        assert QueueOf(u, l)[i] == QueueOf(u, m)[j];
      }
    }
    if Spare(env, u) {
      forall s | s in env.semaphores
        ensures 0 <= ExcessOf(v, s) <= MAX_INTEGER && (ExcessOf(v, s) > 0 ==> QueueOf(v, s) == [])
      {
        assert ExcessOf(v, s) == ExcessOf(u, s);
      }
    }
  }

  // The running process has left: the first of the most urgent runs.
  lemma {:induction false} WokenSound(env: Setting, w: World)
    requires WellSet(env) && Settled(env, w) && Spare(env, w) && SomeReady(env, w)
    ensures Sound(env, Woken(env, w)) && Woken(env, w).excess == w.excess
    ensures forall s {:trigger QueueOf(Woken(env, w), s)} :: s in env.semaphores ==>
      QueueOf(Woken(env, w), s) == QueueOf(w, s)
    ensures Woken(env, w).current != w.current || OnList(w, w.current)
  {
    var k := Highest(env, w, |env.ready|);
    var l := ReadyList(env, k);
    HighestIs(env, w, |env.ready|);
    assert k > 0 && ReadyQueue(env, w, k) == QueueOf(w, l);
    assert env.ready[k - 1] in env.ready && IsList(env, l);
    var u := Dequeued(w, l);
    DequeueSettled(env, w, l, u);
    var v := u.(current := First(w, l));
    assert v == Woken(env, w);
    SameLists(env, u, v);
    forall m
      ensures QueueOf(u, m) == if m == l then QueueOf(w, l)[1..] else QueueOf(w, m)
    {
      QueueAfter(w, l, QueueOf(w, l)[1..], m);
    }
    FirstPriority(env, w, k, l);
    forall j | 1 <= j <= |env.ready| && ReadyQueue(env, v, j) != []
      ensures j <= PriorityOf(env, v.current)
    {
      assert ReadyQueue(env, v, j) == ReadyQueue(env, u, j);
      assert ReadyQueue(env, w, j) != [];
    }
    forall s | s in env.semaphores
      ensures 0 <= ExcessOf(v, s) <= MAX_INTEGER && (ExcessOf(v, s) > 0 ==> QueueOf(v, s) == []) &&
        QueueOf(v, s) == QueueOf(w, s)
    {
      SemaphoreIsList(env, s);
      assert ExcessOf(v, s) == ExcessOf(w, s);
    }
  }

  lemma {:induction false} FirstPriority(env: Setting, w: World, k: int, l: int)
    requires WellSet(env) && Settled(env, w) && 1 <= k <= |env.ready| && l == ReadyList(env, k) && QueueOf(w, l) != []
    ensures PriorityOf(env, First(w, l)) == k
  {
    assert Member(env, l, QueueOf(w, l)[0]);
    assert env.ready[k - 1] == l;
    assert env.ready[PriorityOf(env, First(w, l)) - 1] == l;
  }

  lemma {:induction false} SignaledSound(env: Setting, w: World, s: int)
    requires Sound(env, w) && s in env.semaphores
    ensures Sound(env, Signaled(env, w, s))
    ensures QueueOf(w, s) != [] ==> Signaled(env, w, s).excess == w.excess
    ensures forall r {:trigger QueueOf(Signaled(env, w, s), r)} :: r in env.semaphores ==>
      QueueOf(Signaled(env, w, s), r) == if r == s && QueueOf(w, s) != [] then QueueOf(w, s)[1..] else QueueOf(w, r)
  {
    SemaphoreIsList(env, s);
    if QueueOf(w, s) != [] {
      var u := Dequeued(w, s);
      TakenOff(env, w, s, u);
      ResumedSound(env, u, First(w, s));
    } else if ExcessOf(w, s) < MAX_INTEGER {
      ExcessChanged(env, w, s, ExcessOf(w, s) + 1, Signaled(env, w, s));
    }
  }

  // The first waiter of a semaphore leaves it.
  lemma {:induction false} TakenOff(env: Setting, w: World, s: int, u: World)
    requires Sound(env, w) && s in env.semaphores && QueueOf(w, s) != [] && u == Dequeued(w, s)
    ensures Sound(env, u) && u.excess == w.excess
    ensures First(w, s) in env.priority && !OnList(u, First(w, s)) && First(w, s) != u.current
    ensures forall m {:trigger QueueOf(u, m)} :: QueueOf(u, m) == if m == s then QueueOf(w, s)[1..] else QueueOf(w, m)
  {
    SemaphoreIsList(env, s);
    DequeueSettled(env, w, s, u);
    forall m
      ensures QueueOf(u, m) == if m == s then QueueOf(w, s)[1..] else QueueOf(w, m)
    {
      QueueAfter(w, s, QueueOf(w, s)[1..], m);
    }
    forall r | r in env.semaphores
      ensures 0 <= ExcessOf(u, r) <= MAX_INTEGER && (ExcessOf(u, r) > 0 ==> QueueOf(u, r) == [])
    {
      assert ExcessOf(u, r) == ExcessOf(w, r);
    }
    forall k | 1 <= k <= |env.ready| && ReadyQueue(env, u, k) != []
      ensures k <= PriorityOf(env, u.current)
    {
      assert env.ready[k - 1] in env.ready && ReadyList(env, k) != s;
      assert ReadyQueue(env, u, k) == ReadyQueue(env, w, k);
    }
  }

  lemma {:induction false} ExcessChanged(env: Setting, w: World, s: int, n: int, v: World)
    requires Sound(env, w) && s in env.semaphores && 0 <= n <= MAX_INTEGER && QueueOf(w, s) == [] &&
      v == w.(excess := w.excess[s := n])
    ensures Sound(env, v) && forall l {:trigger QueueOf(v, l)} :: QueueOf(v, l) == QueueOf(w, l)
  {
    SameQueues(env, w, v);
    forall r | r in env.semaphores
      ensures 0 <= ExcessOf(v, r) <= MAX_INTEGER && (ExcessOf(v, r) > 0 ==> QueueOf(v, r) == [])
    {
      assert ExcessOf(v, r) == if r == s then n else ExcessOf(w, r);
    }
    forall k | 1 <= k <= |env.ready| && ReadyQueue(env, v, k) != []
      ensures k <= PriorityOf(env, v.current)
    {
      assert ReadyQueue(env, v, k) == ReadyQueue(env, w, k);
    }
  }

  // Excess signals do not matter to the lists.
  lemma {:induction false} SameQueues(env: Setting, w: World, v: World)
    requires v.lists == w.lists && v.current == w.current && v.excess.Keys == w.excess.Keys
    ensures forall l {:trigger QueueOf(v, l)} :: QueueOf(v, l) == QueueOf(w, l)
    ensures Settled(env, w) ==> Settled(env, v)
    ensures Running(env, w) ==> Running(env, v)
  {
    forall l, i | 0 <= i < |QueueOf(v, l)|
      ensures OnList(w, QueueOf(v, l)[i]) && (Settled(env, w) ==> Member(env, l, QueueOf(v, l)[i]))
    {
      OnItsList(w, l, i);
      assert Settled(env, w) ==> Member(env, l, QueueOf(w, l)[i]);
    }
    if Settled(env, w) {
      forall l, m, i, j | 0 <= i < |QueueOf(v, l)| && 0 <= j < |QueueOf(v, m)| && QueueOf(v, l)[i] == QueueOf(v, m)[j]
        ensures l == m && i == j
      {
        assert QueueOf(w, l)[i] == QueueOf(w, m)[j];
      }
      forall s
        ensures s in v.excess <==> s in w.excess
      {
        assert s in v.excess.Keys <==> s in w.excess.Keys;
      }
    }
  }

  lemma {:induction false} WaitedSound(env: Setting, w: World, s: int)
    requires Sound(env, w) && s in env.semaphores && (ExcessOf(w, s) == 0 ==> SomeReady(env, w))
    ensures Sound(env, Waited(env, w, s))
    ensures ExcessOf(w, s) == 0 ==> Waited(env, w, s).excess == w.excess
    ensures forall r {:trigger QueueOf(Waited(env, w, s), r)} :: r in env.semaphores ==>
      QueueOf(Waited(env, w, s), r) == if r == s && ExcessOf(w, s) == 0 then QueueOf(w, s) + [w.current]
        else QueueOf(w, r)
  {
    SemaphoreIsList(env, s);
    assert 0 <= ExcessOf(w, s);
    if ExcessOf(w, s) > 0 {
      ExcessChanged(env, w, s, ExcessOf(w, s) - 1, Waited(env, w, s));
    } else {
      var u := Enqueued(w, s, w.current);
      EnqueueSettled(env, w, s, w.current, u);
      forall m
        ensures QueueOf(u, m) == if m == s then QueueOf(w, s) + [w.current] else QueueOf(w, m)
      {
        QueueAfter(w, s, QueueOf(w, s) + [w.current], m);
      }
      forall r | r in env.semaphores
        ensures 0 <= ExcessOf(u, r) <= MAX_INTEGER && (ExcessOf(u, r) > 0 ==> QueueOf(u, r) == [])
      {
        assert ExcessOf(u, r) == ExcessOf(w, r);
      }
      StillReady(env, w, s, u);
      WokenSound(env, u);
    }
  }

  lemma {:induction false} StillReady(env: Setting, w: World, s: int, u: World)
    requires WellSet(env) && s in env.semaphores && SomeReady(env, w)
    requires forall m {:trigger QueueOf(u, m)} :: m != s ==> QueueOf(u, m) == QueueOf(w, m)
    ensures SomeReady(env, u)
  {
    var k :| 1 <= k <= |env.ready| && ReadyQueue(env, w, k) != [];
    SemaphoreIsList(env, s);
    assert env.ready[k - 1] == ReadyList(env, k);
    assert ReadyQueue(env, u, k) != [];
  }

  // Whole runs

  datatype Event = Signal(semaphore: int) | Wait(semaphore: int) | Resume(process: int) | Suspend

  // The conditions under which an event may happen: a process is resumed only when it is on no list,
  // and some process is ready when the running one stops.
  ghost predicate Enabled(env: Setting, w: World, e: Event) {
    match e
    case Signal(s) => s in env.semaphores
    case Wait(s) => s in env.semaphores && (ExcessOf(w, s) == 0 ==> SomeReady(env, w))
    case Resume(p) => p in env.priority && !OnList(w, p) && p != w.current
    case Suspend => SomeReady(env, w)
  }

  function Step(env: Setting, w: World, e: Event): World {
    match e
    case Signal(s) => Signaled(env, w, s)
    case Wait(s) => Waited(env, w, s)
    case Resume(p) => Resumed(env, w, p)
    case Suspend => Woken(env, w)
  }

  function Run(env: Setting, w: World, events: seq<Event>): World {
    if events == [] then w else Step(env, Run(env, w, events[..|events| - 1]), events[|events| - 1])
  }

  ghost predicate AllEnabled(env: Setting, w: World, events: seq<Event>) {
    forall n {:trigger events[n]} :: 0 <= n < |events| ==> Enabled(env, Run(env, w, events[..n]), events[n])
  }

  lemma {:induction false} StepSound(env: Setting, w: World, e: Event)
    requires Sound(env, w) && Enabled(env, w, e)
    ensures Sound(env, Step(env, w, e))
  {
    match e
    case Signal(s) => SignaledSound(env, w, s);
    case Wait(s) => WaitedSound(env, w, s);
    case Resume(p) => ResumedSound(env, w, p);
    case Suspend => WokenSound(env, w);
  }

  // A process may be resumed exactly when it is on no list and does not run.
  lemma {:induction false} ResumedSoundExactly(env: Setting, w: World, p: int)
    requires Sound(env, w) && p in env.priority
    ensures Sound(env, Resumed(env, w, p)) <==> !OnList(w, p) && p != w.current
  {
    if !OnList(w, p) && p != w.current {
      ResumedSound(env, w, p);
    } else {
      var v := Resumed(env, w, p);
      if PriorityOf(env, p) > PriorityOf(env, w.current) {
        var u := Asleep(env, w, w.current);
        EnqueueOnList(w, ReadyList(env, PriorityOf(env, w.current)), w.current, u, p);
        SameOnList(u, v, p);
      } else {
        var l := ReadyList(env, PriorityOf(env, p));
        EnqueueOnList(w, l, p, v, w.current);
        if p != w.current {
          Twice(w, l, p, v);
        }
      }
    }
  }

  // Two processes of one priority: the first runs, the second is ready.
  const A_PROCESS := 2
  const ANOTHER := 4
  const A_READY_LIST := 6
  const A_SEMAPHORE := 8

  ghost function TwoProcesses(): Setting {
    Setting([A_READY_LIST], {A_SEMAPHORE}, map[A_PROCESS := 1, ANOTHER := 1])
  }

  ghost function OneReady(): World {
    World(A_PROCESS, map[A_READY_LIST := [ANOTHER], A_SEMAPHORE := []], map[A_SEMAPHORE := 0])
  }

  // There are worlds in which resuming breaks the lists: resumed is the process that runs, or that is ready.
  lemma {:induction false} ResumedTwice(p: int)
    requires p == A_PROCESS || p == ANOTHER
    ensures Sound(TwoProcesses(), OneReady()) && !Sound(TwoProcesses(), Resumed(TwoProcesses(), OneReady(), p))
  {
    var env, w := TwoProcesses(), OneReady();
    assert forall l :: IsList(env, l) <==> l == A_READY_LIST || l == A_SEMAPHORE;
    assert forall l :: QueueOf(w, l) == if l == A_READY_LIST then [ANOTHER] else [];
    assert !OnList(w, A_PROCESS);
    assert ReadyList(env, 1) == A_READY_LIST;
    assert QueueOf(w, A_READY_LIST)[0] == ANOTHER;
    assert Sound(env, w);
    ResumedSoundExactly(env, w, p);
  }

  // A process that was on a list and joins one is there twice.
  lemma {:induction false} Twice(w: World, l: int, p: int, v: World)
    requires OnList(w, p) && v == Enqueued(w, l, p)
    ensures !Once(v)
  {
    var m, i :| 0 <= i < |QueueOf(w, m)| && QueueOf(w, m)[i] == p;
    EnqueuedAt(w, l, p, m, i);
    EnqueuedAt(w, l, p, l, |QueueOf(w, l)|);
    assert QueueOf(v, m)[i] == QueueOf(v, l)[|QueueOf(w, l)|];
  }

  lemma {:induction false} EnabledBefore(env: Setting, w: World, events: seq<Event>)
    requires AllEnabled(env, w, events) && events != []
    ensures AllEnabled(env, w, events[..|events| - 1])
    ensures Enabled(env, Run(env, w, events[..|events| - 1]), events[|events| - 1])
  {
    var most := events[..|events| - 1];
    forall n | 0 <= n < |most|
      ensures Enabled(env, Run(env, w, most[..n]), most[n])
    {
      assert most[..n] == events[..n] && most[n] == events[n];
    }
  }

  // Over every run each process is in one place and the running one is as urgent as any ready one.
  lemma {:induction false} RunSound(env: Setting, w: World, events: seq<Event>)
    requires Sound(env, w) && AllEnabled(env, w, events)
    ensures Sound(env, Run(env, w, events))
    decreases |events|
  {
    if events != [] {
      EnabledBefore(env, w, events);
      RunSound(env, w, events[..|events| - 1]);
      StepSound(env, Run(env, w, events[..|events| - 1]), events[|events| - 1]);
    }
  }

  // A signal that finds nobody waiting and the count at its limit is lost.
  predicate Lost(w: World, e: Event, s: int) {
    e == Signal(s) && QueueOf(w, s) == [] && ExcessOf(w, s) >= MAX_INTEGER
  }

  // Those that a step makes wait at s, and those that it lets go.
  function Arrival(w: World, e: Event, s: int): seq<int> {
    if e == Wait(s) && ExcessOf(w, s) == 0 then [w.current] else []
  }

  function Departure(w: World, e: Event, s: int): seq<int> {
    if e == Signal(s) && QueueOf(w, s) != [] then [QueueOf(w, s)[0]] else []
  }

  lemma {:induction false} StepConserves(env: Setting, w: World, e: Event, s: int)
    requires Sound(env, w) && Enabled(env, w, e) && s in env.semaphores
    ensures QueueOf(w, s) + Arrival(w, e, s) == Departure(w, e, s) + QueueOf(Step(env, w, e), s)
    ensures ExcessOf(Step(env, w, e), s) ==
      ExcessOf(w, s) + (if e == Signal(s) && QueueOf(w, s) == [] && !Lost(w, e, s) then 1 else 0)
                                            - (if e == Wait(s) && ExcessOf(w, s) > 0 then 1 else 0)
  {
    match e
    case Signal(r) => SignalConserves(env, w, r, s);
    case Wait(r) => WaitConserves(env, w, r, s);
    case Resume(p) => ResumedSound(env, w, p);
    case Suspend => WokenSound(env, w);
  }

  lemma {:induction false} SignalConserves(env: Setting, w: World, r: int, s: int)
    requires Sound(env, w) && r in env.semaphores && s in env.semaphores
    ensures QueueOf(w, s) ==
      (if r == s && QueueOf(w, s) != [] then [QueueOf(w, s)[0]] else []) + QueueOf(Signaled(env, w, r), s)
    ensures ExcessOf(Signaled(env, w, r), s) ==
      ExcessOf(w, s) + (if r == s && QueueOf(w, s) == [] && ExcessOf(w, s) < MAX_INTEGER then 1 else 0)
  {
    SignaledSound(env, w, r);
    var v := Signaled(env, w, r);
    if r == s && QueueOf(w, s) != [] {
      assert QueueOf(v, s) == QueueOf(w, s)[1..] && v.excess == w.excess;
    } else {
      assert QueueOf(v, s) == QueueOf(w, s);
    }
  }

  lemma {:induction false} WaitConserves(env: Setting, w: World, r: int, s: int)
    requires Sound(env, w) && Enabled(env, w, Wait(r)) && s in env.semaphores
    ensures QueueOf(Waited(env, w, r), s) == QueueOf(w, s) + (if r == s && ExcessOf(w, s) == 0 then [w.current] else [])
    ensures ExcessOf(Waited(env, w, r), s) == ExcessOf(w, s) - (if r == s && ExcessOf(w, s) > 0 then 1 else 0)
  {
    assert 0 <= ExcessOf(w, s) && 0 <= ExcessOf(w, r);
    WaitedSound(env, w, r);
  }

  function Arrivals(env: Setting, w: World, events: seq<Event>, s: int): seq<int> {
    if events == [] then []
    else
      Arrivals(env, w, events[..|events| - 1], s) +
      Arrival(Run(env, w, events[..|events| - 1]), events[|events| - 1], s)
  }

  function Departures(env: Setting, w: World, events: seq<Event>, s: int): seq<int> {
    if events == [] then []
    else
      Departures(env, w, events[..|events| - 1], s) +
      Departure(Run(env, w, events[..|events| - 1]), events[|events| - 1], s)
  }

  // Waiters leave in the order in which they came.
  lemma {:induction false} FirstComeFirstServed(env: Setting, w: World, events: seq<Event>, s: int)
    requires Sound(env, w) && AllEnabled(env, w, events) && s in env.semaphores
    ensures QueueOf(w, s) + Arrivals(env, w, events, s) ==
      Departures(env, w, events, s) + QueueOf(Run(env, w, events), s)
    decreases |events|
  {
    if events == [] {
      assert QueueOf(w, s) + [] == [] + QueueOf(w, s);
    } else {
      var most, e := events[..|events| - 1], events[|events| - 1];
      var u := Run(env, w, most);
      EnabledBefore(env, w, events);
      FirstComeFirstServed(env, w, most, s);
      RunSound(env, w, most);
      StepConserves(env, u, e, s);
      Queued(QueueOf(w, s), Arrivals(env, w, most, s), Arrival(u, e, s), Departures(env, w, most, s),
        Departure(u, e, s),
             QueueOf(u, s), QueueOf(Step(env, u, e), s));
    }
  }

  lemma {:induction false} Queued(q: seq<int>, a1: seq<int>, a2: seq<int>, d1: seq<int>, d2: seq<int>, r: seq<int>,
                                  t: seq<int>)
    requires q + a1 == d1 + r && r + a2 == d2 + t
    ensures q + (a1 + a2) == (d1 + d2) + t
  {
    assert q + (a1 + a2) == (q + a1) + a2;
    assert (d1 + r) + a2 == d1 + (r + a2);
    assert d1 + (d2 + t) == (d1 + d2) + t;
  }

  function Count(events: seq<Event>, e: Event): nat {
    if events == [] then 0 else Count(events[..|events| - 1], e) + (if events[|events| - 1] == e then 1 else 0)
  }

  // The signals that are lost in a run.
  function Losses(env: Setting, w: World, events: seq<Event>, s: int): nat {
    if events == [] then 0
    else
      Losses(env, w, events[..|events| - 1], s) +
      (if Lost(Run(env, w, events[..|events| - 1]), events[|events| - 1], s) then 1 else 0)
  }

  // Every signal is accounted for: what was there and what was signaled and not lost is what was
  // waited for and got, and what is left.  A wait is got when its process is not in the queue any more.
  lemma {:induction false} SignalsConserved(env: Setting, w: World, events: seq<Event>, s: int)
    requires Sound(env, w) && AllEnabled(env, w, events) && s in env.semaphores
    ensures var v := Run(env, w, events);
      ExcessOf(w, s) - |QueueOf(w, s)| + Count(events, Signal(s)) - Losses(env, w, events, s) ==
        Count(events, Wait(s)) + ExcessOf(v, s) - |QueueOf(v, s)|
    decreases |events|
  {
    if events != [] {
      var most, e := events[..|events| - 1], events[|events| - 1];
      EnabledBefore(env, w, events);
      SignalsConserved(env, w, most, s);
      RunSound(env, w, most);
      StepConserves(env, Run(env, w, most), e, s);
    }
  }

  // The buffer of asynchronous signals is emptied from its end.
  function Deliveries(buffer: seq<int>): seq<Event> {
    if buffer == [] then [] else [Signal(buffer[|buffer| - 1])] + Deliveries(buffer[..|buffer| - 1])
  }

  // Each buffered signal is delivered once, the last first.
  lemma {:induction false} DeliveredOnce(buffer: seq<int>, s: int)
    ensures Count(Deliveries(buffer), Signal(s)) == multiset(buffer)[s] && Count(Deliveries(buffer), Wait(s)) == 0
    ensures |Deliveries(buffer)| == |buffer| &&
      forall k :: 0 <= k < |buffer| ==> Deliveries(buffer)[k] == Signal(buffer[|buffer| - 1 - k])
  {
    if buffer != [] {
      var n := |buffer| - 1;
      DeliveredOnce(buffer[..n], s);
      CountFirst(Signal(buffer[n]), Deliveries(buffer[..n]), Signal(s));
      CountFirst(Signal(buffer[n]), Deliveries(buffer[..n]), Wait(s));
      assert buffer == buffer[..n] + [buffer[n]];
    }
  }

  lemma {:induction false} CountFirst(e: Event, events: seq<Event>, c: Event)
    ensures Count([e] + events, c) == Count(events, c) + (if e == c then 1 else 0)
  {
    if events == [] {
      assert [e] + events == [e] && [e][..0] == [];
    } else {
      var n := |events| - 1;
      CountFirst(e, events[..n], c);
      assert ([e] + events)[..|events|] == [e] + events[..n];
    }
  }

  lemma {:induction false} RunFirst(env: Setting, w: World, e: Event, events: seq<Event>)
    ensures Run(env, w, [e] + events) == Run(env, Step(env, w, e), events)
  {
    if events == [] {
      assert [e] + events == [] + [e];
      RunLast(env, w, [e], [], e);
    } else {
      var n := |events| - 1;
      var most, last := events[..n], events[n];
      RunFirst(env, w, e, most);
      assert events == most + [last] && [e] + events == [e] + most + [last];
      RunLast(env, w, [e] + events, [e] + most, last);
      RunLast(env, Step(env, w, e), events, most, last);
    }
  }

  lemma {:induction false} RunLast(env: Setting, w: World, events: seq<Event>, most: seq<Event>, last: Event)
    requires events == most + [last]
    ensures Run(env, w, events) == Step(env, Run(env, w, most), last)
  {
    assert events[..|events| - 1] == most;
  }
}
