// Who runs and who is ready: no process is lost, and ready processes of one priority take turns.
module Dispatching {
  import opened Scheduling

  // The ready list of a process: the lists are in the order of the priorities, from 1 on.
  function ListOf(env: Setting, p: int): int
    requires WellSet(env) && p in env.priority
  {
    env.ready[env.priority[p] - 1]
  }

  // The more urgent of p and the running process runs, that one if neither is;
  function Winner(env: Setting, w: World, p: int): int
    requires p in env.priority && w.current in env.priority
  {
    if env.priority[p] > env.priority[w.current] then p else w.current
  }

  // the other one waits.
  function Loser(env: Setting, w: World, p: int): int
    requires p in env.priority && w.current in env.priority
  {
    if env.priority[p] > env.priority[w.current] then w.current else p
  }

  lemma {:induction false} ListOfIs(env: Setting, p: int)
    requires WellSet(env) && p in env.priority
    ensures ListOf(env, p) in env.ready && ListOf(env, p) == ReadyList(env, PriorityOf(env, p)) &&
      ListOf(env, p) !in env.semaphores
  {
    ReadyListIs(env, p);
  }

  // The queue of l, at whose end q is put if l is its ready list.
  function WithReady(env: Setting, q: int, l: int, queue: seq<int>): seq<int>
    requires WellSet(env) && q in env.priority
  {
    if l == ListOf(env, q) then queue + [q] else queue
  }

  // Resuming p: one of it and the running process runs, and the other is the last on its ready list.
  lemma {:induction false} ResumeIs(env: Setting, w: World, p: int)
    requires WellSet(env) && p in env.priority && w.current in env.priority
    ensures var v := Resumed(env, w, p);
      v.current == Winner(env, w, p) && v.excess == w.excess &&
      forall l {:trigger QueueOf(v, l)} :: QueueOf(v, l) == WithReady(env, Loser(env, w, p), l, QueueOf(w, l))
  {
    var v, q := Resumed(env, w, p), Loser(env, w, p);
    ListOfIs(env, q);
    forall l
      ensures QueueOf(v, l) == WithReady(env, q, l, QueueOf(w, l))
    {
      QueueAfter(w, ListOf(env, q), QueueOf(w, ListOf(env, q)) + [q], l);
      assert QueueOf(v, l) == QueueOf(Asleep(env, w, q), l);
    }
  }

  // A signal: the first waiter is resumed, or the signal is kept.
  lemma {:induction false} SignalIs(env: Setting, w: World, s: int)
    requires Sound(env, w) && s in env.semaphores
    ensures var v, waiters := Signaled(env, w, s), QueueOf(w, s);
      if waiters == [] then
        v.current == w.current && v.lists == w.lists &&
        forall r {:trigger ExcessOf(v, r)} :: ExcessOf(v, r) ==
          if r == s && ExcessOf(w, s) < MAX_INTEGER then ExcessOf(w, s) + 1 else ExcessOf(w, r)
      else
        waiters[0] in env.priority && v.current == Winner(env, w, waiters[0]) && v.excess == w.excess &&
        forall l {:trigger QueueOf(v, l)} :: QueueOf(v, l) ==
          WithReady(env, Loser(env, w, waiters[0]), l, if l == s then waiters[1..] else QueueOf(w, l))
  {
    if QueueOf(w, s) != [] {
      var u := Dequeued(w, s);
      TakenOff(env, w, s, u);
      ResumeIs(env, u, First(w, s));
    }
  }

  // The first of the most urgent ready processes runs; k is its priority.
  ghost predicate Woke(env: Setting, w: World, v: World, k: int)
    requires WellSet(env)
  {
    1 <= k <= |env.ready| && QueueOf(w, env.ready[k - 1]) != [] &&
    (forall j {:trigger env.ready[j]} :: k <= j < |env.ready| ==> QueueOf(w, env.ready[j]) == []) &&
    v.current == QueueOf(w, env.ready[k - 1])[0] && v.excess == w.excess &&
    forall l {:trigger QueueOf(v, l)} :: QueueOf(v, l) ==
      if l == env.ready[k - 1] then QueueOf(w, l)[1..] else QueueOf(w, l)
  }

  lemma {:induction false} WokenIs(env: Setting, w: World) returns (k: int)
    requires WellSet(env) && SomeReady(env, w)
    ensures Woke(env, w, Woken(env, w), k)
  {
    HighestIs(env, w, |env.ready|);
    k := Highest(env, w, |env.ready|);
    var v, list := Woken(env, w), ReadyList(env, k);
    assert k > 0 && ReadyQueue(env, w, k) == QueueOf(w, list);
    forall j | k <= j < |env.ready|
      ensures QueueOf(w, env.ready[j]) == []
    {
      assert ReadyQueue(env, w, j + 1) == [];
    }
    forall l
      ensures QueueOf(v, l) == if l == list then QueueOf(w, l)[1..] else QueueOf(w, l)
    {
      QueueAfter(w, list, QueueOf(w, list)[1..], l);
      assert QueueOf(v, l) == QueueOf(Dequeued(w, list), l);
    }
  }

  // A wait: a signal that was kept is used up, or the running process joins the waiters as their last and the
  // most urgent ready process runs.
  lemma {:induction false} WaitIs(env: Setting, w: World, s: int)
    requires Sound(env, w) && Enabled(env, w, Wait(s))
    ensures var v := Waited(env, w, s);
      if ExcessOf(w, s) > 0 then
        v.current == w.current && v.lists == w.lists &&
        forall r {:trigger ExcessOf(v, r)} :: ExcessOf(v, r) == ExcessOf(w, r) - (if r == s then 1 else 0)
      else
        exists k {:trigger Woke(env, Enqueued(w, s, w.current), v, k)} :: Woke(env, Enqueued(w, s, w.current), v, k)
    ensures forall l {:trigger QueueOf(Enqueued(w, s, w.current), l)} ::
      QueueOf(Enqueued(w, s, w.current), l) == if l == s then QueueOf(w, l) + [w.current] else QueueOf(w, l)
  {
    forall l
      ensures QueueOf(Enqueued(w, s, w.current), l) == if l == s then QueueOf(w, l) + [w.current] else QueueOf(w, l)
    {
      QueueAfter(w, s, QueueOf(w, s) + [w.current], l);
    }
    if ExcessOf(w, s) <= 0 {
      assert 0 <= ExcessOf(w, s);
      StillReady(env, w, s, Enqueued(w, s, w.current));
      var k := WokenIs(env, Enqueued(w, s, w.current));
    }
  }

  // Conservation

  // A process is in the system when it runs or is on a list.
  ghost predicate Present(w: World, p: int) {
    p == w.current || OnList(w, p)
  }

  lemma {:induction false} ResumedPresent(env: Setting, w: World, p: int, q: int)
    requires WellSet(env) && p in env.priority && w.current in env.priority
    ensures Present(Resumed(env, w, p), q) <==> Present(w, q) || q == p
  {
    var l, loser := ListOf(env, Loser(env, w, p)), Loser(env, w, p);
    ListOfIs(env, loser);
    EnqueueOnList(w, l, loser, Asleep(env, w, loser), q);
    SameOnList(Asleep(env, w, loser), Resumed(env, w, p), q);
  }

  lemma {:induction false} DequeuedPresent(w: World, l: int, q: int)
    requires Once(w) && QueueOf(w, l) != []
    ensures OnList(Dequeued(w, l), q) <==> OnList(w, q) && q != First(w, l)
    ensures OnList(w, First(w, l))
  {
    var v := Dequeued(w, l);
    DequeueOnce(w, l, v);
    StillOnList(w, l, v, q);
    OnItsList(w, l, 0);
    if m, i :| 0 <= i < |QueueOf(v, m)| && QueueOf(v, m)[i] == q {
      DequeuedAt(w, l, m, i);
      OnItsList(w, m, if m == l then i + 1 else i);
    }
  }

  lemma {:induction false} WokenPresent(env: Setting, w: World, q: int)
    requires WellSet(env) && Once(w) && SomeReady(env, w)
    ensures Present(Woken(env, w), q) <==> OnList(w, q)
  {
    HighestIs(env, w, |env.ready|);
    var k := Highest(env, w, |env.ready|);
    var l := ReadyList(env, k);
    assert k > 0 && ReadyQueue(env, w, k) == QueueOf(w, l);
    DequeuedPresent(w, l, q);
    SameOnList(Dequeued(w, l), Woken(env, w), q);
  }

  // Only suspending takes a process out of the system, and only resuming brings one in.
  lemma {:induction false} StepPresent(env: Setting, w: World, e: Event, q: int)
    requires Sound(env, w) && Enabled(env, w, e)
    ensures Present(Step(env, w, e), q) <==>
      (Present(w, q) && !(e == Suspend && q == w.current)) || e == Event.Resume(q)
  {
    match e
    case Signal(s) =>
      if QueueOf(w, s) != [] {
        var u := Dequeued(w, s);
        TakenOff(env, w, s, u);
        DequeuedPresent(w, s, q);
        ResumedPresent(env, u, First(w, s), q);
      } else {
        SameOnList(w, Signaled(env, w, s), q);
      }
    case Wait(s) =>
      assert 0 <= ExcessOf(w, s);
      if ExcessOf(w, s) > 0 {
        SameOnList(w, Waited(env, w, s), q);
      } else {
        var u := Enqueued(w, s, w.current);
        EnqueueOnce(w, s, w.current, u);
        EnqueueOnList(w, s, w.current, u, q);
        WaitIs(env, w, s);
        StillReady(env, w, s, u);
        WokenPresent(env, u, q);
      }
    case Resume(p) => ResumedPresent(env, w, p, q);
    case Suspend => WokenPresent(env, w, q);
  }

  // How often p was the running process when that was suspended.
  function Suspensions(env: Setting, w: World, events: seq<Event>, p: int): nat {
    if events == [] then 0
    else
      var most, e := events[..|events| - 1], events[|events| - 1];
      Suspensions(env, w, most, p) + (if e == Suspend && Run(env, w, most).current == p then 1 else 0)
  }

  ghost function Times(there: bool): nat {
    if there then 1 else 0
  }

  // Over every run a process is in the system as often as it was and has been resumed, less the times that it
  // was suspended: no other event makes one vanish or appear.
  lemma {:induction false} ProcessesConserved(env: Setting, w: World, events: seq<Event>, p: int)
    requires Sound(env, w) && AllEnabled(env, w, events)
    ensures Times(Present(w, p)) + Count(events, Event.Resume(p)) ==
      Suspensions(env, w, events, p) + Times(Present(Run(env, w, events), p))
    decreases |events|
  {
    if events != [] {
      var most, e := events[..|events| - 1], events[|events| - 1];
      EnabledBefore(env, w, events);
      ProcessesConserved(env, w, most, p);
      RunSound(env, w, most);
      StepPresent(env, Run(env, w, most), e, p);
    }
  }

  // The order on the ready lists

  // The process that a step makes wait on the ready list of priority k.
  ghost function Joining(env: Setting, w: World, e: Event, k: int): seq<int>
    requires Sound(env, w) && Enabled(env, w, e) && 1 <= k <= |env.ready|
  {
    match e
    case Signal(s) =>
      if QueueOf(w, s) == [] then []
      else
        SignalIs(env, w, s);
        WithReady(env, Loser(env, w, QueueOf(w, s)[0]), env.ready[k - 1], [])
    case Resume(p) => WithReady(env, Loser(env, w, p), env.ready[k - 1], [])
    case _ => []
  }

  // The running process stops.
  predicate Stops(w: World, e: Event) {
    e == Suspend || (e.Wait? && ExcessOf(w, e.semaphore) == 0)
  }

  // The process of priority k whose turn it is: the first, if nobody more urgent is ready.
  ghost function Leaving(env: Setting, w: World, e: Event, k: int): seq<int>
    requires 1 <= k <= |env.ready|
  {
    var queue := QueueOf(w, env.ready[k - 1]);
    if Stops(w, e) && queue != [] && forall j {:trigger env.ready[j]} :: k <= j < |env.ready| ==>
      QueueOf(w, env.ready[j]) == [] then [queue[0]] else []
  }

  lemma {:induction false} WokeLeaves(env: Setting, w: World, e: Event, u: World, v: World, k: int, n: int)
    requires WellSet(env) && Stops(w, e) && Woke(env, u, v, n) && 1 <= k <= |env.ready|
    requires forall m {:trigger QueueOf(u, m)} :: m in env.ready ==> QueueOf(u, m) == QueueOf(w, m)
    ensures QueueOf(w, env.ready[k - 1]) == Leaving(env, w, e, k) + QueueOf(v, env.ready[k - 1])
    ensures Leaving(env, w, e, k) != [] ==> v.current == Leaving(env, w, e, k)[0]
  {
    forall j | 0 <= j < |env.ready|
      ensures QueueOf(u, env.ready[j]) == QueueOf(w, env.ready[j])
    {
      assert env.ready[j] in env.ready;
    }
    assert env.ready[k - 1] == env.ready[n - 1] ==> k == n;
    if k < n {
      assert QueueOf(w, env.ready[n - 1]) != [];
    }
  }

  lemma {:induction false} SignalTurn(env: Setting, w: World, s: int, k: int)
    requires Sound(env, w) && s in env.semaphores && 1 <= k <= |env.ready|
    ensures QueueOf(Signaled(env, w, s), env.ready[k - 1]) ==
      QueueOf(w, env.ready[k - 1]) + Joining(env, w, Signal(s), k)
  {
    var list := env.ready[k - 1];
    SemaphoreIsList(env, s);
    SignalIs(env, w, s);
    assert list in env.ready && list != s;
    assert QueueOf(w, s) == [] ==> QueueOf(Signaled(env, w, s), list) == QueueOf(w, list) + [];
  }

  lemma {:induction false} WaitTurn(env: Setting, w: World, s: int, k: int)
    requires Sound(env, w) && Enabled(env, w, Wait(s)) && 1 <= k <= |env.ready|
    ensures var v, left := Waited(env, w, s), Leaving(env, w, Wait(s), k);
      QueueOf(w, env.ready[k - 1]) == left + QueueOf(v, env.ready[k - 1]) && (left != [] ==> v.current == left[0])
  {
    var list, v := env.ready[k - 1], Waited(env, w, s);
    SemaphoreIsList(env, s);
    WaitIs(env, w, s);
    assert 0 <= ExcessOf(w, s) && list in env.ready && list != s;
    if ExcessOf(w, s) == 0 {
      var u := Enqueued(w, s, w.current);
      var n :| Woke(env, u, v, n);
      WokeLeaves(env, w, Wait(s), u, v, k, n);
    } else {
      assert QueueOf(v, list) == QueueOf(w, list) == [] + QueueOf(w, list);
    }
  }

  lemma {:induction false} ResumeTurn(env: Setting, w: World, p: int, k: int)
    requires Sound(env, w) && Enabled(env, w, Event.Resume(p)) && 1 <= k <= |env.ready|
    ensures QueueOf(Resumed(env, w, p), env.ready[k - 1]) ==
      QueueOf(w, env.ready[k - 1]) + Joining(env, w, Event.Resume(p), k)
  {
    ResumeIs(env, w, p);
  }

  // What joins a ready list comes last; what leaves it was first, and runs.
  lemma {:induction false} StepTurn(env: Setting, w: World, e: Event, k: int)
    requires Sound(env, w) && Enabled(env, w, e) && 1 <= k <= |env.ready|
    ensures QueueOf(w, env.ready[k - 1]) + Joining(env, w, e, k) ==
      Leaving(env, w, e, k) + QueueOf(Step(env, w, e), env.ready[k - 1])
    ensures Leaving(env, w, e, k) != [] ==> Step(env, w, e).current == Leaving(env, w, e, k)[0]
  {
    match e
    case Signal(s) => SignalTurn(env, w, s, k);
    case Wait(s) => WaitTurn(env, w, s, k);
    case Resume(p) => ResumeTurn(env, w, p, k);
    case Suspend =>
      var n := WokenIs(env, w);
      WokeLeaves(env, w, e, w, Woken(env, w), k, n);
  }

  ghost function Joined(env: Setting, w: World, events: seq<Event>, k: int): seq<int>
    requires Sound(env, w) && AllEnabled(env, w, events) && 1 <= k <= |env.ready|
  {
    if events == [] then []
    else
      EnabledBefore(env, w, events);
      RunSound(env, w, events[..|events| - 1]);
      Joined(env, w, events[..|events| - 1], k) +
      Joining(env, Run(env, w, events[..|events| - 1]), events[|events| - 1], k)
  }

  ghost function Left(env: Setting, w: World, events: seq<Event>, k: int): seq<int>
    requires 1 <= k <= |env.ready|
  {
    if events == [] then []
    else
      Left(env, w, events[..|events| - 1], k) +
      Leaving(env, Run(env, w, events[..|events| - 1]), events[|events| - 1], k)
  }

  // Over every run the ready processes of a priority run in the order in which they became ready.
  lemma {:induction false} TurnsTaken(env: Setting, w: World, events: seq<Event>, k: int)
    requires Sound(env, w) && AllEnabled(env, w, events) && 1 <= k <= |env.ready|
    ensures QueueOf(w, env.ready[k - 1]) + Joined(env, w, events, k) ==
      Left(env, w, events, k) + QueueOf(Run(env, w, events), env.ready[k - 1])
    decreases |events|
  {
    var list := env.ready[k - 1];
    if events == [] {
      assert QueueOf(w, list) + [] == [] + QueueOf(w, list);
    } else {
      var most, e := events[..|events| - 1], events[|events| - 1];
      var u := Run(env, w, most);
      EnabledBefore(env, w, events);
      TurnsTaken(env, w, most, k);
      RunSound(env, w, most);
      StepTurn(env, u, e, k);
      Queued(QueueOf(w, list), Joined(env, w, most, k), Joining(env, u, e, k), Left(env, w, most, k),
        Leaving(env, u, e, k), QueueOf(u, list), QueueOf(Step(env, u, e), list));
    }
  }
}
