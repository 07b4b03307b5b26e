/**
 Sleeping and waking under the lock of the workqueues.  A thread that finds its condition
 unmet sleeps on a channel and releases the lock; a lock section wakes everybody on the
 channels it names.  No wake-up is ever missed.
 */
module WorkqueueWakeups {
  import opened Wrappers
  import opened Workqueue

  /** What is slept on: a queue's list, a work item, a queue's end. */
  datatype Channel = OnList(q: nat) | OnWork(i: nat) | OnDone(q: nat)

  datatype Waiter = Worker(q: nat) | FlushQueue(q: nat) | FlushWork(i: nat) | CancelSync(i: nat) | Destroy(q: nat)

  function Sleeps(w: Waiter): Channel {
    match w
    case Worker(q) => OnList(q)
    case FlushQueue(q) => OnList(q)
    case FlushWork(i) => OnWork(i)
    case CancelSync(i) => OnWork(i)
    case Destroy(q) => OnDone(q)
  }

  /** The condition of the loop around each sleep. */
  ghost predicate MustWait(s: State, w: Waiter) {
    match w
    case Worker(q) => q < |s.qs| && s.qs[q].running && s.qs[q].list == []
    case FlushQueue(q) => q < |s.qs| && (s.qs[q].list != [] || s.qs[q].active != 0)
    case FlushWork(i) => i < |s.items| && (s.items[i].pending != 0 || s.items[i].executing)
    case CancelSync(i) => i < |s.items| && s.items[i].executing
    case Destroy(q) => q < |s.qs| && !s.qs[q].done
  }

  ghost function RemoveWakes(w: Work, i: nat): set<Channel> {
    {OnWork(i)} + if w.pending != 0 && w.wq.Some? then {OnList(w.wq.value)} else {}
  }

  /** The `IOLockWakeup` calls of a section. */
  ghost function Wakes(s: State, e: Event): set<Channel>
    requires CanHappen(s, e)
  {
    match e
    case QueueWork(q, i) => if Accepts(s.qs[q], q, s.items[i]) then {OnList(q)} else {}
    case TimerFn(i) =>
      var w := s.items[i];
      {OnWork(i)} +
      if w.pending == 2 && w.wq.Some? && w.wq.value < |s.qs| && Accepts(s.qs[w.wq.value], w.wq.value, w.(pending := 0))
      then {OnList(w.wq.value)} else {}
    case Finish(q) => {OnWork(s.qs[q].worker.item), OnList(q)}
    case End(q) => {OnDone(q)}
    case Stop(q) => {OnList(q)}
    case CancelWorkSync(i) => RemoveWakes(s.items[i], i)
    case CancelDelayedSync(i) => RemoveWakes(s.items[i], i)
    case CancelDelayed(i) => RemoveWakes(s.items[i], i)
    case _ => {}
  }

  /** A section that ends somebody's wait wakes the channel it is slept on. */
  lemma EndedWaitIsWoken(s: State, e: Event, w: Waiter)
    requires Inv(s) && Enabled(s, e)
    requires MustWait(s, w) && !MustWait(Step(s, e), w)
    ensures Sleeps(w) in Wakes(s, e)
  {
    hide Remove, BeginCancel, RemovePending, TimerFires, ItemOk, TicketOk;
    match e
    case CancelWorkSync(i) => CancelIsWoken(s, i, w, false);
    case CancelDelayedSync(i) => CancelIsWoken(s, i, w, true);
    case CancelDelayed(i) => RemovalIsWoken(s, i, w, RemovePending(s, i));
    case Finish(q) => assert QueueOk(s, q);
    case TimerFn(i) => TimerIsWoken(s, i, w);
    case _ =>
  }

  lemma CancelIsWoken(s: State, i: nat, w: Waiter, delayed: bool)
    requires Inv(s) && i < |s.items| && MustWait(s, w) && !MustWait(BeginCancel(s, i, delayed), w)
    ensures Sleeps(w) in RemoveWakes(s.items[i], i)
  {
    hide RemovePending;
    RemovalIsWoken(s, i, w, BeginCancel(s, i, delayed));
  }

  lemma TimerIsWoken(s: State, i: nat, w: Waiter)
    requires Inv(s) && i < |s.items| && MustWait(s, w) && !MustWait(TimerFires(s, i), w)
    ensures Sleeps(w) in Wakes(s, TimerFn(i))
  {
    assert ItemOk(s, i);
  }

  lemma RemovalIsWoken(s: State, i: nat, w: Waiter, s': State)
    requires Inv(s) && i < |s.items| && MustWait(s, w) && !MustWait(s', w)
    requires var r := RemovePending(s, i);
      |s'.items| == |s.items| && s'.qs == r.qs &&
      forall j :: 0 <= j < |s.items| ==> s'.items[j].pending == r.items[j].pending && s'.items[j].executing == r.items[j].executing
    ensures Sleeps(w) in RemoveWakes(s.items[i], i)
  {
    hide Remove;
    assert ItemOk(s, i);
  }

  // ---------- sleepers ----------

  datatype System = System(state: State, asleep: map<nat, Waiter>)

  /** A lock section, or a thread that tests its condition and goes to sleep. */
  datatype Move = Section(e: Event) | Sleep(t: nat, w: Waiter)

  /** The test of the thread would read a queue that has been freed. */
  ghost predicate OfFreed(s: State, w: Waiter) {
    match w
    case Worker(q) => Freed(s, q)
    case FlushQueue(q) => Freed(s, q)
    case Destroy(q) => Freed(s, q)
    case _ => false
  }

  ghost predicate Possible(y: System, m: Move) {
    match m
    case Section(e) => Enabled(y.state, e)
    case Sleep(t, w) => t !in y.asleep && MustWait(y.state, w) && !OfFreed(y.state, w)
  }

  ghost function Next(y: System, m: Move): System
    requires Possible(y, m)
  {
    match m
    case Section(e) =>
      System(Step(y.state, e), map t | t in y.asleep && Sleeps(y.asleep[t]) !in Wakes(y.state, e) :: y.asleep[t])
    case Sleep(t, w) => y.(asleep := y.asleep[t := w])
  }

  ghost predicate Moves(y: System, ms: seq<Move>)
    decreases |ms|
  {
    ms == [] || (Moves(y, ms[..|ms| - 1]) && Possible(After(y, ms[..|ms| - 1]), ms[|ms| - 1]))
  }

  ghost function After(y: System, ms: seq<Move>): System
    decreases |ms|
  {
    if ms == [] then y
    else
      var p := After(y, ms[..|ms| - 1]);
      if Possible(p, ms[|ms| - 1]) then Next(p, ms[|ms| - 1]) else p
  }

  ghost predicate NobodyForgotten(y: System) {
    forall t :: t in y.asleep ==> MustWait(y.state, y.asleep[t])
  }

  lemma NextKeeps(y: System, m: Move)
    requires Inv(y.state) && NobodyForgotten(y) && Possible(y, m)
    ensures Inv(Next(y, m).state) && NobodyForgotten(Next(y, m))
  {
    hide Inv, CanHappen, TouchesFreed, MustWait, Step, Wakes;
    if m.Section? {
      StepKeeps(y.state, m.e);
      forall t | t in Next(y, m).asleep ensures MustWait(Step(y.state, m.e), y.asleep[t]) {
        if !MustWait(Step(y.state, m.e), y.asleep[t]) {
          EndedWaitIsWoken(y.state, m.e, y.asleep[t]);
        }
      }
    }
  }

  /** In every run a sleeping worker, flusher, canceller or destroyer still has its reason to wait. */
  lemma NoWakeupIsMissed(nq: nat, ni: nat, ms: seq<Move>, t: nat)
    requires Moves(System(Start(nq, ni), map[]), ms)
    requires t in After(System(Start(nq, ni), map[]), ms).asleep
    ensures var y := After(System(Start(nq, ni), map[]), ms); MustWait(y.state, y.asleep[t])
  {
    AllMovesKeep(nq, ni, ms);
  }

  lemma {:induction false} AllMovesKeep(nq: nat, ni: nat, ms: seq<Move>)
    requires Moves(System(Start(nq, ni), map[]), ms)
    ensures var y := After(System(Start(nq, ni), map[]), ms); Inv(y.state) && NobodyForgotten(y)
    decreases |ms|
  {
    hide Inv, Next, Possible, MustWait;
    if ms == [] {
      assert Inv(Start(nq, ni)) by { StartKeeps(nq, ni); }
    } else {
      AllMovesKeep(nq, ni, ms[..|ms| - 1]);
      NextKeeps(After(System(Start(nq, ni), map[]), ms[..|ms| - 1]), ms[|ms| - 1]);
    }
  }

  lemma StartKeeps(nq: nat, ni: nat)
    ensures Inv(Start(nq, ni))
  {
    Reachable(nq, ni, []);
  }
}
