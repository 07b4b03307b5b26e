/**
 Any number of workqueues, each with its one worker thread, and any number of work items.
 All of this state is guarded by one lock, so every lock section is one step.  `log` is a
 ghost record with one ticket per accepted submission, with or without a delay, and `clock`
 counts the entries ever made to a list; they decide nothing.
 */
module Workqueue {
  import opened Wrappers

  datatype Worker = Looking | Busy(item: nat, ticket: nat) | Ended

  /** `destroyers` counts the threads inside `destroy_workqueue`; `freed`: one of them has freed the record. */
  datatype Queue = Queue(list: seq<nat>, running: bool, done: bool, active: nat, worker: Worker, destroyers: nat, freed: bool)

  /**
   `pending`: 0 none, 1 on the list of `wq`, 2 waiting for its timer.  `atTimer` and `atWait`
   count the sync cancellers of the item before and in their wait loop.
   */
  datatype Work = Work(pending: nat, wq: Option<nat>, executing: bool, canceling: bool, atTimer: nat, atWait: nat,
                       ticket: nat, place: nat)

  /** `Dropped`: the timer of a delayed submission met a stopped queue. */
  datatype Fate = Waiting | Queued | Started | Ran | Cancelled | Dropped

  /** `place` is the time at which the submission was put on its list. */
  datatype Ticket = Ticket(q: nat, item: nat, delayed: bool, fate: Fate, place: nat)

  datatype State = State(qs: seq<Queue>, items: seq<Work>, log: seq<Ticket>, clock: nat)

  datatype Event =
    | QueueWork(q: nat, i: nat)
    | QueueDelayed(q: nat, i: nat, armed: bool)
    | TimerFn(i: nat)
    | Take(q: nat)
    | Finish(q: nat)
    | End(q: nat)
    | Stop(q: nat)
    | Free(q: nat)
    | FlushTest(q: nat)
    | CancelWorkSync(i: nat)
    | CancelDelayedSync(i: nat)
    | TimerGone(i: nat)
    | CancelReturns(i: nat)
    | CancelDelayed(i: nat)

  ghost predicate CanHappen(s: State, e: Event) {
    match e
    case QueueWork(q, i) => q < |s.qs| && i < |s.items|
    case QueueDelayed(q, i, _) => q < |s.qs| && i < |s.items|
    case TimerFn(i) => i < |s.items|
    case Take(q) => q < |s.qs| && s.qs[q].worker.Looking? && s.qs[q].list != [] && s.qs[q].list[0] < |s.items|
    case Finish(q) => q < |s.qs| && s.qs[q].worker.Busy? && s.qs[q].worker.item < |s.items| && s.qs[q].worker.ticket < |s.log| && s.qs[q].active > 0
    case End(q) => q < |s.qs| && s.qs[q].worker.Looking? && !s.qs[q].running && s.qs[q].list == []
    case Stop(q) => q < |s.qs|
    case Free(q) => q < |s.qs| && s.qs[q].destroyers > 0 && s.qs[q].done
    case FlushTest(q) => q < |s.qs|
    case CancelWorkSync(i) => i < |s.items|
    case CancelDelayedSync(i) => i < |s.items|
    case TimerGone(i) => i < |s.items| && s.items[i].atTimer > 0
    case CancelReturns(i) => i < |s.items| && s.items[i].atWait > 0 && !s.items[i].executing
    case CancelDelayed(i) => i < |s.items|
  }

  ghost predicate Freed(s: State, q: nat) { q < |s.qs| && s.qs[q].freed }

  ghost predicate OnFreed(s: State, i: nat, pending: nat) {
    && i < |s.items| && s.items[i].pending == pending
    && s.items[i].wq.Some? && Freed(s, s.items[i].wq.value)
  }

  /** The section reads or writes the record of a queue that has been freed, its list head included. */
  ghost predicate TouchesFreed(s: State, e: Event) {
    match e
    case QueueWork(q, _) => Freed(s, q)
    case QueueDelayed(q, _, _) => Freed(s, q)
    case TimerFn(i) => OnFreed(s, i, 2)
    case Take(q) => Freed(s, q)
    case Finish(q) => Freed(s, q)
    case End(q) => Freed(s, q)
    case Stop(q) => Freed(s, q)
    case Free(q) => Freed(s, q)
    case FlushTest(q) => Freed(s, q)
    case CancelWorkSync(i) => OnFreed(s, i, 1)
    case CancelDelayedSync(i) => OnFreed(s, i, 1)
    case CancelDelayed(i) => OnFreed(s, i, 1)
    case TimerGone(_) => false
    case CancelReturns(_) => false
  }

  /** What a section does is defined only if it touches no freed queue. */
  ghost predicate Enabled(s: State, e: Event) { CanHappen(s, e) && !TouchesFreed(s, e) }

  // ---------- the lock sections ----------

  predicate Accepts(qs: Queue, q: nat, w: Work) {
    qs.running && w.pending == 0 && !w.canceling && !(w.executing && w.wq != Some(q))
  }

  function IndexOf(list: seq<nat>, i: nat): (k: nat)
    requires i in list
    ensures k < |list| && list[k] == i
  {
    if list[0] == i then 0 else 1 + IndexOf(list[1..], i)
  }

  /** `list_del_init` of the item's entry. */
  function Remove(list: seq<nat>, i: nat): seq<nat> {
    if i in list then list[..IndexOf(list, i)] + list[IndexOf(list, i) + 1..] else list
  }

  function Mark(log: seq<Ticket>, k: nat, f: Fate): (r: seq<Ticket>)
    ensures |r| == |log|
  {
    if k < |log| then log[k := log[k].(fate := f)] else log
  }

  /** The ticket of an entry: a new one, or the one that a delayed submission already holds. */
  function Enter(log: seq<Ticket>, q: nat, i: nat, held: Option<nat>, clock: nat): seq<Ticket> {
    if held.None? then log + [Ticket(q, i, false, Queued, clock)]
    else if held.value < |log| then log[held.value := log[held.value].(fate := Queued, place := clock)]
    else log
  }

  /** `queue_work_locked`. */
  ghost function QueueLocked(s: State, q: nat, i: nat, held: Option<nat>): State
    requires q < |s.qs| && i < |s.items|
  {
    var w := s.items[i];
    if !Accepts(s.qs[q], q, w) then s
    else
      var k := if held.Some? then held.value else |s.log|;
      State(s.qs[q := s.qs[q].(list := s.qs[q].list + [i])],
            s.items[i := w.(wq := Some(q), pending := 1, ticket := k, place := s.clock)],
            Enter(s.log, q, i, held, s.clock),
            s.clock + 1)
  }

  /** `remove_pending_work`. */
  ghost function RemovePending(s: State, i: nat): (r: State)
    requires i < |s.items|
    ensures |r.items| == |s.items|
  {
    var w := s.items[i];
    s.(qs := if w.pending == 1 && w.wq.Some? && w.wq.value < |s.qs|
               then s.qs[w.wq.value := s.qs[w.wq.value].(list := Remove(s.qs[w.wq.value].list, i))]
               else s.qs,
       items := s.items[i := w.(pending := 0)],
       log := if w.pending != 0 then Mark(s.log, w.ticket, Cancelled) else s.log)
  }

  ghost function SetItem(s: State, i: nat, w: Work): (r: State)
    requires i < |s.items|
    ensures |r.items| == |s.items|
  {
    s.(items := s.items[i := w])
  }

  /** `queue_delayed_work` with a delay. */
  ghost function QueueLater(s: State, q: nat, i: nat, armed: bool): State
    requires q < |s.qs| && i < |s.items|
  {
    var w := s.items[i];
    if !Accepts(s.qs[q], q, w) then s
    else if !armed then SetItem(s, i, w.(wq := Some(q), pending := 0))
    else SetItem(s, i, w.(wq := Some(q), pending := 2, ticket := |s.log|)).(
           log := s.log + [Ticket(q, i, true, Waiting, 0)])
  }

  /** `rtw88_delayed_work_timer_fn`. */
  ghost function TimerFires(s: State, i: nat): State
    requires i < |s.items|
  {
    var w := s.items[i];
    if w.pending != 2 || w.wq.None? || w.wq.value >= |s.qs| then s
    else
      var n := SetItem(s, i, w.(pending := 0));
      if Accepts(n.qs[w.wq.value], w.wq.value, n.items[i]) then QueueLocked(n, w.wq.value, i, Some(w.ticket))
      else n.(log := Mark(s.log, w.ticket, Dropped))
  }

  /** A sync canceller up to its wait; `delayed` ones still have to delete the timer. */
  ghost function BeginCancel(s: State, i: nat, delayed: bool): State
    requires i < |s.items|
  {
    var r := RemovePending(s, i);
    var w := r.items[i];
    SetItem(r, i, if delayed then w.(canceling := true, atTimer := w.atTimer + 1)
                  else w.(canceling := true, atWait := w.atWait + 1))
  }

  ghost function Step(s: State, e: Event): State
    requires Enabled(s, e)
  {
    match e
    case QueueWork(q, i) => QueueLocked(s, q, i, None)
    case QueueDelayed(q, i, armed) => QueueLater(s, q, i, armed)
    case TimerFn(i) => TimerFires(s, i)
    case Take(q) =>
      var i := s.qs[q].list[0];
      var w := s.items[i];
      s.(qs := s.qs[q := s.qs[q].(list := s.qs[q].list[1..], active := s.qs[q].active + 1, worker := Busy(i, w.ticket))],
         items := s.items[i := w.(pending := 0, executing := true)],
         log := Mark(s.log, w.ticket, Started))
    case Finish(q) =>
      var i, k := s.qs[q].worker.item, s.qs[q].worker.ticket;
      s.(qs := s.qs[q := s.qs[q].(active := s.qs[q].active - 1, worker := Looking)],
         items := s.items[i := s.items[i].(executing := false)],
         log := Mark(s.log, k, Ran))
    case End(q) => s.(qs := s.qs[q := s.qs[q].(done := true, worker := Ended)])
    case Stop(q) => s.(qs := s.qs[q := s.qs[q].(running := false, destroyers := s.qs[q].destroyers + 1)])
    case Free(q) => s.(qs := s.qs[q := s.qs[q].(destroyers := s.qs[q].destroyers - 1, freed := true)])
    case FlushTest(q) => s
    case CancelWorkSync(i) => BeginCancel(s, i, false)
    case CancelDelayedSync(i) => BeginCancel(s, i, true)
    case TimerGone(i) =>
      var w := s.items[i];
      SetItem(s, i, w.(atTimer := w.atTimer - 1, atWait := w.atWait + 1))
    case CancelReturns(i) =>
      var w := s.items[i];
      SetItem(s, i, w.(atWait := w.atWait - 1, canceling := false))
    case CancelDelayed(i) => RemovePending(s, i)
  }

  // ---------- the invariant ----------

  ghost predicate Holds(s: State, k: nat, q: nat, i: nat, f: Fate) {
    k < |s.log| && s.log[k].q == q && s.log[k].item == i && s.log[k].fate == f
  }

  /** Every listed item is pending on this queue, in the order of the entries. */
  ghost predicate QueueOk(s: State, q: nat)
    requires q < |s.qs|
  {
    var u := s.qs[q];
    && (forall a :: 0 <= a < |u.list| ==> u.list[a] < |s.items| && s.items[u.list[a]].pending == 1 && s.items[u.list[a]].wq == Some(q))
    && (forall a, b :: 0 <= a < b < |u.list| ==> s.items[u.list[a]].place < s.items[u.list[b]].place)
    && u.active == (if u.worker.Busy? then 1 else 0)
    && (u.worker.Ended? <==> u.done)
    && (u.done ==> !u.running && u.list == [])
    && (u.freed ==> u.done)
    && (u.worker.Busy? ==>
          && u.worker.item < |s.items| && s.items[u.worker.item].executing && s.items[u.worker.item].wq == Some(q)
          && Holds(s, u.worker.ticket, q, u.worker.item, Started))
  }

  ghost predicate ItemOk(s: State, i: nat)
    requires i < |s.items|
  {
    var w := s.items[i];
    && w.pending <= 2
    && (w.pending == 1 ==>
          && w.wq.Some? && w.wq.value < |s.qs| && i in s.qs[w.wq.value].list
          && Holds(s, w.ticket, w.wq.value, i, Queued)
          && w.place < s.clock && s.log[w.ticket].place == w.place)
    && (w.pending == 2 ==> w.wq.Some? && w.wq.value < |s.qs| && Holds(s, w.ticket, w.wq.value, i, Waiting))
    && (w.executing ==> w.wq.Some? && w.wq.value < |s.qs| && s.qs[w.wq.value].worker.Busy? && s.qs[w.wq.value].worker.item == i)
    && (w.canceling ==> w.pending == 0 && w.atTimer + w.atWait > 0)
  }

  ghost predicate TicketOk(s: State, k: nat)
    requires k < |s.log|
  {
    var t := s.log[k];
    && t.q < |s.qs| && t.item < |s.items|
    && (t.fate == Queued ==> s.items[t.item].pending == 1 && s.items[t.item].ticket == k && s.items[t.item].wq == Some(t.q))
    && (t.fate == Started ==> s.qs[t.q].worker == Busy(t.item, k))
    && (t.fate == Waiting ==> t.delayed && s.items[t.item].pending == 2 && s.items[t.item].ticket == k && s.items[t.item].wq == Some(t.q))
    && (t.fate == Dropped ==> t.delayed && !s.qs[t.q].running)
  }

  ghost predicate Inv(s: State) {
    && (forall q :: 0 <= q < |s.qs| ==> QueueOk(s, q))
    && (forall i :: 0 <= i < |s.items| ==> ItemOk(s, i))
    && (forall k :: 0 <= k < |s.log| ==> TicketOk(s, k))
  }

  // ---------- an entry to a list ----------

  /** Item `i` becomes the last entry of queue `q`, under ticket `k`, which is new or was waiting. */
  ghost predicate Entered(s: State, s': State, q: nat, i: nat, k: nat) {
    && q < |s.qs| && i < |s.items| && k <= |s.log|
    && s.qs[q].running && s.items[i].pending != 1 && !s.items[i].canceling
    && (s.items[i].executing ==> s.items[i].wq == Some(q))
    && (s.items[i].pending == 2 ==> k < |s.log|)
    && (k < |s.log| ==> s.items[i].pending == 2 && s.items[i].ticket == k && s.items[i].wq == Some(q))
    && s'.qs == s.qs[q := s.qs[q].(list := s.qs[q].list + [i])]
    && s'.items == s.items[i := s.items[i].(wq := Some(q), pending := 1, ticket := k, place := s.clock)]
    && s'.clock == s.clock + 1
    && |s'.log| == (if k < |s.log| then |s.log| else k + 1)
    && Holds(s', k, q, i, Queued) && s'.log[k].place == s.clock
    && (forall m :: 0 <= m < |s.log| && m != k ==> s'.log[m] == s.log[m])
  }

  lemma EnteredQueue(s: State, s': State, q: nat, i: nat, k: nat, p: nat)
    requires Entered(s, s', q, i, k) && p < |s.qs| && QueueOk(s, p)
    requires forall a :: 0 <= a < |s.qs[p].list| ==> s.qs[p].list[a] < |s.items| && ItemOk(s, s.qs[p].list[a])
    requires k < |s.log| ==> s.log[k].fate == Waiting
    ensures QueueOk(s', p)
  {
    forall a | 0 <= a < |s.qs[p].list| ensures s.qs[p].list[a] != i && s.items[s.qs[p].list[a]].place < s.clock {
      assert ItemOk(s, s.qs[p].list[a]);
    }
    hide ItemOk;
  }

  lemma EnteredItem(s: State, s': State, q: nat, i: nat, k: nat, j: nat)
    requires Entered(s, s', q, i, k) && j < |s.items| && ItemOk(s, j)
    requires k < |s.log| ==> s.log[k].fate == Waiting && s.log[k].item == i
    ensures ItemOk(s', j)
  {
  }

  lemma EnteredTicket(s: State, s': State, q: nat, i: nat, k: nat, m: nat)
    requires Entered(s, s', q, i, k) && m < |s'.log| && (m < |s.log| ==> TicketOk(s, m))
    ensures TicketOk(s', m)
  {
  }

  lemma EnteredKeeps(s: State, s': State, q: nat, i: nat, k: nat)
    requires Inv(s) && Entered(s, s', q, i, k)
    ensures Inv(s')
  {
    assert k < |s.log| ==> s.log[k].fate == Waiting && s.log[k].item == i by { assert ItemOk(s, i); }
    forall p | 0 <= p < |s.qs|
      ensures forall a :: 0 <= a < |s.qs[p].list| ==> s.qs[p].list[a] < |s.items|
    {
      assert QueueOk(s, p);
    }
    hide QueueOk, ItemOk, TicketOk;
    forall p | 0 <= p < |s'.qs| ensures QueueOk(s', p) {
      EnteredQueue(s, s', q, i, k, p);
    }
    forall j | 0 <= j < |s'.items| ensures ItemOk(s', j) {
      EnteredItem(s, s', q, i, k, j);
    }
    forall m | 0 <= m < |s'.log| ensures TicketOk(s', m) {
      EnteredTicket(s, s', q, i, k, m);
    }
  }

  lemma QueueKeeps(s: State, q: nat, i: nat)
    requires Inv(s) && q < |s.qs| && i < |s.items|
    ensures Inv(QueueLocked(s, q, i, None))
  {
    hide Inv;
    if Accepts(s.qs[q], q, s.items[i]) {
      EnteredKeeps(s, QueueLocked(s, q, i, None), q, i, |s.log|);
    }
  }

  // ---------- an item that waits for its timer, or no longer ----------

  /** Item `i` is off the lists before and after, and only its own ticket changes. */
  ghost predicate OffList(s: State, s': State, i: nat, k: nat) {
    && i < |s.items| && s'.qs == s.qs && s'.clock == s.clock
    && |s'.items| == |s.items| && s'.items == s.items[i := s'.items[i]]
    && s.items[i].pending != 1 && s'.items[i].pending != 1
    && s'.items[i].executing == s.items[i].executing
    && (s.items[i].executing ==> s'.items[i].wq == s.items[i].wq)
    && |s.log| <= |s'.log| <= |s.log| + 1
    && (|s.log| < |s'.log| ==> k == |s.log|)
    && (forall m :: 0 <= m < |s.log| && m != k ==> s'.log[m] == s.log[m])
    && (k < |s.log| && s'.log[k] != s.log[k] ==> s.items[i].pending == 2 && s.items[i].ticket == k)
    && (s.items[i].pending == 2 && s'.items[i] != s.items[i] ==>
          && s.items[i].ticket == k < |s'.log| && s'.items[i].pending == 0
          && s'.log[k].fate != Waiting && s'.log[k].fate != Queued && s'.log[k].fate != Started)
  }

  lemma OffListQueue(s: State, s': State, i: nat, k: nat, p: nat)
    requires OffList(s, s', i, k) && p < |s.qs| && QueueOk(s, p) && ItemOk(s, i)
    ensures QueueOk(s', p)
  {
    assert forall a :: 0 <= a < |s.qs[p].list| ==> s.qs[p].list[a] != i;
  }

  lemma OffListItem(s: State, s': State, i: nat, k: nat, j: nat)
    requires OffList(s, s', i, k) && j < |s.items| && ItemOk(s, j) && ItemOk(s, i)
    requires j == i ==> ItemOk(s', i)
    ensures ItemOk(s', j)
  {
  }

  lemma OffListTicket(s: State, s': State, i: nat, k: nat, m: nat)
    requires OffList(s, s', i, k) && m < |s'.log| && (m < |s.log| ==> TicketOk(s, m)) && ItemOk(s, i)
    requires m == k ==> TicketOk(s', k)
    ensures TicketOk(s', m)
  {
  }

  lemma OffListKeeps(s: State, s': State, i: nat, k: nat)
    requires Inv(s) && OffList(s, s', i, k)
    requires ItemOk(s', i) && (k < |s'.log| ==> TicketOk(s', k))
    ensures Inv(s')
  {
    hide QueueOk, ItemOk, TicketOk;
    forall p | 0 <= p < |s'.qs| ensures QueueOk(s', p) {
      OffListQueue(s, s', i, k, p);
    }
    forall j | 0 <= j < |s'.items| ensures ItemOk(s', j) {
      OffListItem(s, s', i, k, j);
    }
    forall m | 0 <= m < |s'.log| ensures TicketOk(s', m) {
      OffListTicket(s, s', i, k, m);
    }
  }

  lemma LaterKeeps(s: State, q: nat, i: nat, armed: bool)
    requires Inv(s) && q < |s.qs| && i < |s.items|
    ensures Inv(QueueLater(s, q, i, armed))
  {
    var s' := QueueLater(s, q, i, armed);
    assert ItemOk(s, i);
    if Accepts(s.qs[q], q, s.items[i]) {
      assert ItemOk(s', i);
      if armed {
        assert TicketOk(s', |s.log|);
      }
      hide Inv, ItemOk, TicketOk, QueueOk;
      OffListKeeps(s, s', i, |s.log|);
    }
  }

  lemma TimerKeeps(s: State, i: nat)
    requires Inv(s) && i < |s.items|
    ensures Inv(TimerFires(s, i))
  {
    assert ItemOk(s, i);
    var w, s' := s.items[i], TimerFires(s, i);
    if w.pending == 2 {
      var n := SetItem(s, i, w.(pending := 0));
      if Accepts(n.qs[w.wq.value], w.wq.value, n.items[i]) {
        assert n.items[i := s'.items[i]] == s.items[i := s'.items[i]];
        assert Entered(s, s', w.wq.value, i, w.ticket);
        hide Inv;
        EnteredKeeps(s, s', w.wq.value, i, w.ticket);
      } else {
        assert TicketOk(s, w.ticket);
        assert ItemOk(s', i) && TicketOk(s', w.ticket);
        assert OffList(s, s', i, w.ticket);
        hide Inv;
        OffListKeeps(s, s', i, w.ticket);
      }
    }
  }

  // ---------- removal ----------

  function Shift(k: nat, a: nat): nat { if a < k then a else a + 1 }

  lemma RemoveShift(l: seq<nat>, i: nat)
    requires i in l
    ensures |Remove(l, i)| == |l| - 1
    ensures forall a :: 0 <= a < |l| - 1 ==> Remove(l, i)[a] == l[Shift(IndexOf(l, i), a)]
  {
    hide IndexOf;
  }

  lemma RemoveMembers(l: seq<nat>, i: nat)
    requires i in l
    requires forall a, b :: 0 <= a < b < |l| ==> l[a] != l[b]
    ensures i !in Remove(l, i)
    ensures forall x :: x in l && x != i ==> x in Remove(l, i)
  {
    hide Remove, IndexOf;
    RemoveShift(l, i);
    var r, k := Remove(l, i), IndexOf(l, i);
    forall x | x in l && x != i ensures x in r {
      var a :| 0 <= a < |l| && l[a] == x;
      assert r[if a < k then a else a - 1] == x;
    }
  }

  /** Taking one entry out keeps the order of the others. */
  lemma RemoveKeepsOrder(s: State, q: nat, i: nat)
    requires q < |s.qs| && QueueOk(s, q) && i in s.qs[q].list
    ensures var r := Remove(s.qs[q].list, i);
      && i !in r
      && (forall x :: x in s.qs[q].list && x != i ==> x in r)
      && (forall a :: 0 <= a < |r| ==> r[a] in s.qs[q].list && r[a] != i)
      && (forall a, b :: 0 <= a < b < |r| ==> r[a] < |s.items| && r[b] < |s.items| && s.items[r[a]].place < s.items[r[b]].place)
  {
    hide Remove, IndexOf;
    var l := s.qs[q].list;
    assert forall a, b :: 0 <= a < b < |l| ==> l[a] != l[b];
    RemoveShift(l, i);
    RemoveMembers(l, i);
  }

  lemma RemovedOwnQueue(s: State, i: nat)
    requires i < |s.items| && ItemOk(s, i) && s.items[i].pending == 1
    requires QueueOk(s, s.items[i].wq.value)
    ensures QueueOk(RemovePending(s, i), s.items[i].wq.value)
  {
    hide Remove;
    RemoveKeepsOrder(s, s.items[i].wq.value, i);
  }

  lemma RemovedQueue(s: State, i: nat, p: nat)
    requires i < |s.items| && ItemOk(s, i) && s.items[i].pending == 1
    requires p < |s.qs| && QueueOk(s, p) && QueueOk(s, s.items[i].wq.value)
    ensures p < |RemovePending(s, i).qs| && QueueOk(RemovePending(s, i), p)
  {
    hide Remove;
    if p == s.items[i].wq.value {
      RemovedOwnQueue(s, i);
    } else {
      assert i !in s.qs[p].list;
    }
  }

  lemma RemovedItem(s: State, i: nat, j: nat)
    requires i < |s.items| && ItemOk(s, i) && s.items[i].pending == 1
    requires j < |s.items| && ItemOk(s, j) && QueueOk(s, s.items[i].wq.value)
    ensures ItemOk(RemovePending(s, i), j)
  {
    hide Remove;
    RemoveKeepsOrder(s, s.items[i].wq.value, i);
    hide QueueOk;
  }

  lemma RemovedTicket(s: State, i: nat, m: nat)
    requires i < |s.items| && ItemOk(s, i) && s.items[i].pending == 1
    requires m < |s.log| && TicketOk(s, m)
    ensures TicketOk(RemovePending(s, i), m)
  {
    hide Remove;
  }

  lemma RemoveKeeps(s: State, i: nat)
    requires Inv(s) && i < |s.items|
    ensures Inv(RemovePending(s, i)) && RemovePending(s, i).items[i].pending == 0
  {
    hide Remove;
    var w, s' := s.items[i], RemovePending(s, i);
    assert ItemOk(s, i);
    if w.pending == 1 {
      assert QueueOk(s, w.wq.value);
      hide QueueOk, ItemOk, TicketOk;
      forall p | 0 <= p < |s'.qs| ensures QueueOk(s', p) {
        RemovedQueue(s, i, p);
      }
      forall j | 0 <= j < |s'.items| ensures ItemOk(s', j) {
        RemovedItem(s, i, j);
      }
      forall m | 0 <= m < |s'.log| ensures TicketOk(s', m) {
        RemovedTicket(s, i, m);
      }
    } else {
      assert w.pending == 2 ==> TicketOk(s, w.ticket);
      assert ItemOk(s', i);
      if w.pending == 2 {
        assert TicketOk(s', w.ticket);
        hide Inv;
        OffListKeeps(s, s', i, w.ticket);
      } else {
        assert s' == s;
      }
    }
  }

  // ---------- the other steps ----------

  /** The marks of the cancellers concern nobody but the item. */
  lemma MarksKeep(s: State, i: nat, w: Work)
    requires Inv(s) && i < |s.items|
    requires w == s.items[i].(canceling := w.canceling, atTimer := w.atTimer, atWait := w.atWait)
    requires w.canceling ==> w.pending == 0 && w.atTimer + w.atWait > 0
    ensures Inv(SetItem(s, i, w))
  {
    var s' := SetItem(s, i, w);
    forall p | 0 <= p < |s'.qs| ensures QueueOk(s', p) {
      assert QueueOk(s, p);
    }
    forall j | 0 <= j < |s'.items| ensures ItemOk(s', j) {
      assert ItemOk(s, j);
    }
    forall m | 0 <= m < |s'.log| ensures TicketOk(s', m) {
      assert TicketOk(s, m);
    }
  }

  lemma CancelKeeps(s: State, i: nat, delayed: bool)
    requires Inv(s) && i < |s.items|
    ensures Inv(BeginCancel(s, i, delayed)) && BeginCancel(s, i, delayed).items[i].pending == 0
  {
    hide Inv, RemovePending;
    RemoveKeeps(s, i);
    MarksKeep(RemovePending(s, i), i, BeginCancel(s, i, delayed).items[i]);
  }

  lemma TakenOwnQueue(s: State, q: nat)
    requires Enabled(s, Take(q)) && QueueOk(s, q) && ItemOk(s, s.qs[q].list[0])
    ensures QueueOk(Step(s, Take(q)), q)
  {
    var s' := Step(s, Take(q));
    assert forall a :: 0 <= a < |s'.qs[q].list| ==> s'.qs[q].list[a] == s.qs[q].list[a + 1];
  }

  lemma TakenQueue(s: State, q: nat, p: nat)
    requires Enabled(s, Take(q)) && QueueOk(s, q) && ItemOk(s, s.qs[q].list[0])
    requires p < |s.qs| && QueueOk(s, p)
    ensures QueueOk(Step(s, Take(q)), p)
  {
    if p == q {
      TakenOwnQueue(s, q);
    } else {
      assert forall a :: 0 <= a < |s.qs[p].list| ==> s.qs[p].list[a] != s.qs[q].list[0];
    }
  }

  lemma TakenItem(s: State, q: nat, j: nat)
    requires Enabled(s, Take(q)) && QueueOk(s, q) && ItemOk(s, s.qs[q].list[0])
    requires j < |s.items| && ItemOk(s, j)
    ensures ItemOk(Step(s, Take(q)), j)
  {
  }

  lemma TakenTicket(s: State, q: nat, m: nat)
    requires Enabled(s, Take(q)) && QueueOk(s, q) && ItemOk(s, s.qs[q].list[0])
    requires m < |s.log| && TicketOk(s, m)
    ensures TicketOk(Step(s, Take(q)), m)
  {
  }

  lemma TakeKeeps(s: State, q: nat)
    requires Inv(s) && Enabled(s, Take(q))
    ensures Inv(Step(s, Take(q)))
  {
    var s' := Step(s, Take(q));
    hide QueueOk, ItemOk, TicketOk;
    forall p | 0 <= p < |s'.qs| ensures QueueOk(s', p) {
      TakenQueue(s, q, p);
    }
    forall j | 0 <= j < |s'.items| ensures ItemOk(s', j) {
      TakenItem(s, q, j);
    }
    forall m | 0 <= m < |s'.log| ensures TicketOk(s', m) {
      TakenTicket(s, q, m);
    }
  }

  lemma FinishedQueue(s: State, q: nat, p: nat)
    requires Enabled(s, Finish(q)) && QueueOk(s, q)
    requires p < |s.qs| && QueueOk(s, p)
    ensures QueueOk(Step(s, Finish(q)), p)
  {
  }

  lemma FinishedItem(s: State, q: nat, j: nat)
    requires Enabled(s, Finish(q)) && QueueOk(s, q)
    requires j < |s.items| && ItemOk(s, j)
    ensures ItemOk(Step(s, Finish(q)), j)
  {
  }

  lemma FinishedTicket(s: State, q: nat, m: nat)
    requires Enabled(s, Finish(q)) && QueueOk(s, q)
    requires m < |s.log| && TicketOk(s, m)
    ensures TicketOk(Step(s, Finish(q)), m)
  {
  }

  lemma FinishKeeps(s: State, q: nat)
    requires Inv(s) && Enabled(s, Finish(q))
    ensures Inv(Step(s, Finish(q)))
  {
    var s' := Step(s, Finish(q));
    hide QueueOk, ItemOk, TicketOk;
    forall p | 0 <= p < |s'.qs| ensures QueueOk(s', p) {
      FinishedQueue(s, q, p);
    }
    forall j | 0 <= j < |s'.items| ensures ItemOk(s', j) {
      FinishedItem(s, q, j);
    }
    forall m | 0 <= m < |s'.log| ensures TicketOk(s', m) {
      FinishedTicket(s, q, m);
    }
  }

  lemma StopKeeps(s: State, e: Event)
    requires Inv(s) && Enabled(s, e) && (e.Stop? || e.End? || e.Free?)
    ensures Inv(Step(s, e))
  {
    var s' := Step(s, e);
    forall p | 0 <= p < |s'.qs| ensures QueueOk(s', p) {
      assert QueueOk(s, p);
    }
    forall j | 0 <= j < |s'.items| ensures ItemOk(s', j) {
      assert ItemOk(s, j);
    }
    forall m | 0 <= m < |s'.log| ensures TicketOk(s', m) {
      assert TicketOk(s, m);
    }
  }

  lemma StepKeeps(s: State, e: Event)
    requires Inv(s) && Enabled(s, e)
    ensures Inv(Step(s, e))
  {
    if e.TimerGone? || e.CancelReturns? {
      assert ItemOk(s, e.i);
    }
    hide Inv, QueueOk, ItemOk, TicketOk, QueueLocked, RemovePending, QueueLater, TimerFires, BeginCancel, SetItem;
    match e
    case QueueWork(q, i) => QueueKeeps(s, q, i);
    case QueueDelayed(q, i, armed) => LaterKeeps(s, q, i, armed);
    case TimerFn(i) => TimerKeeps(s, i);
    case Take(q) => TakeKeeps(s, q);
    case Finish(q) => FinishKeeps(s, q);
    case End(q) => StopKeeps(s, e);
    case Stop(q) => StopKeeps(s, e);
    case Free(q) => StopKeeps(s, e);
    case FlushTest(q) =>
    case CancelWorkSync(i) => CancelKeeps(s, i, false);
    case CancelDelayedSync(i) => CancelKeeps(s, i, true);
    case TimerGone(i) => MarksKeep(s, i, s.items[i].(atTimer := s.items[i].atTimer - 1, atWait := s.items[i].atWait + 1));
    case CancelReturns(i) => MarksKeep(s, i, s.items[i].(atWait := s.items[i].atWait - 1, canceling := false));
    case CancelDelayed(i) => RemoveKeeps(s, i);
  }

  // ---------- runs ----------

  function Start(nq: nat, ni: nat): State {
    State(seq(nq, _ => Queue([], true, false, 0, Looking, 0, false)), seq(ni, _ => Work(0, None, false, false, 0, 0, 0, 0)), [], 0)
  }

  /** One queue and one item. */
  const ONE_ITEM := Start(1, 1)

  /** Every section of the run can happen and touches no freed queue. */
  ghost predicate Runs(s: State, es: seq<Event>)
    decreases |es|
  {
    es == [] || (Runs(s, es[..|es| - 1]) && Enabled(Run(s, es[..|es| - 1]), es[|es| - 1]))
  }

  ghost function Run(s: State, es: seq<Event>): State
    decreases |es|
  {
    if es == [] then s
    else
      var p := Run(s, es[..|es| - 1]);
      if Enabled(p, es[|es| - 1]) then Step(p, es[|es| - 1]) else p
  }

  lemma {:induction false} RunKeeps(s: State, es: seq<Event>)
    requires Inv(s) && Runs(s, es)
    ensures Inv(Run(s, es))
    decreases |es|
  {
    hide Inv, Step, Enabled;
    if es != [] {
      RunKeeps(s, es[..|es| - 1]);
      StepKeeps(Run(s, es[..|es| - 1]), es[|es| - 1]);
    }
  }

  lemma Reachable(nq: nat, ni: nat, es: seq<Event>)
    requires Runs(Start(nq, ni), es)
    ensures Inv(Run(Start(nq, ni), es))
  {
    RunKeeps(Start(nq, ni), es);
  }

  lemma Then(s: State, es: seq<Event>, e: Event) returns (fs: seq<Event>)
    requires Runs(s, es) && Enabled(Run(s, es), e)
    ensures fs == es + [e] && Runs(s, fs) && Run(s, fs) == Step(Run(s, es), e)
  {
    fs := es + [e];
    assert fs[..|fs| - 1] == es;
  }

  // ---------- what every reachable state satisfies ----------

  /** No item's function ever runs twice at once, whichever queues it is submitted to. */
  lemma NeverTwiceAtOnce(nq: nat, ni: nat, es: seq<Event>, p: nat, q: nat)
    requires Runs(Start(nq, ni), es)
    requires var s := Run(Start(nq, ni), es);
      && p < |s.qs| && q < |s.qs|
      && s.qs[p].worker.Busy? && s.qs[q].worker.Busy?
      && s.qs[p].worker.item == s.qs[q].worker.item
    ensures p == q
    ensures Run(Start(nq, ni), es).qs[p].active == 1
  {
    Reachable(nq, ni, es);
    var s := Run(Start(nq, ni), es);
    assert QueueOk(s, p) && QueueOk(s, q);
  }

  lemma ListedIffPending(s: State, i: nat)
    requires Inv(s) && i < |s.items|
    ensures s.items[i].pending == 1 <==> exists q :: 0 <= q < |s.qs| && i in s.qs[q].list
    ensures forall q :: 0 <= q < |s.qs| && i in s.qs[q].list ==> s.items[i].wq == Some(q)
  {
    hide Remove, Step, TicketOk, Holds;
    assert ItemOk(s, i);
    if s.items[i].pending == 1 {
      assert i in s.qs[s.items[i].wq.value].list;
    }
    forall q | 0 <= q < |s.qs| && i in s.qs[q].list
      ensures s.items[i].pending == 1 && s.items[i].wq == Some(q)
    {
      assert QueueOk(s, q);
    }
  }

  lemma ListedOnce(s: State, q: nat)
    requires Inv(s) && q < |s.qs|
    ensures forall a, b :: 0 <= a < b < |s.qs[q].list| ==> s.qs[q].list[a] != s.qs[q].list[b]
  {
    assert QueueOk(s, q);
  }

  lemma ExecutingIffBusy(s: State, i: nat)
    requires Inv(s) && i < |s.items|
    ensures s.items[i].executing <==> exists q :: 0 <= q < |s.qs| && s.qs[q].worker.Busy? && s.qs[q].worker.item == i
    ensures forall q :: 0 <= q < |s.qs| && s.qs[q].worker.Busy? && s.qs[q].worker.item == i ==> s.items[i].wq == Some(q)
  {
    hide Remove, Step, TicketOk, Holds;
    assert ItemOk(s, i);
    if s.items[i].executing {
      assert s.qs[s.items[i].wq.value].worker.Busy?;
    }
    forall q | 0 <= q < |s.qs| && s.qs[q].worker.Busy? && s.qs[q].worker.item == i
      ensures s.items[i].executing && s.items[i].wq == Some(q)
    {
      assert QueueOk(s, q);
    }
  }

  /**
   `pending` is 1 exactly for the items on a list, and then on one list, once: that of `wq`.
   `executing` holds exactly for the item that a worker is running, and that is the worker of `wq`.
   */
  lemma PendingMeansListedOnce(nq: nat, ni: nat, es: seq<Event>, i: nat)
    requires Runs(Start(nq, ni), es) && i < |Run(Start(nq, ni), es).items|
    ensures var s := Run(Start(nq, ni), es);
      && (s.items[i].pending == 1 <==> exists q :: 0 <= q < |s.qs| && i in s.qs[q].list)
      && (forall q :: 0 <= q < |s.qs| && i in s.qs[q].list ==> s.items[i].wq == Some(q))
      && (forall q, a, b :: 0 <= q < |s.qs| && 0 <= a < b < |s.qs[q].list| ==> s.qs[q].list[a] != s.qs[q].list[b])
      && (s.items[i].executing <==> exists q :: 0 <= q < |s.qs| && s.qs[q].worker.Busy? && s.qs[q].worker.item == i)
      && (forall q :: 0 <= q < |s.qs| && s.qs[q].worker.Busy? && s.qs[q].worker.item == i ==> s.items[i].wq == Some(q))
  {
    hide Inv, Step, Run, Runs;
    Reachable(nq, ni, es);
    var s := Run(Start(nq, ni), es);
    ListedIffPending(s, i);
    ExecutingIffBusy(s, i);
    forall q | 0 <= q < |s.qs|
      ensures forall a, b :: 0 <= a < b < |s.qs[q].list| ==> s.qs[q].list[a] != s.qs[q].list[b]
    {
      ListedOnce(s, q);
    }
  }

  // ---------- what becomes of a submission ----------

  /** The submission asks for nothing more. */
  predicate Over(f: Fate) { f.Ran? || f.Cancelled? || f.Dropped? }

  /** `flush_work` returns only when every submission of the item is over; dropped ones were for a stopped queue. */
  lemma Settled(s: State, i: nat)
    requires Inv(s) && i < |s.items| && s.items[i].pending == 0 && !s.items[i].executing
    ensures forall k :: 0 <= k < |s.log| && s.log[k].item == i ==>
              && Over(s.log[k].fate)
              && (s.log[k].fate.Dropped? ==> s.log[k].delayed && s.log[k].q < |s.qs| && !s.qs[s.log[k].q].running)
  {
    forall k | 0 <= k < |s.log| && s.log[k].item == i
      ensures Over(s.log[k].fate)
      ensures s.log[k].fate.Dropped? ==> s.log[k].delayed && s.log[k].q < |s.qs| && !s.qs[s.log[k].q].running
    {
      assert TicketOk(s, k);
      assert QueueOk(s, s.log[k].q);
    }
  }

  ghost predicate AwaitsTimer(s: State, i: nat, q: nat) {
    i < |s.items| && s.items[i].pending == 2 && s.items[i].wq == Some(q)
  }

  /** The exit test of `flush_workqueue`. */
  ghost predicate Flushed(s: State, q: nat) { q < |s.qs| && s.qs[q].list == [] && s.qs[q].active == 0 }

  /**
   `flush_workqueue` returns with every submission over exactly if no item waits for its timer
   to get on this queue.  Those accepted without a delay have run or been cancelled in any case,
   and on a queue that is not stopped so has every one that is over.
   */
  lemma FlushMeansSettled(nq: nat, ni: nat, es: seq<Event>, q: nat)
    requires Runs(Start(nq, ni), es) && Flushed(Run(Start(nq, ni), es), q)
    ensures var s := Run(Start(nq, ni), es);
      && ((forall k :: 0 <= k < |s.log| && s.log[k].q == q ==> Over(s.log[k].fate)) <==> !exists i: nat :: AwaitsTimer(s, i, q))
      && (forall k :: 0 <= k < |s.log| && s.log[k].q == q && !s.log[k].delayed ==> s.log[k].fate.Ran? || s.log[k].fate.Cancelled?)
      && (s.qs[q].running ==> forall k :: 0 <= k < |s.log| && s.log[k].q == q ==> !s.log[k].fate.Dropped?)
  {
    Reachable(nq, ni, es);
    FlushedTickets(Run(Start(nq, ni), es), q);
  }

  lemma FlushedTickets(s: State, q: nat)
    requires Inv(s) && Flushed(s, q)
    ensures (forall k :: 0 <= k < |s.log| && s.log[k].q == q ==> Over(s.log[k].fate)) <==> !exists i: nat :: AwaitsTimer(s, i, q)
    ensures forall k :: 0 <= k < |s.log| && s.log[k].q == q && !s.log[k].delayed ==> s.log[k].fate.Ran? || s.log[k].fate.Cancelled?
    ensures s.qs[q].running ==> forall k :: 0 <= k < |s.log| && s.log[k].q == q ==> !s.log[k].fate.Dropped?
  {
    hide Inv;
    forall k | 0 <= k < |s.log| && s.log[k].q == q
      ensures Over(s.log[k].fate) || AwaitsTimer(s, s.log[k].item, q)
      ensures !s.log[k].delayed ==> s.log[k].fate.Ran? || s.log[k].fate.Cancelled?
      ensures s.qs[q].running ==> !s.log[k].fate.Dropped?
    {
      FlushedTicket(s, q, k);
    }
    if i: nat :| AwaitsTimer(s, i, q) {
      AwaitedTicket(s, i, q);
      var k := s.items[i].ticket;
      assert s.log[k].q == q && !Over(s.log[k].fate);
    }
  }

  lemma FlushedTicket(s: State, q: nat, k: nat)
    requires Inv(s) && Flushed(s, q) && k < |s.log| && s.log[k].q == q
    ensures Over(s.log[k].fate) || AwaitsTimer(s, s.log[k].item, q)
    ensures !s.log[k].delayed ==> s.log[k].fate.Ran? || s.log[k].fate.Cancelled?
    ensures s.qs[q].running ==> !s.log[k].fate.Dropped?
  {
    assert TicketOk(s, k) && QueueOk(s, q);
    assert ItemOk(s, s.log[k].item);
  }

  lemma AwaitedTicket(s: State, i: nat, q: nat)
    requires Inv(s) && AwaitsTimer(s, i, q)
    ensures Holds(s, s.items[i].ticket, q, i, Waiting)
  {
    assert ItemOk(s, i);
  }

  /** A flush can return while delayed work for the queue is still waiting. */
  lemma FlushMissesWaitingWork() returns (es: seq<Event>)
    ensures Runs(ONE_ITEM, es)
    ensures var s := Run(ONE_ITEM, es);
      Flushed(s, 0) && s.qs[0].running && AwaitsTimer(s, 0, 0) && |s.log| == 1 && s.log[0].fate == Waiting
  {
    es := Then(ONE_ITEM, [], QueueDelayed(0, 0, true));
  }

  /** An item is dropped by its timer function on a stopped queue that is not freed yet, and by nothing else. */
  ghost predicate Drops(s: State, e: Event, k: nat) {
    && k < |s.log| && e == TimerFn(s.log[k].item) && s.log[k].fate == Waiting
    && s.log[k].q < |s.qs| && !s.qs[s.log[k].q].running && !s.qs[s.log[k].q].freed
  }

  lemma DropsExactly(s: State, e: Event, k: nat)
    requires Inv(s) && Enabled(s, e) && k < |Step(s, e).log|
    ensures Step(s, e).log[k].fate == Dropped <==> (k < |s.log| && s.log[k].fate == Dropped) || Drops(s, e, k)
  {
    assert e.TimerFn? ==> !OnFreed(s, e.i, 2);
    StepLog(s, e);
    hide TouchesFreed, Step;
    if k < |s.log| {
      assert TicketOk(s, k);
    }
    match e
    case Take(q) => assert QueueOk(s, q) && ItemOk(s, s.qs[q].list[0]);
    case Finish(q) => assert QueueOk(s, q);
    case CancelWorkSync(i) => assert ItemOk(s, i);
    case CancelDelayedSync(i) => assert ItemOk(s, i);
    case CancelDelayed(i) => assert ItemOk(s, i);
    case TimerFn(i) => assert ItemOk(s, i);
    case _ =>
  }

  /** In the course of the run the timer of the submission met its queue stopped. */
  ghost predicate WasDropped(s: State, es: seq<Event>, k: nat) {
    es != [] && (Drops(Run(s, es[..|es| - 1]), es[|es| - 1], k) || WasDropped(s, es[..|es| - 1], k))
  }

  /** A submission is dropped exactly if its timer function ran when its queue had been stopped and not yet freed. */
  lemma {:induction false} DroppedExactly(nq: nat, ni: nat, es: seq<Event>, k: nat)
    requires Runs(Start(nq, ni), es)
    ensures var s := Run(Start(nq, ni), es);
      k < |s.log| && s.log[k].fate == Dropped <==> WasDropped(Start(nq, ni), es, k)
    decreases |es|
  {
    hide Step, Inv, Drops;
    if es != [] {
      var before, e := es[..|es| - 1], es[|es| - 1];
      var p := Run(Start(nq, ni), before);
      DroppedExactly(nq, ni, before, k);
      Reachable(nq, ni, before);
      LogGrows(p, e);
      if Drops(p, e, k) {
        DropsInside(p, e, k);
      }
      if k < |Step(p, e).log| {
        DropsExactly(p, e, k);
      }
    }
  }

  lemma DropsInside(s: State, e: Event, k: nat)
    requires Drops(s, e, k)
    ensures k < |s.log|
  {
  }

  lemma LogGrows(s: State, e: Event)
    requires Enabled(s, e)
    ensures |s.log| <= |Step(s, e).log|
  {
  }

  /** Accepted work can be over without having run or been cancelled; flush and cancel then return. */
  lemma StoppedQueueDropsWork() returns (es: seq<Event>)
    ensures Runs(ONE_ITEM, es)
    ensures var s := Run(ONE_ITEM, es);
      && |s.items| == 1 && Flushed(s, 0) && s.items[0].pending == 0 && !s.items[0].executing
      && |s.log| == 1 && s.log[0].fate == Dropped
      && Enabled(Step(s, CancelWorkSync(0)), CancelReturns(0))
  {
    es := Then(ONE_ITEM, [], QueueDelayed(0, 0, true));
    es := Then(ONE_ITEM, es, Stop(0));
    es := Then(ONE_ITEM, es, TimerFn(0));
  }

  /** A worker starts the submission that was put on its queue first of those still queued there. */
  lemma OldestFirst(s: State, q: nat)
    requires Inv(s) && Enabled(s, Take(q))
    ensures var k := s.items[s.qs[q].list[0]].ticket;
      && Holds(s, k, q, s.qs[q].list[0], Queued)
      && Step(s, Take(q)).log[k].fate == Started
      && forall m :: 0 <= m < |s.log| && m != k && s.log[m].q == q && s.log[m].fate == Queued ==> s.log[k].place < s.log[m].place
  {
    var i := s.qs[q].list[0];
    assert QueueOk(s, q) && ItemOk(s, i);
    var k := s.items[i].ticket;
    forall m | 0 <= m < |s.log| && m != k && s.log[m].q == q && s.log[m].fate == Queued
      ensures s.log[k].place < s.log[m].place
    {
      assert TicketOk(s, m);
      assert ItemOk(s, s.log[m].item);
    }
  }

  /** What each section writes into the record of submissions. */
  ghost function LogOf(s: State, e: Event): seq<Ticket>
    requires Enabled(s, e)
  {
    match e
    case QueueWork(q, i) => if Accepts(s.qs[q], q, s.items[i]) then s.log + [Ticket(q, i, false, Queued, s.clock)] else s.log
    case QueueDelayed(q, i, armed) =>
      if Accepts(s.qs[q], q, s.items[i]) && armed then s.log + [Ticket(q, i, true, Waiting, 0)] else s.log
    case TimerFn(i) =>
      var w := s.items[i];
      if w.pending != 2 || w.wq.None? || w.wq.value >= |s.qs| then s.log
      else if Accepts(s.qs[w.wq.value], w.wq.value, w.(pending := 0)) then Enter(s.log, w.wq.value, i, Some(w.ticket), s.clock)
      else Mark(s.log, w.ticket, Dropped)
    case Take(q) => Mark(s.log, s.items[s.qs[q].list[0]].ticket, Started)
    case Finish(q) => Mark(s.log, s.qs[q].worker.ticket, Ran)
    case CancelWorkSync(i) => if s.items[i].pending != 0 then Mark(s.log, s.items[i].ticket, Cancelled) else s.log
    case CancelDelayedSync(i) => if s.items[i].pending != 0 then Mark(s.log, s.items[i].ticket, Cancelled) else s.log
    case CancelDelayed(i) => if s.items[i].pending != 0 then Mark(s.log, s.items[i].ticket, Cancelled) else s.log
    case _ => s.log
  }

  lemma StepLog(s: State, e: Event)
    requires Enabled(s, e)
    ensures Step(s, e).log == LogOf(s, e)
  {
    hide Remove, Mark, Accepts, TouchesFreed;
  }

  ghost predicate FateFollows(a: Fate, b: Fate) {
    || a == b
    || (a == Waiting && (b == Queued || b == Cancelled || b == Dropped))
    || (a == Queued && (b == Started || b == Cancelled))
    || (a == Started && b == Ran)
  }

  /** Submissions only move forward: each is queued and started at most once, and never after its cancellation. */
  lemma StepFates(s: State, e: Event, k: nat)
    requires Inv(s) && Enabled(s, e) && k < |s.log|
    ensures k < |Step(s, e).log|
    ensures var a, b := s.log[k], Step(s, e).log[k];
      && b == a.(fate := b.fate, place := b.place) && FateFollows(a.fate, b.fate)
      && (b.place != a.place ==> a.fate == Waiting && b.fate == Queued && b.place == s.clock)
  {
    StepLog(s, e);
    hide TouchesFreed, Step;
    assert TicketOk(s, k);
    match e
    case Take(q) => assert QueueOk(s, q) && ItemOk(s, s.qs[q].list[0]);
    case Finish(q) => assert QueueOk(s, q);
    case CancelWorkSync(i) => assert ItemOk(s, i);
    case CancelDelayedSync(i) => assert ItemOk(s, i);
    case CancelDelayed(i) => assert ItemOk(s, i);
    case TimerFn(i) => assert ItemOk(s, i);
    case _ =>
  }

  // ---------- what becomes of a request ----------

  /** Nothing but queue `q`, item `i` and the log differs. */
  ghost predicate OthersStay(s: State, s': State, q: nat, i: nat)
    requires q < |s.qs| && i < |s.items|
  {
    && |s'.qs| == |s.qs| && (forall p :: 0 <= p < |s.qs| && p != q ==> s'.qs[p] == s.qs[p])
    && |s'.items| == |s.items| && (forall j :: 0 <= j < |s.items| && j != i ==> s'.items[j] == s.items[j])
  }

  /** The queue runs, and the item is not pending, not being cancelled and not executing on another queue. */
  predicate Welcome(u: Queue, q: nat, w: Work) {
    u.running && w.pending == 0 && !w.canceling && (w.executing ==> w.wq == Some(q))
  }

  /**
   A submission is accepted exactly if it is welcome.  Then the item becomes the last entry of
   the list, pending there, whether it is executing or not, and the submission is on record;
   otherwise nothing changes.
   */
  lemma SubmissionIsQueued(s: State, q: nat, i: nat)
    requires Enabled(s, QueueWork(q, i))
    ensures var s', w := Step(s, QueueWork(q, i)), s.items[i];
      if Welcome(s.qs[q], q, w) then
        && OthersStay(s, s', q, i)
        && s'.qs[q] == s.qs[q].(list := s.qs[q].list + [i])
        && s'.items[i] == w.(pending := 1, wq := Some(q), ticket := |s.log|, place := s.clock)
        && s'.log == s.log + [Ticket(q, i, false, Queued, s.clock)]
      else s' == s
  {
  }

  /** With a delay it waits for its timer instead, and is on no list; without a timer there is no submission. */
  lemma DelayedSubmissionWaits(s: State, q: nat, i: nat, armed: bool)
    requires Enabled(s, QueueDelayed(q, i, armed))
    ensures var s', w := Step(s, QueueDelayed(q, i, armed)), s.items[i];
      if Welcome(s.qs[q], q, w) then
        && s'.qs == s.qs && OthersStay(s, s', q, i)
        && s'.items[i].wq == Some(q) && s'.items[i].pending == (if armed then 2 else 0)
        && s'.items[i] == w.(wq := s'.items[i].wq, pending := s'.items[i].pending, ticket := s'.items[i].ticket)
        && |s'.log| == |s.log| + (if armed then 1 else 0) && s.log <= s'.log
        && (armed ==> s'.items[i].ticket == |s.log| && s'.log[|s.log|] == Ticket(q, i, true, Waiting, 0))
      else s' == s
  {
  }

  /** The timer function puts waiting work at the end of its queue's list, or drops it if the queue is stopped. */
  lemma TimerQueuesOrDrops(s: State, i: nat)
    requires Inv(s) && Enabled(s, TimerFn(i))
    ensures var s', w := Step(s, TimerFn(i)), s.items[i];
      if w.pending == 2 then
        && w.wq.Some? && w.wq.value < |s.qs| && w.ticket < |s.log| == |s'.log|
        && var q := w.wq.value;
           && OthersStay(s, s', q, i) && s'.items[i].pending == (if s.qs[q].running then 1 else 0)
           && s'.qs[q] == s.qs[q].(list := if s.qs[q].running then s.qs[q].list + [i] else s.qs[q].list)
           && s'.log[w.ticket].fate == (if s.qs[q].running then Queued else Dropped)
      else s' == s
  {
    assert ItemOk(s, i);
  }

  /** The section cancels the pending submission of item `i`. */
  predicate Cancels(e: Event, i: nat) {
    (e.CancelWorkSync? || e.CancelDelayedSync? || e.CancelDelayed?) && e.i == i
  }

  /**
   A submission is put on its list only by its timer, started only by the worker of its queue
   when it is at the head, is over only when that worker has run it, and is cancelled only by
   a cancellation of its item before it is started; and these sections do so.
   */
  lemma FateChangesExactly(s: State, e: Event, k: nat)
    requires Inv(s) && Enabled(s, e) && k < |s.log|
    ensures k < |Step(s, e).log| && s.log[k].q < |s.qs|
    ensures var t, f := s.log[k], Step(s, e).log[k].fate;
      && (f == Queued && t.fate != Queued <==> t.fate == Waiting && e == TimerFn(t.item) && s.qs[t.q].running)
      && (f == Started && t.fate != Started <==> t.fate == Queued && e == Take(t.q) && s.qs[t.q].list[0] == t.item)
      && (f == Ran && t.fate != Ran <==> t.fate == Started && e == Finish(t.q))
      && (f == Cancelled && t.fate != Cancelled <==> (t.fate == Waiting || t.fate == Queued) && Cancels(e, t.item))
  {
    StepLog(s, e);
    hide Step, TouchesFreed;
    assert TicketOk(s, k);
    match e
    case Take(q) => assert QueueOk(s, q) && ItemOk(s, s.qs[q].list[0]);
    case Finish(q) => assert QueueOk(s, q);
    case CancelWorkSync(i) => assert ItemOk(s, i);
    case CancelDelayedSync(i) => assert ItemOk(s, i);
    case CancelDelayed(i) => assert ItemOk(s, i);
    case TimerFn(i) => assert ItemOk(s, i);
    case _ =>
  }

  /** A worker runs what is at the head of its list, and is free again, and its item idle, when it has. */
  lemma WorkerRunsHead(s: State, q: nat)
    requires Inv(s) && Enabled(s, Take(q))
    ensures var s', i := Step(s, Take(q)), s.qs[q].list[0];
      && OthersStay(s, s', q, i)
      && s'.qs[q].worker.Busy? && s'.qs[q].worker.item == i && s'.qs[q].list == s.qs[q].list[1..] && s'.qs[q].active == 1
      && s'.items[i].executing && s'.items[i].pending == 0
      && Enabled(s', Finish(q))
      && var s'' := Step(s', Finish(q));
         && s''.qs[q] == s'.qs[q].(active := 0, worker := Looking) && OthersStay(s', s'', q, i)
         && s''.items[i] == s'.items[i].(executing := false)
  {
    assert QueueOk(s, q) && ItemOk(s, s.qs[q].list[0]);
  }

  // ---------- sync cancellers ----------

  /** On no list, on no worker, and nothing submitted before is still to come. */
  ghost predicate Idle(s: State, i: nat) {
    && i < |s.items| && s.items[i].pending == 0 && !s.items[i].executing
    && (forall q :: 0 <= q < |s.qs| ==> i !in s.qs[q].list && !(s.qs[q].worker.Busy? && s.qs[q].worker.item == i))
    && (forall k :: 0 <= k < |s.log| && s.log[k].item == i ==> Over(s.log[k].fate))
  }

  /**
   The last test of a sync canceller, whatever the number of cancellers.  While `canceling` is
   still set the item is idle and no queue accepts it.  Once another canceller has cleared it,
   any running queue accepts it, and this canceller then returns with the item queued.
   */
  lemma CancelIsSafeExactly(nq: nat, ni: nat, es: seq<Event>, i: nat, q: nat)
    requires Runs(Start(nq, ni), es) && Enabled(Run(Start(nq, ni), es), CancelReturns(i))
    requires q < |Run(Start(nq, ni), es).qs|
    ensures var s := Run(Start(nq, ni), es);
      && (s.items[i].canceling ==> Idle(s, i) && !Accepts(s.qs[q], q, s.items[i]))
      && (!s.items[i].canceling && s.items[i].pending == 0 && s.qs[q].running ==>
            && Accepts(s.qs[q], q, s.items[i]) && Enabled(s, QueueWork(q, i))
            && var again := Step(s, QueueWork(q, i));
               && Enabled(again, CancelReturns(i))
               && Step(again, CancelReturns(i)).items[i].pending == 1)
  {
    Reachable(nq, ni, es);
    var s := Run(Start(nq, ni), es);
    assert ItemOk(s, i) && QueueOk(s, q);
    if s.items[i].canceling {
      IdleWhenOff(s, i);
    }
  }

  lemma IdleWhenOff(s: State, i: nat)
    requires Inv(s) && i < |s.items| && s.items[i].pending == 0 && !s.items[i].executing
    ensures Idle(s, i)
  {
    hide Inv;
    ListedIffPending(s, i);
    ExecutingIffBusy(s, i);
    Settled(s, i);
  }

  /** No sync canceller of an item starts while another one of it is at work. */
  ghost predicate OneAtATime(s: State, es: seq<Event>)
    decreases |es|
  {
    es == [] ||
    var p, e := Run(s, es[..|es| - 1]), es[|es| - 1];
    && OneAtATime(s, es[..|es| - 1])
    && ((e.CancelWorkSync? || e.CancelDelayedSync?) && e.i < |p.items| ==> p.items[e.i].atTimer + p.items[e.i].atWait == 0)
  }

  ghost predicate Marked(s: State) {
    forall i :: 0 <= i < |s.items| ==>
      && s.items[i].atTimer + s.items[i].atWait <= 1
      && (s.items[i].canceling <==> s.items[i].atTimer + s.items[i].atWait == 1)
  }

  lemma MarkedStep(s: State, e: Event)
    requires Marked(s) && Enabled(s, e)
    requires e.CancelWorkSync? || e.CancelDelayedSync? ==> s.items[e.i].atTimer + s.items[e.i].atWait == 0
    ensures Marked(Step(s, e))
  {
    hide TouchesFreed;
  }

  lemma {:induction false} OneAtATimeMarks(s: State, es: seq<Event>)
    requires Marked(s) && Runs(s, es) && OneAtATime(s, es)
    ensures Marked(Run(s, es))
    decreases |es|
  {
    hide Step, Marked;
    if es != [] {
      OneAtATimeMarks(s, es[..|es| - 1]);
      MarkedStep(Run(s, es[..|es| - 1]), es[|es| - 1]);
    }
  }

  /** With one sync canceller per item at a time, it returns only when the item is idle. */
  lemma CancelReturnsMeansIdle(nq: nat, ni: nat, es: seq<Event>, i: nat)
    requires Runs(Start(nq, ni), es) && OneAtATime(Start(nq, ni), es)
    requires Enabled(Run(Start(nq, ni), es), CancelReturns(i))
    ensures Idle(Run(Start(nq, ni), es), i)
  {
    hide Inv, Step, Run, Runs, OneAtATime;
    Reachable(nq, ni, es);
    OneAtATimeMarks(Start(nq, ni), es);
    var s := Run(Start(nq, ni), es);
    CancellingMeansIdle(s, i);
    IdleWhenOff(s, i);
  }

  lemma CancellingMeansIdle(s: State, i: nat)
    requires Inv(s) && i < |s.items| && s.items[i].canceling
    ensures s.items[i].pending == 0
  {
    assert ItemOk(s, i);
  }

  function Running(cancellers: nat): State {
    State([Queue([], true, false, 1, Busy(0, 0), 0, false)],
          [Work(0, Some(0), true, cancellers > 0, 0, cancellers, 0, 0)],
          [Ticket(0, 0, false, Started, 0)], 1)
  }

  lemma RunningItem() returns (es: seq<Event>)
    ensures Runs(ONE_ITEM, es) && Run(ONE_ITEM, es) == Running(0)
  {
    var s := ONE_ITEM;
    es := Then(s, [], QueueWork(0, 0));
    es := Then(s, es, Take(0));
    var r := Run(s, es);
    assert |r.qs| == 1 && |r.items| == 1 && |r.log| == 1;
    assert r.qs[0] == Running(0).qs[0];
    assert r.items[0] == Running(0).items[0];
    assert r.log[0] == Running(0).log[0];
    assert r.clock == 1;
  }

  lemma OneMoreCanceller(n: nat)
    ensures Enabled(Running(n), CancelWorkSync(0)) && Step(Running(n), CancelWorkSync(0)) == Running(n + 1)
  {
  }

  /** Once the item has finished, the first canceller to leave clears the flag. */
  lemma FirstCancellerLeaves(es: seq<Event>) returns (fs: seq<Event>)
    requires Runs(ONE_ITEM, es) && Run(ONE_ITEM, es) == Running(2)
    ensures Runs(ONE_ITEM, fs)
    ensures var r := Run(ONE_ITEM, fs);
      r.qs == [Queue([], true, false, 0, Looking, 0, false)] && r.items == [Work(0, Some(0), false, false, 0, 1, 0, 0)]
  {
    hide Run, Runs;
    fs := Then(ONE_ITEM, es, Finish(0));
    fs := Then(ONE_ITEM, fs, CancelReturns(0));
  }

  lemma SecondCancellerLeaves(es: seq<Event>) returns (fs: seq<Event>)
    requires Runs(ONE_ITEM, es)
    requires var r := Run(ONE_ITEM, es);
      r.qs == [Queue([], true, false, 0, Looking, 0, false)] && r.items == [Work(0, Some(0), false, false, 0, 1, 0, 0)]
    ensures Runs(ONE_ITEM, fs) && fs == es + [QueueWork(0, 0), CancelReturns(0)]
    ensures var r := Run(ONE_ITEM, fs); |r.items| == 1 && r.items[0].pending == 1
  {
    hide Run, Runs;
    fs := Then(ONE_ITEM, es, QueueWork(0, 0));
    fs := Then(ONE_ITEM, fs, CancelReturns(0));
  }

  /** With two sync cancellers of a running item, the second can return while the item is queued again. */
  lemma SecondCancellerReturnsTooEarly() returns (es: seq<Event>)
    ensures Runs(ONE_ITEM, es) && es != [] && es[|es| - 1] == CancelReturns(0)
    ensures var r := Run(ONE_ITEM, es); |r.items| == 1 && r.items[0].pending == 1
  {
    var s := ONE_ITEM;
    es := RunningItem();
    hide Run, Runs, Running, Step, Enabled, Start;
    OneMoreCanceller(0);
    es := Then(s, es, CancelWorkSync(0));
    OneMoreCanceller(1);
    es := Then(s, es, CancelWorkSync(0));
    es := FirstCancellerLeaves(es);
    es := SecondCancellerLeaves(es);
  }

  /** The last test of a sync canceller lets go of the item: from then on it is welcome wherever it is not pending. */
  lemma CancelLetsGo(s: State, i: nat, q: nat)
    requires Inv(s) && Enabled(s, CancelReturns(i)) && q < |s.qs|
    ensures var s' := Step(s, CancelReturns(i));
      && s' == s.(items := s'.items) && |s'.items| == |s.items|
      && (forall j :: 0 <= j < |s.items| && j != i ==> s'.items[j] == s.items[j])
      && (Welcome(s'.qs[q], q, s'.items[i]) <==> s.qs[q].running && s.items[i].pending == 0)
  {
  }

  // ---------- destruction ----------

  /** Stopping, ending and freeing concern this queue alone, and leave its list as it is. */
  lemma QueueEndsAlone(s: State, q: nat, e: Event)
    requires Enabled(s, e) && (e == Stop(q) || e == End(q) || e == Free(q))
    ensures var s' := Step(s, e);
      && s' == s.(qs := s'.qs) && |s'.qs| == |s.qs| && (forall p :: 0 <= p < |s.qs| && p != q ==> s'.qs[p] == s.qs[p])
      && s'.qs[q].list == s.qs[q].list && s'.qs[q].active == s.qs[q].active
      && (s'.qs[q].running <==> s.qs[q].running && !e.Stop?)
      && (s'.qs[q].done <==> s.qs[q].done || e.End?) && (s'.qs[q].freed <==> s.qs[q].freed || e.Free?)
  {
  }

  ghost function Remaining(u: Queue): nat { 2 * |u.list| + u.active }

  /** Once stopped, a queue takes nothing new, and each step of its worker shortens what remains. */
  lemma StoppedDrains(s: State, q: nat, e: Event)
    requires Inv(s) && Enabled(s, e) && q < |s.qs| && !s.qs[q].running
    ensures var u, v := s.qs[q], Step(s, e).qs[q];
      && !v.running
      && Remaining(v) <= Remaining(u)
      && (e == Take(q) || e == Finish(q) ==> Remaining(v) < Remaining(u))
      && (e == End(q) ==> v.done && v.list == [] && v.active == 0)
      && (u.done ==> v == u.(destroyers := v.destroyers, freed := v.freed))
  {
    hide TouchesFreed, Remove;
    assert QueueOk(s, q);
    match e
    case CancelWorkSync(i) => ShorterWithout(s, i, q);
    case CancelDelayedSync(i) => ShorterWithout(s, i, q);
    case CancelDelayed(i) => ShorterWithout(s, i, q);
    case _ =>
  }

  lemma ShorterWithout(s: State, i: nat, q: nat)
    requires Inv(s) && i < |s.items| && q < |s.qs|
    ensures q < |RemovePending(s, i).qs|
    ensures var u, v := s.qs[q], RemovePending(s, i).qs[q];
      v == u.(list := v.list) && |v.list| <= |u.list| && (u.done ==> v == u)
  {
    assert QueueOk(s, q);
    assert ItemOk(s, i);
  }

  /** The worker of a stopped queue can always go on until it ends, and it ends on an empty queue. */
  lemma StoppedWorkerGoesOn(s: State, q: nat) returns (e: Event)
    requires Inv(s) && q < |s.qs| && !s.qs[q].running && !s.qs[q].done
    ensures Enabled(s, e) && (e == Take(q) || e == Finish(q) || e == End(q))
    ensures e == End(q) <==> Remaining(s.qs[q]) == 0
  {
    assert QueueOk(s, q);
    var u := s.qs[q];
    if u.worker.Busy? {
      e := Finish(q);
    } else if u.list != [] {
      assert ItemOk(s, u.list[0]);
      e := Take(q);
    } else {
      e := End(q);
    }
  }

  // ---------- freed queues ----------

  /** A use of queue `q` by its owner: a submission, a flush, or its destruction. */
  predicate Uses(e: Event, q: nat) {
    || (e.QueueWork? && e.q == q) || (e.QueueDelayed? && e.q == q) || (e.FlushTest? && e.q == q)
    || (e.Stop? && e.q == q) || (e.Free? && e.q == q)
  }

  /**
   A section touches a freed queue exactly if its owner goes on using the queue, or if it is the
   timer function of an item that still waits to get on it.  Workers and cancellers never do.
   */
  lemma TouchesFreedExactly(s: State, e: Event)
    requires Inv(s) && CanHappen(s, e)
    ensures TouchesFreed(s, e) <==>
            exists q: nat :: Freed(s, q) && (Uses(e, q) || (e.TimerFn? && AwaitsTimer(s, e.i, q)))
  {
    match e
    case Take(q) => assert QueueOk(s, q);
    case Finish(q) => assert QueueOk(s, q);
    case End(q) => assert QueueOk(s, q);
    case CancelWorkSync(i) => ListedOnLive(s, i);
    case CancelDelayedSync(i) => ListedOnLive(s, i);
    case CancelDelayed(i) => ListedOnLive(s, i);
    case _ =>
  }

  lemma ListedOnLive(s: State, i: nat)
    requires Inv(s) && i < |s.items|
    ensures !OnFreed(s, i, 1)
  {
    assert ItemOk(s, i);
    if s.items[i].pending == 1 {
      assert QueueOk(s, s.items[i].wq.value);
    }
  }

  /** So a cancellation is always defined. */
  lemma CancelsEnabled(s: State, i: nat)
    requires Inv(s) && i < |s.items|
    ensures Enabled(s, CancelWorkSync(i)) && Enabled(s, CancelDelayedSync(i)) && Enabled(s, CancelDelayed(i))
  {
    ListedOnLive(s, i);
  }

  /** A delayed submission outlives its queue, and its timer function meets the freed record. */
  lemma TimerCanMeetFreedQueue() returns (es: seq<Event>)
    ensures Runs(ONE_ITEM, es)
    ensures var s := Run(ONE_ITEM, es); CanHappen(s, TimerFn(0)) && TouchesFreed(s, TimerFn(0))
  {
    es := Then(ONE_ITEM, [], QueueDelayed(0, 0, true));
    es := Then(ONE_ITEM, es, Stop(0));
    es := Then(ONE_ITEM, es, End(0));
    es := Then(ONE_ITEM, es, Free(0));
  }

  /**
   What an owner can see to: a queue is destroyed once, it is not used after it has been freed,
   and when it is freed no item waits for its timer to get on it.
   */
  ghost predicate Careful(s: State, e: Event) {
    && (forall q: nat :: Uses(e, q) ==> !Freed(s, q))
    && (e.Stop? && e.q < |s.qs| ==> s.qs[e.q].destroyers == 0)
    && (e.Free? ==> forall i: nat :: !AwaitsTimer(s, i, e.q))
  }

  ghost predicate CarefulRun(s: State, es: seq<Event>)
    decreases |es|
  {
    es == [] ||
    var p, e := Run(s, es[..|es| - 1]), es[|es| - 1];
    CarefulRun(s, es[..|es| - 1]) && CanHappen(p, e) && Careful(p, e)
  }

  /** No queue has two destroyers, and of a freed queue nothing is left. */
  ghost predicate Tidy(s: State) {
    && (forall q :: 0 <= q < |s.qs| ==> s.qs[q].destroyers <= if s.qs[q].freed then 0 else 1)
    && (forall i: nat, q: nat :: Freed(s, q) ==> !AwaitsTimer(s, i, q))
  }

  lemma CarefulIsEnabled(s: State, e: Event)
    requires Inv(s) && Tidy(s) && CanHappen(s, e) && Careful(s, e)
    ensures Enabled(s, e)
  {
    hide Inv, CanHappen, TouchesFreed, Uses;
    TouchesFreedExactly(s, e);
  }

  lemma FreeKeepsTidy(s: State, q: nat)
    requires Tidy(s) && Enabled(s, Free(q)) && Careful(s, Free(q))
    ensures Tidy(Step(s, Free(q)))
  {
    var s' := Step(s, Free(q));
    forall i: nat, p: nat | Freed(s', p) ensures !AwaitsTimer(s', i, p) {
      assert p != q ==> Freed(s, p);
      assert AwaitsTimer(s', i, p) ==> AwaitsTimer(s, i, p);
    }
  }

  /** Nobody else frees a queue, and only a submission with a delay makes an item wait. */
  lemma OthersFreeNothing(s: State, e: Event)
    requires Enabled(s, e) && !e.Free?
    ensures |Step(s, e).qs| == |s.qs|
    ensures forall q :: 0 <= q < |s.qs| ==>
              && Step(s, e).qs[q].freed == s.qs[q].freed
              && Step(s, e).qs[q].destroyers == s.qs[q].destroyers + if e == Stop(q) then 1 else 0
    ensures forall i: nat, q: nat :: AwaitsTimer(Step(s, e), i, q) ==> AwaitsTimer(s, i, q) || (e.QueueDelayed? && e.q == q)
  {
    hide TouchesFreed, Remove, Mark, Enter;
  }

  lemma CarefulKeepsTidy(s: State, e: Event)
    requires Tidy(s) && Enabled(s, e) && Careful(s, e)
    ensures Tidy(Step(s, e))
  {
    hide Step;
    if e.Free? {
      FreeKeepsTidy(s, e.q);
    } else {
      OthersFreeNothing(s, e);
      assert forall q: nat :: Freed(Step(s, e), q) <==> Freed(s, q);
      assert e.QueueDelayed? || e.Stop? ==> Uses(e, e.q);
    }
  }

  /** Owners that are careful never have a freed queue touched. */
  lemma {:induction false} CarefulIsDefined(s: State, es: seq<Event>)
    requires Inv(s) && Tidy(s) && CarefulRun(s, es)
    ensures Runs(s, es) && Inv(Run(s, es)) && Tidy(Run(s, es))
    decreases |es|
  {
    hide Inv, Tidy, Step, Careful, CanHappen, TouchesFreed;
    if es != [] {
      var p, e := Run(s, es[..|es| - 1]), es[|es| - 1];
      CarefulIsDefined(s, es[..|es| - 1]);
      CarefulIsEnabled(p, e);
      CarefulKeepsTidy(p, e);
      StepKeeps(p, e);
    }
  }

  /** So no run of careful owners touches a freed queue, whatever workers, timers and cancellers do. */
  lemma CarefulOwnersAreSafe(nq: nat, ni: nat, es: seq<Event>)
    requires CarefulRun(Start(nq, ni), es)
    ensures Runs(Start(nq, ni), es) && Inv(Run(Start(nq, ni), es)) && Tidy(Run(Start(nq, ni), es))
  {
    Reachable(nq, ni, []);
    hide Run, Step;
    CarefulIsDefined(Start(nq, ni), es);
  }

  /** Careful owners can still come to touch a freed queue. */
  ghost predicate CanTouch(s: State) {
    exists es: seq<Event>, e: Event ::
      CarefulRun(s, es) && CanHappen(Run(s, es), e) && Careful(Run(s, es), e) && TouchesFreed(Run(s, es), e)
  }

  /**
   After a destruction, owners that are careful from there on can touch a freed queue exactly if
   some item was waiting for its timer to get on this one.
   */
  lemma DestroyIsSafeExactly(nq: nat, ni: nat, es: seq<Event>, q: nat)
    requires CarefulRun(Start(nq, ni), es) && CanHappen(Run(Start(nq, ni), es), Free(q))
    ensures var s := Run(Start(nq, ni), es);
      Enabled(s, Free(q)) && (CanTouch(Step(s, Free(q))) <==> exists i: nat :: AwaitsTimer(s, i, q))
  {
    var s := Run(Start(nq, ni), es);
    CarefulOwnersAreSafe(nq, ni, es);
    assert Enabled(s, Free(q));
    var s' := Step(s, Free(q));
    if i: nat :| AwaitsTimer(s, i, q) {
      LeftBehind(s', i, q);
    } else {
      StepKeeps(s, Free(q));
      CarefulKeepsTidy(s, Free(q));
      TidyCannotTouch(s');
    }
  }

  lemma LeftBehind(s: State, i: nat, q: nat)
    requires AwaitsTimer(s, i, q) && Freed(s, q)
    ensures CanTouch(s)
  {
    var es: seq<Event> := [];
    assert CarefulRun(s, es) && Run(s, es) == s;
    assert Careful(s, TimerFn(i)) && TouchesFreed(Run(s, es), TimerFn(i));
  }

  lemma TidyCannotTouch(s: State)
    requires Inv(s) && Tidy(s)
    ensures !CanTouch(s)
  {
    hide Inv, Tidy, Run, CarefulRun, Careful, CanHappen, TouchesFreed;
    forall es: seq<Event>, e: Event | CarefulRun(s, es) && CanHappen(Run(s, es), e) && Careful(Run(s, es), e)
      ensures !TouchesFreed(Run(s, es), e)
    {
      CarefulIsDefined(s, es);
      CarefulIsEnabled(Run(s, es), e);
    }
  }
}
