/**
 The machine of one delayed item, with its timer and its call, is an implementation of the
 machine of the queues: each of its steps is one section of that machine, or none of its business.
 So what is proved of submissions there holds of the item with the real timer.
 */
module DelayedWorkQueues {
  import opened Wrappers
  import D = DelayedWork
  import W = Workqueue
  import ThreadCall

  /** A submission counts as made once its call is known to exist, and not at all without one. */
  function Shown(d: D.Item): nat {
    if d.holder.QdAlloc? || (d.holder.QdFinish? && !d.hasCall) then 0 else d.pending
  }

  predicate AtTimer(c: D.Canceller) {
    c.CsActive? || c.CsBegin? || c.CsWait? || c.CsFree? || c.CsFreeWait? || c.CsDestroy? || c.CsNull?
  }

  predicate AtWait(c: D.Canceller) { c.CsExec? || c.CwExec? }

  ghost predicate ItemShown(d: D.Item, w: W.Work, nq: nat) {
    && w.pending == Shown(d) && w.executing == d.executing && w.canceling == d.canceling
    && (Shown(d) != 0 || d.executing ==> w.wq == Some(d.wq) && d.wq < nq)
    && w.atTimer == (if AtTimer(d.canceller) then 1 else 0)
    && w.atWait == (if AtWait(d.canceller) then 1 else 0)
  }

  ghost predicate QueueShown(d: D.Item, u: W.Queue, q: nat) {
    && (u.running <==> q in d.live) && !u.done && !u.freed
    && u.list == (if Shown(d) == 1 && d.wq == q then [0] else [])
    && (u.worker.Busy? <==> d.executing && d.wq == q)
  }

  /** The queue machine, with this one item, is where the delayed item shows it to be. */
  ghost predicate Shows(d: D.Item, w: W.State, nq: nat) {
    && |w.qs| == nq && |w.items| == 1
    && ItemShown(d, w.items[0], nq)
    && (forall q :: 0 <= q < nq ==> QueueShown(d, w.qs[q], q))
    && (forall q :: q in d.live ==> q < nq)
    && (d.holder.QdAlloc? ==> d.wq < nq && W.Accepts(w.qs[d.wq], d.wq, w.items[0]))
  }

  /** The section of the queue machine that a step of the item stands for. */
  ghost function Section(d: D.Item, e: D.Event, nq: nat): Option<W.Event> {
    match e
    case QueueDelayed(_) => None
    case HolderStep(ok) => if d.holder.QdAlloc? then Some(W.QueueDelayed(d.wq, 0, d.hasCall || ok)) else None
    case CancelDelayed => Some(W.CancelDelayed(0))
    case CancelDelayedSync => Some(W.CancelDelayedSync(0))
    case CancelWorkSync => Some(W.CancelWorkSync(0))
    case QueueWork(q) => if q < nq then Some(W.QueueWork(q, 0)) else None
    case WorkerTake => Some(W.Take(d.wq))
    case WorkerDone => Some(W.Finish(d.wq))
    case StopQueue(q) => if q < nq then Some(W.Stop(q)) else None
    case NativeFire => None
    case CallbackEnter(_) => None
    case CallbackStep(t) => if D.At(d, t, D.CbLock) then Some(W.TimerFn(0)) else None
    case CancellerStep =>
      if d.canceller.CsNull? || (d.canceller.CsBegin? && !d.hasCall) then Some(W.TimerGone(0))
      else if AtWait(d.canceller) && !d.executing then Some(W.CancelReturns(0))
      else None
  }

  /** What each step has to keep. */
  ghost predicate Kept(d: D.Item, e: D.Event, w: W.State, nq: nat)
    requires D.Enabled(d, e)
  {
    var x := Section(d, e, nq);
    if x.None? then Shows(D.Step(d, e), w, nq)
    else W.Enabled(w, x.value) && Shows(D.Step(d, e), W.Step(w, x.value), nq)
  }

  lemma HolderKept(d: D.Item, ok: bool, w: W.State, nq: nat)
    requires D.LockInv(d) && Shows(d, w, nq) && D.Enabled(d, D.HolderStep(ok))
    ensures Kept(d, D.HolderStep(ok), w, nq)
  {
    if d.holder.QdAlloc? {
      AllocKept(d, ok, w, nq);
    }
    hide W.Step, W.Accepts, ThreadCall.Submit, ThreadCall.Cancel;
  }

  lemma AllocKept(d: D.Item, ok: bool, w: W.State, nq: nat)
    requires D.LockInv(d) && Shows(d, w, nq) && d.holder.QdAlloc?
    ensures Kept(d, D.HolderStep(ok), w, nq)
  {
  }

  /** The timer, its call and its callbacks are not seen in the queue machine. */
  lemma Unseen(d: D.Item, d': D.Item, w: W.State, nq: nat)
    requires Shows(d, w, nq)
    requires d' == d.(active := d'.active, call := d'.call, cbs := d'.cbs, freed := d'.freed, canceller := d'.canceller)
    requires AtTimer(d'.canceller) == AtTimer(d.canceller) && AtWait(d'.canceller) == AtWait(d.canceller)
    ensures Shows(d', w, nq)
  {
  }

  lemma CancellerKept(d: D.Item, w: W.State, nq: nat)
    requires D.LockInv(d) && Shows(d, w, nq) && D.Enabled(d, D.CancellerStep)
    ensures Kept(d, D.CancellerStep, w, nq)
  {
    if Section(d, D.CancellerStep, nq).None? {
      Unseen(d, D.Step(d, D.CancellerStep), w, nq);
      hide Shows, D.LockInv;
    } else if d.canceller.CsNull? || d.canceller.CsBegin? {
      TimerGoneKept(d, w, nq);
    } else {
      ReturnKept(d, w, nq);
    }
  }

  lemma TimerGoneKept(d: D.Item, w: W.State, nq: nat)
    requires D.LockInv(d) && Shows(d, w, nq) && (d.canceller.CsNull? || (d.canceller.CsBegin? && !d.hasCall))
    ensures Kept(d, D.CancellerStep, w, nq)
  {
  }

  lemma ReturnKept(d: D.Item, w: W.State, nq: nat)
    requires D.LockInv(d) && Shows(d, w, nq) && D.Unlocked(d) && AtWait(d.canceller) && !d.executing
    ensures Kept(d, D.CancellerStep, w, nq)
  {
  }

  lemma CallbackKept(d: D.Item, t: nat, w: W.State, nq: nat)
    requires D.LockInv(d) && Shows(d, w, nq) && D.Enabled(d, D.CallbackStep(t))
    ensures Kept(d, D.CallbackStep(t), w, nq)
  {
    hide Shows, D.LockInv, W.Enabled, W.Step, D.QueueLocked;
    if d.cbs[t].CbLock? {
      var n := (if d.pending == 2 then D.QueueLocked(d.(pending := 0), d.wq) else d);
      TimerKept(d, n, w, nq);
      Unseen(n, D.Step(d, D.CallbackStep(t)), W.Step(w, W.TimerFn(0)), nq);
    } else {
      Unseen(d, D.Step(d, D.CallbackStep(t)), w, nq);
    }
  }

  lemma TimerKept(d: D.Item, n: D.Item, w: W.State, nq: nat)
    requires D.LockInv(d) && Shows(d, w, nq) && D.Unlocked(d)
    requires n == if d.pending == 2 then D.QueueLocked(d.(pending := 0), d.wq) else d
    ensures W.Enabled(w, W.TimerFn(0)) && Shows(n, W.Step(w, W.TimerFn(0)), nq)
  {
  }

  lemma WorkerKept(d: D.Item, e: D.Event, w: W.State, nq: nat)
    requires D.LockInv(d) && W.Inv(w) && Shows(d, w, nq) && D.Enabled(d, e) && (e.WorkerTake? || e.WorkerDone?)
    ensures Kept(d, e, w, nq)
  {
    assert W.QueueOk(w, d.wq);
    hide W.Inv;
  }

  lemma RemovalShown(d: D.Item, w: W.State, nq: nat)
    requires Shows(d, w, nq) && D.Unlocked(d)
    ensures var r := W.RemovePending(w, 0);
      && |r.qs| == nq && r.items == [w.items[0].(pending := 0)]
      && forall q :: 0 <= q < nq ==> QueueShown(d.(pending := 0), r.qs[q], q)
  {
  }

  lemma BeginShown(d: D.Item, c: D.Canceller, w: W.State, nq: nat)
    requires D.LockInv(d) && Shows(d, w, nq) && D.Unlocked(d) && d.canceller.NoCanceller? && (c.CsActive? || c.CwExec?)
    ensures Shows(d.(canceling := true, pending := 0, canceller := c), W.BeginCancel(w, 0, c.CsActive?), nq)
  {
    RemovalShown(d, w, nq);
    hide W.RemovePending;
  }

  lemma CancelKept(d: D.Item, w: W.State, nq: nat)
    requires D.LockInv(d) && W.Inv(w) && Shows(d, w, nq) && D.Unlocked(d)
    ensures Kept(d, D.CancelDelayed, w, nq)
  {
    W.CancelsEnabled(w, 0);
    RemovalShown(d, w, nq);
    hide W.RemovePending, W.Inv, W.Enabled, D.LockInv;
  }

  lemma SyncCancelKept(d: D.Item, e: D.Event, w: W.State, nq: nat)
    requires D.LockInv(d) && W.Inv(w) && Shows(d, w, nq) && D.Enabled(d, e)
    requires e.CancelDelayedSync? || e.CancelWorkSync?
    ensures Kept(d, e, w, nq)
  {
    W.CancelsEnabled(w, 0);
    BeginShown(d, if e.CancelDelayedSync? then D.CsActive else D.CwExec, w, nq);
    hide W.Inv, W.Enabled, D.LockInv, W.BeginCancel, QueueShown, ItemShown, W.Accepts;
  }

  lemma SubmitKept(d: D.Item, q: nat, w: W.State, nq: nat)
    requires D.LockInv(d) && Shows(d, w, nq) && D.Unlocked(d)
    ensures Kept(d, D.QueueWork(q), w, nq)
  {
  }

  lemma StopKept(d: D.Item, q: nat, w: W.State, nq: nat)
    requires D.LockInv(d) && Shows(d, w, nq) && D.Unlocked(d)
    ensures Kept(d, D.StopQueue(q), w, nq)
  {
  }

  lemma OtherKept(d: D.Item, e: D.Event, w: W.State, nq: nat)
    requires D.LockInv(d) && Shows(d, w, nq) && D.Enabled(d, e)
    requires e.QueueDelayed? || e.NativeFire? || e.CallbackEnter?
    ensures Kept(d, e, w, nq)
  {
    hide W.Step;
    if !e.QueueDelayed? {
      Unseen(d, D.Step(d, e), w, nq);
      hide Shows, D.LockInv;
    }
  }

  /** Each step of the delayed item is one section of the queue machine, or leaves it as it is. */
  lemma StepIsSection(d: D.Item, e: D.Event, w: W.State, nq: nat)
    requires D.Inv(d) && W.Inv(w) && Shows(d, w, nq) && D.Enabled(d, e)
    ensures Kept(d, e, w, nq)
  {
    hide Kept, Shows, D.LockInv, D.CallOk, D.CountOk, D.NotLost, W.Inv;
    match e
    case HolderStep(ok) => HolderKept(d, ok, w, nq);
    case CancellerStep => CancellerKept(d, w, nq);
    case CallbackStep(t) => CallbackKept(d, t, w, nq);
    case WorkerTake => WorkerKept(d, e, w, nq);
    case WorkerDone => WorkerKept(d, e, w, nq);
    case CancelDelayed => CancelKept(d, w, nq);
    case CancelDelayedSync => SyncCancelKept(d, e, w, nq);
    case CancelWorkSync => SyncCancelKept(d, e, w, nq);
    case QueueWork(q) => SubmitKept(d, q, w, nq);
    case StopQueue(q) => StopKept(d, q, w, nq);
    case _ => OtherKept(d, e, w, nq);
  }

  // ---------- runs ----------

  function Queues(nq: nat): (qs: set<nat>)
    ensures forall q: nat :: q in qs <==> q < nq
  {
    if nq == 0 then {} else Queues(nq - 1) + {nq - 1}
  }

  function Begin(nq: nat): D.Item { D.Start(Queues(nq)) }

  /** The run of the queue machine that a run of the delayed item stands for. */
  ghost function Sections(nq: nat, es: seq<D.Event>): seq<W.Event>
    decreases |es|
  {
    if es == [] then []
    else
      var x := Section(D.Run(Begin(nq), es[..|es| - 1]), es[|es| - 1], nq);
      Sections(nq, es[..|es| - 1]) + if x.Some? then [x.value] else []
  }

  lemma BeginIsShown(nq: nat)
    ensures Shows(Begin(nq), W.Start(nq, 1), nq)
  {
  }

  /** So each run of a delayed item, with timer, call and callbacks, is a run of the queues. */
  lemma {:induction false} RunsAreQueueRuns(nq: nat, es: seq<D.Event>)
    requires D.Runs(Begin(nq), es) && D.Defined(Begin(nq), es)
    ensures W.Runs(W.Start(nq, 1), Sections(nq, es))
    ensures Shows(D.Run(Begin(nq), es), W.Run(W.Start(nq, 1), Sections(nq, es)), nq)
    decreases |es|
  {
    hide D.Step, D.Enabled, D.TouchesFreed, W.Step, W.Enabled, Shows, Section, Begin;
    if es == [] {
      BeginIsShown(nq);
    } else {
      var before, e := es[..|es| - 1], es[|es| - 1];
      RunsAreQueueRuns(nq, before);
      var d, w := D.Run(Begin(nq), before), W.Run(W.Start(nq, 1), Sections(nq, before));
      Invariants(nq, before);
      StepIsSection(d, e, w, nq);
      var x := Section(d, e, nq);
      if x.Some? {
        var fs := W.Then(W.Start(nq, 1), Sections(nq, before), x.value);
      } else {
        assert Sections(nq, es) == Sections(nq, before);
      }
    }
  }

  lemma Invariants(nq: nat, es: seq<D.Event>)
    requires D.Runs(Begin(nq), es) && D.Defined(Begin(nq), es) && W.Runs(W.Start(nq, 1), Sections(nq, es))
    ensures D.Inv(D.Run(Begin(nq), es)) && W.Inv(W.Run(W.Start(nq, 1), Sections(nq, es)))
  {
    D.Reachable(Queues(nq), es);
    W.Reachable(nq, 1, Sections(nq, es));
  }

  /**
   When the sync canceller of a delayed item makes its last test, every submission of the item,
   with a delay or without, has run, been cancelled or been dropped, and it is on no list.
   */
  lemma CancelSettlesDelayedWork(nq: nat, es: seq<D.Event>)
    requires D.Runs(Begin(nq), es) && D.Defined(Begin(nq), es)
    requires var d := D.Run(Begin(nq), es); AtWait(d.canceller) && !d.executing
    ensures W.Idle(W.Run(W.Start(nq, 1), Sections(nq, es)), 0)
  {
    hide D.Step, W.Step, W.Inv, W.Idle;
    RunsAreQueueRuns(nq, es);
    Invariants(nq, es);
    W.IdleWhenOff(W.Run(W.Start(nq, 1), Sections(nq, es)), 0);
  }

  /** The one item waits for its timer: its ticket waits, and all others are over. */
  lemma OneTicketWaits(w: W.State)
    requires W.Inv(w) && |w.items| == 1 && w.items[0].pending == 2 && !w.items[0].executing
    ensures w.items[0].wq.Some? && W.Holds(w, w.items[0].ticket, w.items[0].wq.value, 0, W.Waiting)
    ensures forall m :: 0 <= m < |w.log| && m != w.items[0].ticket ==> W.Over(w.log[m].fate)
  {
    assert W.ItemOk(w, 0);
    forall m | 0 <= m < |w.log| && m != w.items[0].ticket ensures W.Over(w.log[m].fate) {
      assert W.TicketOk(w, m);
      assert W.QueueOk(w, w.log[m].q);
    }
  }

  /** While the item waits for its timer, with the lock free and no worker at it, one submission of it waits, and all others are over. */
  lemma WaitingWorkHasTicket(nq: nat, es: seq<D.Event>) returns (k: nat)
    requires D.Runs(Begin(nq), es) && D.Defined(Begin(nq), es)
    requires var d := D.Run(Begin(nq), es); D.Unlocked(d) && d.pending == 2 && !d.executing
    ensures var d, w := D.Run(Begin(nq), es), W.Run(W.Start(nq, 1), Sections(nq, es));
      && W.Holds(w, k, d.wq, 0, W.Waiting)
      && forall m :: 0 <= m < |w.log| && m != k ==> W.Over(w.log[m].fate)
  {
    hide D.Run, D.Runs, D.Defined, W.Run, W.Runs, D.Inv, W.Inv, QueueShown, W.Accepts, Begin, W.Start;
    RunsAreQueueRuns(nq, es);
    Invariants(nq, es);
    var w := W.Run(W.Start(nq, 1), Sections(nq, es));
    OneTicketWaits(w);
    k := w.items[0].ticket;
  }
}
