/**
 How far a sync cancellation of delayed work can be taken: to its return, which nothing but a
 freed call can prevent, or to the point where `cancel_delayed_work` is left with a freed call.
 */
module DelayedWorkReturns {
  import opened ThreadCall
  import opened DelayedWork

  /** Steps that the system takes by itself, with the canceller and the worker at their end. */
  predicate Inside(e: Event) {
    e.NativeFire? || e.CallbackEnter? || e.CallbackStep? || e.CancellerStep? || e.WorkerDone? || e.HolderStep?
  }

  ghost predicate AllInside(es: seq<Event>) { forall i :: 0 <= i < |es| ==> Inside(es[i]) }

  ghost predicate NoHolderStep(es: seq<Event>) { forall i :: 0 <= i < |es| ==> !es[i].HolderStep? }

  /** How much of its code the canceller has still before it. */
  function Stage(c: Canceller): nat {
    match c
    case CsActive => 8
    case CsBegin => 7
    case CsWait => 6
    case CsFree => 5
    case CsFreeWait => 4
    case CsDestroy => 3
    case CsNull => 2
    case CsExec => 1
    case CwExec => 1
    case NoCanceller => 0
  }

  function OnTheWay(c: Call): nat { if c.queued then 2 else if c.dequeued > 0 then 1 else 0 }

  function CbStage(s: Item, t: nat): nat {
    if t !in s.cbs then 0
    else
      match s.cbs[t]
      case CbTest => 4
      case CbClear => 3
      case CbLock => 2
      case CbExit => 1
  }

  /** Some callback, if there is one. */
  ghost predicate Picked(s: Item, t: nat) { s.cbs.Keys != {} ==> t in s.cbs }

  /** Nothing but the canceller's own waits lies between it and `low`. */
  ghost predicate Clear(s: Item, low: nat) {
    Unlocked(s) || (low == 2 && s.holder.CdNative? && !s.freed && !Passed(s))
  }

  /** Less is left to be done: in the canceller, the worker, the native service, the callbacks. */
  ghost predicate Less(s': Item, u: nat, s: Item, t: nat) {
    || Stage(s'.canceller) < Stage(s.canceller)
    || (Stage(s'.canceller) == Stage(s.canceller) && s.executing && !s'.executing)
    || (Stage(s'.canceller) == Stage(s.canceller) && s'.executing == s.executing &&
        (|| OnTheWay(s'.call) < OnTheWay(s.call)
         || (OnTheWay(s'.call) == OnTheWay(s.call) &&
             (|| |s'.cbs.Keys| < |s.cbs.Keys|
              || (|s'.cbs.Keys| == |s.cbs.Keys| && CbStage(s', u) < CbStage(s, t))))))
  }

  ghost predicate Smaller(s': Item, s: Item, t: nat) {
    if Picked(s', t) then Less(s', t, s, t) else forall u :: Less(s', u, s, t)
  }

  /** The next step that takes the canceller on. */
  function Onward(s: Item, t: nat, idle: nat): Event {
    if (s.canceller.CsWait? || s.canceller.CsFreeWait?) && (s.call.pending || s.call.running > 0) then
      if s.call.queued then NativeFire
      else if s.call.dequeued > 0 then CallbackEnter(idle)
      else CallbackStep(t)
    else if (s.canceller.CsExec? || s.canceller.CwExec?) && s.executing then WorkerDone
    else CancellerStep
  }

  /** What each step of the schedule achieves. */
  ghost predicate Helpful(s: Item, e: Event, t: nat, low: nat) {
    && Enabled(s, e) && Inside(e) && !e.HolderStep?
    && var s' := Step(s, e);
       && s'.holder == s.holder && Smaller(s', s, t)
       && (Stage(s'.canceller) > low ==> Clear(s', low))
       && (s.holder.CdNative? && Stage(s'.canceller) <= low ==> s'.canceller.CsNull?)
  }

  lemma DeliveryHelps(s: Item, t: nat, low: nat)
    requires Inv(s) && Clear(s, low) && Stage(s.canceller) > low && s.call.queued
    ensures Helpful(s, NativeFire, t, low)
  {
    assert forall u, pc :: At(s, u, pc) <==> At(Step(s, NativeFire), u, pc);
  }

  lemma EntryHelps(s: Item, t: nat, idle: nat, low: nat)
    requires Inv(s) && Clear(s, low) && Stage(s.canceller) > low && !s.call.queued && s.call.dequeued > 0 && idle !in s.cbs
    ensures Helpful(s, CallbackEnter(idle), t, low)
  {
    var s' := Step(s, CallbackEnter(idle));
    assert forall u, pc :: At(s', u, pc) ==> u == idle || At(s, u, pc);
  }

  lemma CallbackHelps(s: Item, t: nat, low: nat)
    requires Inv(s) && Clear(s, low) && Stage(s.canceller) > low
    requires PastActive(s.canceller) && s.call.running > 0 && t in s.cbs
    ensures Helpful(s, CallbackStep(t), t, low)
  {
    assert At(s, t, s.cbs[t]);
    assert s.canceling;
    var s' := CallbackNext(s, t);
    CallbackKeys(s, t);
    if s.cbs[t].CbExit? {
      assert |s.cbs.Keys - {t}| < |s.cbs.Keys|;
    }
    assert forall u, pc :: At(s', u, pc) ==> u == t || At(s, u, pc);
  }

  lemma CancellerHelps(s: Item, t: nat, low: nat)
    requires Inv(s) && Clear(s, low) && Stage(s.canceller) > low
    requires s.canceller.CsWait? || s.canceller.CsFreeWait? ==> !s.call.pending && s.call.running == 0
    requires s.canceller.CsExec? || s.canceller.CwExec? ==> !s.executing
    ensures Helpful(s, CancellerStep, t, low)
  {
    CancellerKeepsCallbacks(s);
    assert forall u, pc :: At(s, u, pc) <==> At(CancellerNext(s), u, pc);
  }

  lemma WorkerHelps(s: Item, t: nat, low: nat)
    requires Inv(s) && Clear(s, low) && Stage(s.canceller) > low
    requires (s.canceller.CsExec? || s.canceller.CwExec?) && s.executing
    ensures Helpful(s, WorkerDone, t, low)
  {
  }

  lemma OnwardHelps(s: Item, t: nat, idle: nat, low: nat)
    requires Inv(s) && Clear(s, low) && Stage(s.canceller) > low
    requires Picked(s, t) && idle !in s.cbs
    ensures Helpful(s, Onward(s, t, idle), t, low) && !TouchesFreed(s, Onward(s, t, idle))
  {
    hide Clear, Helpful, TouchesFreed, LockInv, NotLost;
    var e := Onward(s, t, idle);
    match e {
    case NativeFire => DeliveryHelps(s, t, low);
    case CallbackEnter(_) => EntryHelps(s, t, idle, low);
    case CallbackStep(_) =>
      RunningPicked(s, t);
      CallbackHelps(s, t, low);
    case CancellerStep => CancellerHelps(s, t, low);
    case WorkerDone => WorkerHelps(s, t, low);
    }
    HelpfulIs(s, e, t, low);
    TouchesFreedExactly(s, e);
  }

  lemma HelpfulIs(s: Item, e: Event, t: nat, low: nat)
    requires Helpful(s, e, t, low)
    ensures Enabled(s, e) && !e.HolderStep?
  {
  }

  lemma RunningPicked(s: Item, t: nat)
    requires Inv(s) && Picked(s, t) && s.call.running > 0
    ensures t in s.cbs
  {
  }

  // ---------- schedules ----------

  lemma {:induction false} AppendRun(s: Item, a: seq<Event>, b: seq<Event>)
    requires Runs(s, a) && Defined(s, a) && Runs(Run(s, a), b) && Defined(Run(s, a), b)
    ensures Runs(s, a + b) && Defined(s, a + b) && Run(s, a + b) == Run(Run(s, a), b)
    decreases |b|
  {
    hide Step, Enabled, TouchesFreed;
    if b == [] {
      assert a + b == a;
    } else {
      AppendRun(s, a, b[..|b| - 1]);
      assert (a + b)[..|a + b| - 1] == a + b[..|b| - 1];
    }
  }

  lemma Prepend(s: Item, e: Event, es: seq<Event>) returns (fs: seq<Event>)
    requires Enabled(s, e) && !TouchesFreed(s, e) && Runs(Step(s, e), es) && Defined(Step(s, e), es)
    ensures fs == [e] + es && Runs(s, fs) && Defined(s, fs) && Run(s, fs) == Run(Step(s, e), es)
  {
    hide Step, Enabled, TouchesFreed;
    var first := Forward(s, [], e);
    AppendRun(s, first, es);
    fs := first + es;
  }

  lemma Pick(s: Item) returns (t: nat)
    ensures Picked(s, t)
  {
    if s.cbs.Keys == {} {
      t := 0;
    } else {
      t :| t in s.cbs;
    }
  }

  lemma OneStep(s: Item, t: nat, low: nat) returns (e: Event, s': Item, u: nat)
    requires Inv(s) && Picked(s, t) && Stage(s.canceller) > low && Clear(s, low)
    ensures Enabled(s, e) && !TouchesFreed(s, e) && s' == Step(s, e) && Inside(e) && !e.HolderStep?
    ensures Inv(s') && s'.holder == s.holder && Picked(s', u) && Less(s', u, s, t)
    ensures if Stage(s'.canceller) > low then Clear(s', low) else s.holder.CdNative? ==> s'.canceller.CsNull?
  {
    hide Inv, Clear, TouchesFreed, Less, Picked, Inside;
    var idle := Fresh(s.cbs.Keys);
    e := Onward(s, t, idle);
    OnwardHelps(s, t, idle, low);
    StepKeeps(s, e);
    hide Onward;
    s' := Step(s, e);
    u := t;
    if !Picked(s', t) {
      u := Pick(s');
    }
  }

  /** Without the lock's owner, the canceller gets as far as its own waits let it. */
  lemma {:induction false} CancellerFinishes(s: Item, t: nat, low: nat) returns (es: seq<Event>)
    requires Inv(s) && Picked(s, t) && (Stage(s.canceller) > low ==> Clear(s, low))
    ensures Runs(s, es) && Defined(s, es) && AllInside(es) && NoHolderStep(es)
    ensures Stage(s.canceller) <= low ==> es == []
    ensures var r := Run(s, es);
      && Inv(r) && Stage(r.canceller) <= low && r.holder == s.holder
      && (Stage(s.canceller) > low && s.holder.CdNative? ==> r.canceller.CsNull?)
    decreases Stage(s.canceller), s.executing, OnTheWay(s.call), |s.cbs.Keys|, CbStage(s, t)
  {
    hide Inv, Clear, Step, Enabled, TouchesFreed, CbStage, OnTheWay, Stage, Picked, Inside;
    if Stage(s.canceller) <= low {
      es := [];
    } else {
      var e, s', u := OneStep(s, t, low);
      var rest := CancellerFinishes(s', u, low);
      es := Prepend(s, e, rest);
    }
  }

  // ---------- a freed call ----------

  /** Without a step of the lock's owner the canceller can free the call that the owner is about to use. */
  ghost predicate CanMeet(s: Item) {
    exists es: seq<Event> :: Runs(s, es) && Defined(s, es) && NoHolderStep(es) && TouchesFreed(Run(s, es), HolderStep(true))
  }

  /** A callback that has passed its test needs the lock, so the canceller waits for it in vain. */
  ghost predicate Protected(s: Item) {
    Inv(s) && s.holder.CdNative? && !s.freed && Passed(s)
  }

  lemma ProtectedStays(s: Item, e: Event)
    requires Protected(s) && Enabled(s, e) && !e.HolderStep? && !TouchesFreed(s, e)
    ensures Protected(Step(s, e))
  {
    StepKeeps(s, e);
    var t :| At(s, t, CbClear) || At(s, t, CbLock);
    var s' := Step(s, e);
    assert s.call.running > 0;
    if e.CancellerStep? {
      CancellerKeepsCallbacks(s);
    }
    assert t in s'.cbs;
    assert At(s', t, CbClear) || At(s', t, CbLock);
  }

  lemma {:induction false} ProtectedRun(s: Item, es: seq<Event>)
    requires Protected(s) && Runs(s, es) && Defined(s, es) && NoHolderStep(es)
    ensures Protected(Run(s, es))
    decreases |es|
  {
    hide Step, Protected, Enabled, TouchesFreed;
    if es != [] {
      ProtectedRun(s, es[..|es| - 1]);
      ProtectedStays(Run(s, es[..|es| - 1]), es[|es| - 1]);
    }
  }

  /**
   While `cancel_delayed_work` is about to use the call that it has read, and a sync cancellation of
   the delayed work has not yet freed it: the call can be freed first exactly if no callback has
   passed its test of the timer flag.
   */
  lemma CancellersMeetExactly(s: Item)
    requires Inv(s) && s.holder.CdNative? && !s.freed && Stage(s.canceller) >= Stage(CsDestroy)
    ensures CanMeet(s) <==> !Passed(s)
  {
    if Passed(s) {
      forall es: seq<Event> | Runs(s, es) && Defined(s, es) && NoHolderStep(es)
        ensures !TouchesFreed(Run(s, es), HolderStep(true))
      {
        ProtectedRun(s, es);
        hide Run, Runs, Defined;
      }
    } else {
      var t := Pick(s);
      var es := CancellerFinishes(s, t, Stage(CsNull));
      hide Run, Runs, Defined;
      assert TouchesFreed(Run(s, es), HolderStep(true));
    }
  }

  // ---------- the return ----------

  ghost predicate CanReturn(s: Item) {
    exists es: seq<Event> :: Runs(s, es) && Defined(s, es) && AllInside(es) && Run(s, es).canceller.NoCanceller?
  }

  /** The lock's owner can only go on by using a freed call. */
  ghost predicate Doomed(s: Item) { s.holder.CdNative? && s.freed }

  lemma DoomedStays(s: Item, e: Event)
    requires Inv(s) && Doomed(s) && !s.canceller.NoCanceller? && Enabled(s, e) && !TouchesFreed(s, e)
    ensures Doomed(Step(s, e)) && !Step(s, e).canceller.NoCanceller?
  {
  }

  lemma {:induction false} DoomedRun(s: Item, es: seq<Event>)
    requires Inv(s) && Doomed(s) && !s.canceller.NoCanceller? && Runs(s, es) && Defined(s, es)
    ensures Inv(Run(s, es)) && Doomed(Run(s, es)) && !Run(s, es).canceller.NoCanceller?
    decreases |es|
  {
    hide Inv, Step, Doomed, Enabled, TouchesFreed;
    if es != [] {
      DoomedRun(s, es[..|es| - 1]);
      DoomedStays(Run(s, es[..|es| - 1]), es[|es| - 1]);
      StepKeeps(Run(s, es[..|es| - 1]), es[|es| - 1]);
    }
  }

  function Held(h: Holder): nat { if h.Nobody? then 0 else if h.CdActive? then 1 else if h.CdNative? then 2 else 3 }

  /** The lock's owner goes on; if the call has just been freed, the canceller first clears the pointer to it. */
  function LettingGo(s: Item): Event {
    if s.holder.CdRead? && s.canceller.CsNull? then CancellerStep else HolderStep(true)
  }

  lemma LettingGoHelps(s: Item)
    requires Inv(s) && !s.canceller.NoCanceller? && !Doomed(s) && !Unlocked(s)
    ensures Enabled(s, LettingGo(s)) && !TouchesFreed(s, LettingGo(s))
    ensures var s' := Step(s, LettingGo(s));
      && !s'.canceller.NoCanceller? && !Doomed(s')
      && (Held(s'.holder) < Held(s.holder) || (s'.holder == s.holder && Stage(s'.canceller) < Stage(s.canceller)))
  {
    TouchesFreedExactly(s, LettingGo(s));
  }

  lemma {:induction false} LockIsLetGo(s: Item) returns (es: seq<Event>)
    requires Inv(s) && !s.canceller.NoCanceller? && !Doomed(s)
    ensures Runs(s, es) && Defined(s, es) && AllInside(es)
    ensures Inv(Run(s, es)) && !Run(s, es).canceller.NoCanceller? && Unlocked(Run(s, es))
    decreases Held(s.holder), Stage(s.canceller)
  {
    hide Inv, Step, Doomed, Enabled, TouchesFreed, Held, Stage;
    if Unlocked(s) {
      es := [];
    } else {
      LettingGoHelps(s);
      StepKeeps(s, LettingGo(s));
      var rest := LockIsLetGo(Step(s, LettingGo(s)));
      es := Prepend(s, LettingGo(s), rest);
    }
  }

  /**
   A sync cancellation under way can be brought to its return by the steps of the system alone,
   unless the lock's owner can only go on by using a freed call; then no defined run returns it.
   */
  lemma CancelCanReturnExactly(s: Item)
    requires Inv(s) && !s.canceller.NoCanceller?
    ensures CanReturn(s) <==> !Doomed(s)
  {
    hide Inv, Step, Enabled, TouchesFreed;
    if Doomed(s) {
      hide Doomed;
      forall es: seq<Event> | Runs(s, es) && Defined(s, es) ensures !Run(s, es).canceller.NoCanceller? {
        DoomedRun(s, es);
      }
    } else {
      hide Doomed;
      var first := LockIsLetGo(s);
      var m := Run(s, first);
      var t := Pick(m);
      var rest := CancellerFinishes(m, t, 0);
      AppendRun(s, first, rest);
      assert AllInside(first + rest);
    }
  }
}
