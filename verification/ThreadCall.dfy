/**
 Cancellable calls on top of the native thread-call service.  `Call` is the record guarded
 by its lock together with the native object; each function below is one lock section.
 */
module ThreadCall {
  /** `queued`: submitted natively; `dequeued`: taken by native threads that have not entered the trampoline. */
  datatype Call = Call(pending: bool, canceling: bool, running: nat, queued: bool, dequeued: nat)

  const IDLE_CALL := Call(false, false, 0, false, 0)

  datatype Answer = Answer(call: Call, result: bool)

  /** Native cancellation succeeds only on an instance that is still queued. */
  function NativeCancel(c: Call): Answer {
    Answer(c.(queued := false), c.queued)
  }

  function Submit(c: Call, delayed: bool): Answer {
    var already := c.pending || c.canceling;
    var n := if !c.canceling && c.pending && delayed then NativeCancel(c) else Answer(c, false);
    var submit := (!c.canceling && !c.pending) || n.result;
    if submit then Answer(n.call.(pending := true, queued := true), already)
    else Answer(n.call, already)
  }

  function Cancel(c: Call): Answer {
    var n := NativeCancel(c);
    if n.result then Answer(n.call.(pending := false), true) else n
  }

  function CancelWaitBegin(c: Call): Answer {
    Cancel(c.(canceling := true))
  }

  /** One test of the wait loop: `result` says that the loop is left. */
  function CancelWaitTest(c: Call): Answer {
    if c.pending || c.running > 0 then Answer(c, false) else Answer(c.(canceling := false), true)
  }

  function Dequeue(c: Call): Call
    requires c.queued
  {
    c.(queued := false, dequeued := c.dequeued + 1)
  }

  /** A dequeued instance enters the trampoline; `result` says whether it will run the callback. */
  function Enter(c: Call): Answer
    requires c.dequeued > 0
  {
    Answer(c.(pending := false, running := c.running + 1, dequeued := c.dequeued - 1), !c.canceling)
  }

  function Exit(c: Call): Call
    requires c.running > 0
  {
    c.(running := c.running - 1)
  }

  /** `pending` holds exactly when one native instance is queued or dequeued but not entered. */
  ghost predicate CallInv(c: Call) {
    (if c.queued then 1 else 0) + c.dequeued == if c.pending then 1 else 0
  }

  /**
   A submission is turned down while a canceller waits, and then changes nothing.  Otherwise one
   instance is pending after it, the one before if there was one, and queued anew if it was still
   queued or if there was none.  The result says whether it was pending or turned down.
   */
  lemma SubmissionPends(c: Call, delayed: bool)
    requires CallInv(c)
    ensures var a := Submit(c, delayed);
      && CallInv(a.call) && (a.result <==> c.pending || c.canceling)
      && (c.canceling ==> a.call == c)
      && (!c.canceling ==> a.call == c.(pending := true, queued := a.call.queued) && (a.call.queued <==> c.queued || !c.pending))
  {
  }

  /** Both cancellations take back an instance exactly if it is still queued, and report that. */
  lemma CancellationTakesBack(c: Call)
    requires CallInv(c)
    ensures var a := Cancel(c);
      CallInv(a.call) && (a.result <==> c.queued) && a.call == c.(queued := false, pending := c.pending && !c.queued)
    ensures CancelWaitBegin(c) == Answer(Cancel(c).call.(canceling := true), c.queued)
  {
  }

  /** A dequeued instance runs its callback exactly if no canceller waits at that moment, and from then on it can be submitted anew. */
  lemma DispatchRunsUnlessCancelled(c: Call)
    requires CallInv(c) && c.dequeued > 0
    ensures var a := Enter(c);
      CallInv(a.call) && (a.result <==> !c.canceling) && !a.call.pending && !a.call.queued && a.call.dequeued == 0
      && a.call.running == c.running + 1 && a.call.canceling == c.canceling
  {
  }

  // ---------- the record as an object ----------

  class RtwCall {
    var pending: bool
    var canceling: bool
    var running: nat
    var nativeQueued: bool
    var nativeDequeued: nat

    function State(): Call
      reads this
    {
      Call(pending, canceling, running, nativeQueued, nativeDequeued)
    }

    /** Between sections: one native instance is queued or dequeued exactly while the call is pending. */
    ghost predicate Valid()
      reads this
    {
      CallInv(State())
    }

    constructor ()
      ensures Valid() && State() == IDLE_CALL
    {
      pending, canceling, running, nativeQueued, nativeDequeued := false, false, 0, false, 0;
    }

    method NativeThreadCallCancel() returns (canceled: bool)
      modifies this`nativeQueued
      ensures Answer(State(), canceled) == NativeCancel(old(State()))
    {
      canceled := nativeQueued;
      nativeQueued := false;
    }

    method CallSubmit(delayed: bool) returns (already: bool)
      requires Valid()
      modifies this
      ensures Valid() && Answer(State(), already) == Submit(old(State()), delayed)
    {
      already := pending || canceling;
      var submit := !canceling && !pending;
      if !canceling && pending && delayed {
        submit := NativeThreadCallCancel();
      }
      if submit {
        pending := true;
        nativeQueued := true;
      }
    }

    method ThreadCallCancel() returns (canceled: bool)
      requires Valid()
      modifies this
      ensures Valid() && Answer(State(), canceled) == Cancel(old(State()))
    {
      canceled := NativeThreadCallCancel();
      if canceled {
        pending := false;
      }
    }

    /** `rtw88_thread_call_cancel_wait` up to the first test of its loop. */
    method ThreadCallCancelWaitBegin() returns (canceled: bool)
      requires Valid()
      modifies this
      ensures Valid() && Answer(State(), canceled) == CancelWaitBegin(old(State()))
    {
      canceling := true;
      canceled := NativeThreadCallCancel();
      if canceled {
        pending := false;
      }
    }

    method ThreadCallCancelWaitTest() returns (done: bool)
      requires Valid()
      modifies this
      ensures Valid() && Answer(State(), done) == CancelWaitTest(old(State()))
    {
      if pending || running > 0 {
        done := false;   // IOLockSleep
      } else {
        canceling := false;
        done := true;
      }
    }

    method CallDispatchEnter() returns (execute: bool)
      requires Valid() && nativeDequeued > 0
      modifies this
      ensures Valid() && Answer(State(), execute) == Enter(old(State()))
    {
      nativeDequeued := nativeDequeued - 1;
      pending := false;
      running := running + 1;
      execute := !canceling;
    }

    method CallDispatchExit()
      requires Valid() && running > 0
      modifies this
      ensures Valid() && State() == Exit(old(State()))
    {
      running := running - 1;
    }
  }
}

/** The system around one call: any number of submitters, cancellers and concurrent dispatches. */
module ThreadCallRuns {
  import opened ThreadCall

  /** Program counters: `Waiting` is about to test its wait loop, `Sleeping` needs a wakeup first. */
  datatype Pc = Idle | Waiting | Sleeping | Entered(execute: bool)

  /** `accepted`, `removed` and `entered` count native submissions, native cancellations and dispatches. */
  datatype System = System(call: Call, pcs: map<nat, Pc>, accepted: nat, removed: nat, entered: nat)

  datatype Event =
    | DoSubmit(delayed: bool)
    | DoCancel
    | DoCancelWait(t: nat)
    | DoTest(t: nat)
    | DoDequeue
    | DoEnter(t: nat)
    | DoExit(t: nat)

  ghost predicate At(s: System, t: nat, pc: Pc) { t in s.pcs && s.pcs[t] == pc }

  ghost predicate Free(s: System, t: nat) { t in s.pcs ==> s.pcs[t] == Idle }

  ghost predicate Enabled(s: System, e: Event) {
    match e
    case DoSubmit(_) => true
    case DoCancel => true
    case DoCancelWait(t) => Free(s, t)
    case DoTest(t) => At(s, t, Waiting)
    case DoDequeue => s.call.queued
    case DoEnter(t) => Free(s, t) && s.call.dequeued > 0
    case DoExit(t) => t in s.pcs && s.pcs[t].Entered? && s.call.running > 0
  }

  /** `IOLockWakeup` on the call: every sleeper goes back to its test. */
  ghost function Wake(pcs: map<nat, Pc>): map<nat, Pc> {
    map t | t in pcs :: if pcs[t] == Sleeping then Waiting else pcs[t]
  }

  /** Native submissions that `Submit` made, and instances it took back to retime them. */
  function Accepts(c: Call, delayed: bool): nat {
    if c.canceling then 0 else if !c.pending then 1 else if delayed && c.queued then 1 else 0
  }

  function Retimes(c: Call, delayed: bool): nat {
    if !c.canceling && c.pending && delayed && c.queued then 1 else 0
  }

  ghost function Step(s: System, e: Event): System
    requires Enabled(s, e)
  {
    match e
    case DoSubmit(delayed) =>
      s.(call := Submit(s.call, delayed).call,
         accepted := s.accepted + Accepts(s.call, delayed),
         removed := s.removed + Retimes(s.call, delayed))
    case DoCancel =>
      s.(call := Cancel(s.call).call, pcs := Wake(s.pcs), removed := s.removed + if s.call.queued then 1 else 0)
    case DoCancelWait(t) =>
      s.(call := CancelWaitBegin(s.call).call, pcs := s.pcs[t := Waiting],
         removed := s.removed + if s.call.queued then 1 else 0)
    case DoTest(t) =>
      var a := CancelWaitTest(s.call);
      s.(call := a.call, pcs := s.pcs[t := if a.result then Idle else Sleeping])
    case DoDequeue => s.(call := Dequeue(s.call))
    case DoEnter(t) =>
      var a := Enter(s.call);
      s.(call := a.call, pcs := s.pcs[t := Entered(a.result)], entered := s.entered + 1)
    case DoExit(t) =>
      s.(call := Exit(s.call), pcs := Wake(s.pcs[t := Idle]))
  }

  ghost function EnteredSet(pcs: map<nat, Pc>): set<nat> {
    set t | t in pcs && pcs[t].Entered?
  }

  ghost predicate Inv(s: System) {
    && CallInv(s.call)
    && s.call.running == |EnteredSet(s.pcs)|
    && s.accepted == s.removed + s.entered + if s.call.pending then 1 else 0
  }

  lemma EnteredChange(pcs: map<nat, Pc>, t: nat, pc: Pc)
    ensures !pc.Entered? && t in EnteredSet(pcs) ==> |EnteredSet(pcs[t := pc])| == |EnteredSet(pcs)| - 1
    ensures pc.Entered? && t !in EnteredSet(pcs) ==> |EnteredSet(pcs[t := pc])| == |EnteredSet(pcs)| + 1
    ensures (pc.Entered? <==> t in EnteredSet(pcs)) ==> EnteredSet(pcs[t := pc]) == EnteredSet(pcs)
  {
    var s, s' := EnteredSet(pcs), EnteredSet(pcs[t := pc]);
    assert s' == if pc.Entered? then s + {t} else s - {t};
  }

  lemma StepKeeps(s: System, e: Event)
    requires Inv(s) && Enabled(s, e)
    ensures Inv(Step(s, e))
  {
    match e
    case DoCancelWait(t) => EnteredChange(s.pcs, t, Waiting);
    case DoTest(t) => EnteredChange(s.pcs, t, if CancelWaitTest(s.call).result then Idle else Sleeping);
    case DoEnter(t) => EnteredChange(s.pcs, t, Entered(Enter(s.call).result));
    case DoExit(t) =>
      EnteredChange(s.pcs, t, Idle);
      assert EnteredSet(Wake(s.pcs[t := Idle])) == EnteredSet(s.pcs[t := Idle]);
    case DoCancel => assert EnteredSet(Wake(s.pcs)) == EnteredSet(s.pcs);
    case _ =>
  }

  // ---------- runs ----------

  const START := System(IDLE_CALL, map[], 0, 0, 0)

  ghost predicate Runs(es: seq<Event>) {
    es == [] || (Runs(es[..|es| - 1]) && Enabled(Run(es[..|es| - 1]), es[|es| - 1]))
  }

  ghost function Run(es: seq<Event>): System {
    if es == [] then START
    else
      var p := Run(es[..|es| - 1]);
      if Enabled(p, es[|es| - 1]) then Step(p, es[|es| - 1]) else p
  }

  /**
   In every reachable state `pending` holds exactly when one native instance is queued or
   dequeued but not entered, `running` counts the entered dispatches, and every accepted
   submission has been cancelled, has entered, or is that one instance.
   */
  lemma {:induction false} PendingMeansOneInstance(es: seq<Event>)
    requires Runs(es)
    ensures Inv(Run(es))
    decreases |es|
  {
    if es == [] {
      assert EnteredSet(START.pcs) == {};
    } else {
      PendingMeansOneInstance(es[..|es| - 1]);
      StepKeeps(Run(es[..|es| - 1]), es[|es| - 1]);
    }
  }

  /** Whatever the number of cancellers, a wait that returns leaves nothing queued, dequeued or running. */
  lemma CancelWaitMeansQuiet(es: seq<Event>, t: nat)
    requires Runs(es + [DoTest(t)])
    requires At(Run(es + [DoTest(t)]), t, Idle)
    ensures var s := Run(es + [DoTest(t)]);
      && !s.call.queued && s.call.dequeued == 0 && s.call.running == 0
      && (forall u :: u in s.pcs ==> !s.pcs[u].Entered?)
      && s.accepted == s.removed + s.entered
  {
    var fs := es + [DoTest(t)];
    assert fs[..|fs| - 1] == es;
    PendingMeansOneInstance(es);
    PendingMeansOneInstance(fs);
    var s := Run(fs);
    assert s.call.running == 0;
    forall u | u in s.pcs
      ensures !s.pcs[u].Entered?
    {
      assert EnteredSet(s.pcs) == {};
      assert u !in EnteredSet(s.pcs);
    }
  }

  // ---------- wakeups ----------

  ghost predicate Cancelling(s: System, t: nat) {
    t in s.pcs && (s.pcs[t] == Waiting || s.pcs[t] == Sleeping)
  }

  /** No canceller starts while another one waits. */
  ghost predicate OneAtATime(es: seq<Event>) {
    es == [] ||
    var e, s := es[|es| - 1], Run(es[..|es| - 1]);
    OneAtATime(es[..|es| - 1]) && (e.DoCancelWait? ==> forall u :: !Cancelling(s, u))
  }

  /** Somebody sleeps although there is nothing to wait for: only a later wake-up could help. */
  ghost predicate Stranded(s: System) {
    !s.call.pending && s.call.running == 0 && exists t :: At(s, t, Sleeping)
  }

  /** A second canceller takes the queued instance back under a sleeper, and wakes nobody. */
  ghost predicate Strands(s: System, e: Event) {
    e.DoCancelWait? && s.call.queued && s.call.running == 0 && exists u :: u != e.t && At(s, u, Sleeping)
  }

  /** A step strands a sleeper exactly when it is such a cancellation. */
  lemma StrandsExactly(s: System, e: Event)
    requires Inv(s) && Enabled(s, e) && !Stranded(s)
    ensures Stranded(Step(s, e)) <==> Strands(s, e)
  {
    var s' := Step(s, e);
    if Stranded(s') {
      var t :| At(s', t, Sleeping);
      assert At(s, t, Sleeping);
    }
    if Strands(s, e) {
      var u :| u != e.t && At(s, u, Sleeping);
      assert At(s', u, Sleeping);
    }
  }

  /** At the end of the run or of some prefix of it. */
  ghost predicate EverStranded(es: seq<Event>) {
    Stranded(Run(es)) || (es != [] && EverStranded(es[..|es| - 1]))
  }

  ghost predicate EverStrands(es: seq<Event>) {
    es != [] && (Strands(Run(es[..|es| - 1]), es[|es| - 1]) || EverStrands(es[..|es| - 1]))
  }

  /** Over a whole run a sleeper is left stranded exactly if such a cancellation happens in it. */
  lemma {:induction false} WakeupLostExactly(es: seq<Event>)
    requires Runs(es)
    ensures EverStranded(es) <==> EverStrands(es)
    decreases |es|
  {
    if es != [] {
      var before := es[..|es| - 1];
      WakeupLostExactly(before);
      if !EverStranded(before) {
        PendingMeansOneInstance(before);
        StrandsExactly(Run(before), es[|es| - 1]);
      }
    }
  }

  ghost predicate OneCanceller(s: System) {
    && (forall t, u :: Cancelling(s, t) && Cancelling(s, u) ==> t == u)
    && (forall t :: Cancelling(s, t) ==> s.call.canceling)
    && (forall t :: Cancelling(s, t) ==> !s.call.queued)
  }

  lemma {:induction false} OneAtATimeKeeps(es: seq<Event>)
    requires Runs(es) && OneAtATime(es)
    ensures OneCanceller(Run(es)) && !EverStrands(es)
    decreases |es|
  {
    if es != [] {
      var n := |es| - 1;
      OneAtATimeKeeps(es[..n]);
      OneCancellerStep(Run(es[..n]), es[n]);
      assert forall u :: At(Run(es[..n]), u, Sleeping) ==> Cancelling(Run(es[..n]), u);
    }
  }

  lemma OneCancellerStep(s: System, e: Event)
    requires OneCanceller(s) && Enabled(s, e)
    requires e.DoCancelWait? ==> forall u :: !Cancelling(s, u)
    ensures OneCanceller(Step(s, e))
  {
    var s' := Step(s, e);
    forall u | Cancelling(s', u)
      ensures Cancelling(s, u) || (e.DoCancelWait? && u == e.t)
    {
    }
    if e.DoTest? {
      assert Cancelling(s, e.t);
      assert forall u :: Cancelling(s', u) ==> u == e.t;
    }
  }

  /** With one canceller at a time, a canceller sleeps only while there is something to wait for, ever. */
  lemma NoLostWakeup(es: seq<Event>)
    requires Runs(es) && OneAtATime(es)
    ensures !EverStranded(es) && OneCanceller(Run(es))
    ensures forall t :: At(Run(es), t, Sleeping) ==> Run(es).call.pending || Run(es).call.running > 0
  {
    OneAtATimeKeeps(es);
    WakeupLostExactly(es);
  }

  /**
   With two cancellers a wakeup can be lost: canceller 2 sleeps on a later submission, and a
   third wait removes that submission without waking anybody.
   */
  lemma TwoCancellersCanSleepForever() returns (es: seq<Event>)
    ensures Runs(es) && !OneAtATime(es)
    ensures var s := Run(es);
      && At(s, 2, Sleeping)
      && !s.call.pending && s.call.running == 0
  {
    es := Extend([], DoCancelWait(1));
    assert Cancelling(Run(es), 1);
    es := Extend(es, DoCancelWait(2));
    es := Extend(es, DoTest(1));
    es := Extend(es, DoSubmit(false));
    es := Extend(es, DoTest(2));
    es := Extend(es, DoCancelWait(1));
  }

  lemma Extend(es: seq<Event>, e: Event) returns (fs: seq<Event>)
    requires Runs(es) && Enabled(Run(es), e)
    ensures fs == es + [e] && Runs(fs) && Run(fs) == Step(Run(es), e)
    ensures OneAtATime(fs) <==> OneAtATime(es) && (e.DoCancelWait? ==> forall u :: !Cancelling(Run(es), u))
  {
    fs := es + [e];
    assert fs[..|fs| - 1] == es;
  }
}
