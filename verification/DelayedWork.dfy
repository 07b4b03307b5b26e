/**
 One delayed work item with its timer and its cancellable call, under any number of threads.
 A section under the state lock that touches nothing else is one step.  Operations that keep
 the lock across accesses to the unlocked timer flag or the call, or that run outside the
 lock, are split at each access: `holder` is where the lock's owner stands, `canceller`
 where the item's one sync canceller stands, `cbs` where each dispatched callback stands.
 */
module DelayedWork {
  import opened ThreadCall

  datatype Holder =
    | Nobody
    | QdAlloc | QdActive | QdSubmit | QdFinish   // queue_delayed_work
    | CdRead | CdNative | CdActive               // cancel_delayed_work

  datatype Canceller =
    | NoCanceller
    | CsActive | CsBegin | CsWait | CsFree | CsFreeWait | CsDestroy | CsNull | CsExec   // cancel_delayed_work_sync
    | CwExec                                                                           // cancel_work_sync

  datatype Callback = CbTest | CbClear | CbLock | CbExit   // timer_call_fn, and the timer function

  /**
   `pending`: 0 none, 1 on queue `wq`, 2 waiting for the timer; `live`: the queues still running.
   `hasCall`: the timer points to its call; `freed`: the call it was given last has been freed.
   */
  datatype Item = Item(
    pending: nat, wq: nat, canceling: bool, executing: bool, live: set<nat>,
    active: bool, hasCall: bool, freed: bool, call: Call,
    holder: Holder, canceller: Canceller, cbs: map<nat, Callback>)

  datatype Event =
    | QueueDelayed(q: nat)
    | CancelDelayed
    | CancelDelayedSync
    | CancelWorkSync
    | QueueWork(q: nat)
    | WorkerTake
    | WorkerDone
    | StopQueue(q: nat)
    | NativeFire
    | CallbackEnter(t: nat)
    | HolderStep(allocOk: bool)
    | CancellerStep
    | CallbackStep(t: nat)

  predicate Unlocked(s: Item) { s.holder.Nobody? }

  ghost predicate Enabled(s: Item, e: Event) {
    match e
    case QueueDelayed(_) => Unlocked(s)
    case CancelDelayed => Unlocked(s)
    case CancelDelayedSync => Unlocked(s) && s.canceller.NoCanceller?
    case CancelWorkSync => Unlocked(s) && s.canceller.NoCanceller?
    case QueueWork(_) => Unlocked(s)
    case WorkerTake => Unlocked(s) && s.pending == 1 && !s.executing
    case WorkerDone => Unlocked(s) && s.executing
    case StopQueue(_) => Unlocked(s)
    case NativeFire => s.call.queued
    case CallbackEnter(t) => t !in s.cbs && s.call.dequeued > 0
    case HolderStep(_) => !s.holder.Nobody?
    case CancellerStep => !s.canceller.NoCanceller? && (s.canceller.CsExec? || s.canceller.CwExec? ==> Unlocked(s))
    case CallbackStep(t) => t in s.cbs && (s.cbs[t].CbLock? ==> Unlocked(s)) && (s.cbs[t].CbExit? ==> s.call.running > 0)
  }

  /** `queue_work_locked`. */
  function QueueLocked(s: Item, q: nat): (r: Item)
    ensures r.cbs == s.cbs && r.call == s.call
  {
    if q !in s.live || s.pending != 0 || s.canceling then s
    else if s.executing && s.wq != q then s
    else s.(wq := q, pending := 1)
  }

  function HolderNext(s: Item, allocOk: bool): Item {
    match s.holder
    case Nobody => s
    case QdAlloc =>
      if s.hasCall then s.(holder := QdActive)
      else if allocOk then s.(hasCall := true, freed := false, call := IDLE_CALL, holder := QdActive)
      else s.(holder := QdFinish)
    case QdActive => s.(active := true, holder := QdSubmit)
    case QdSubmit => s.(call := Submit(s.call, true).call, holder := QdFinish)
    case QdFinish => s.(pending := if s.hasCall then s.pending else 0, holder := Nobody)
    case CdRead => s.(holder := if s.hasCall then CdNative else CdActive)
    case CdNative => s.(call := Cancel(s.call).call, holder := CdActive)
    case CdActive => s.(active := false, holder := Nobody)
  }

  function CancellerNext(s: Item): Item {
    match s.canceller
    case NoCanceller => s
    case CsActive => s.(active := false, canceller := CsBegin)
    case CsBegin => if s.hasCall then s.(call := CancelWaitBegin(s.call).call, canceller := CsWait) else s.(canceller := CsExec)
    case CsWait =>
      var a := CancelWaitTest(s.call);
      s.(call := a.call, canceller := if a.result then CsFree else CsWait)
    case CsFree => s.(call := CancelWaitBegin(s.call).call, canceller := CsFreeWait)
    case CsFreeWait =>
      var a := CancelWaitTest(s.call);
      s.(call := a.call, canceller := if a.result then CsDestroy else CsFreeWait)
    case CsDestroy => s.(freed := true, canceller := CsNull)
    case CsNull => s.(hasCall := false, canceller := CsExec)
    case CsExec => if s.executing then s else s.(canceling := false, canceller := NoCanceller)
    case CwExec => if s.executing then s else s.(canceling := false, canceller := NoCanceller)
  }

  function CallbackNext(s: Item, t: nat): Item
    requires t in s.cbs && (s.cbs[t].CbExit? ==> s.call.running > 0)
  {
    match s.cbs[t]
    case CbTest => s.(cbs := s.cbs[t := if s.active then CbClear else CbExit])
    case CbClear => s.(active := false, cbs := s.cbs[t := CbLock])
    case CbLock =>
      var n := if s.pending == 2 then QueueLocked(s.(pending := 0), s.wq) else s;
      n.(cbs := s.cbs[t := CbExit])
    case CbExit => s.(call := Exit(s.call), cbs := s.cbs - {t})
  }

  ghost function Step(s: Item, e: Event): Item
    requires Enabled(s, e)
  {
    match e
    case QueueDelayed(q) =>
      if q !in s.live || s.pending != 0 || s.canceling || (s.executing && s.wq != q) then s
      else s.(wq := q, pending := 2, holder := QdAlloc)
    case CancelDelayed => s.(pending := 0, holder := CdRead)
    case CancelDelayedSync => s.(canceling := true, pending := 0, canceller := CsActive)
    case CancelWorkSync => s.(canceling := true, pending := 0, canceller := CwExec)
    case QueueWork(q) => QueueLocked(s, q)
    case WorkerTake => s.(pending := 0, executing := true)
    case WorkerDone => s.(executing := false)
    case StopQueue(q) => s.(live := s.live - {q})
    case NativeFire => s.(call := Dequeue(s.call))
    case CallbackEnter(t) =>
      var a := Enter(s.call);
      s.(call := a.call, cbs := s.cbs[t := if a.result then CbTest else CbExit])
    case HolderStep(ok) => HolderNext(s, ok)
    case CancellerStep => CancellerNext(s)
    case CallbackStep(t) => CallbackNext(s, t)
  }

  /** The step reads or writes the record of a call that has been freed. */
  ghost predicate TouchesFreed(s: Item, e: Event) {
    s.freed &&
    match e
    case HolderStep(_) => s.holder.CdNative? || s.holder.QdSubmit?
    case CancellerStep => (s.canceller.CsBegin? && s.hasCall) || s.canceller.CsWait? || s.canceller.CsFree? || s.canceller.CsFreeWait? || s.canceller.CsDestroy?
    case NativeFire => true
    case CallbackEnter(_) => true
    case CallbackStep(t) => t in s.cbs && s.cbs[t].CbExit?
    case _ => false
  }

  // ---------- the invariant ----------

  ghost predicate At(s: Item, t: nat, pc: Callback) { t in s.cbs && s.cbs[t] == pc }

  /** A callback has passed its test of the timer flag and not yet taken the state lock. */
  ghost predicate Passed(s: Item) { exists t :: At(s, t, CbClear) || At(s, t, CbLock) }

  /** A callback is queued, dequeued, or entered and not yet past its test. */
  ghost predicate Underway(s: Item) { s.call.pending || exists t :: At(s, t, CbTest) }

  /** Something will move the accepted work item. */
  ghost predicate Witnessed(s: Item) { (s.active && Underway(s)) || Passed(s) }

  predicate Queueing(h: Holder) { h.QdAlloc? || h.QdActive? || h.QdSubmit? || h.QdFinish? }

  ghost predicate LockInv(s: Item) {
    && (Queueing(s.holder) ==> s.pending == 2 && !s.canceling)
    && (s.holder.CdRead? || s.holder.CdNative? || s.holder.CdActive? ==> s.pending == 0)
    && (s.holder.QdActive? || s.holder.QdSubmit? ==> s.hasCall)
    && (s.canceling <==> !s.canceller.NoCanceller?)
    && (s.canceling ==> s.pending == 0)
    && (PastActive(s.canceller) ==> !s.active)
  }

  /** `cancel_delayed_work_sync` has switched the timer off. */
  predicate PastActive(c: Canceller) {
    c.CsBegin? || c.CsWait? || c.CsFree? || c.CsFreeWait? || c.CsDestroy? || c.CsNull? || c.CsExec?
  }

  ghost predicate CallOk(s: Item) {
    && CallInv(s.call)
    && (!s.hasCall ==> s.call == IDLE_CALL)
    && (s.call.canceling ==> s.canceller.CsWait? || s.canceller.CsFreeWait?)
    && (s.canceller.CsWait? || s.canceller.CsFree? || s.canceller.CsFreeWait? || s.canceller.CsDestroy? || s.canceller.CsNull? ==> s.hasCall)
    && (s.canceller.CsDestroy? || s.canceller.CsNull? ==> s.call == IDLE_CALL)
    && (s.canceller.CsExec? ==> !s.hasCall)
    && (s.hasCall && s.freed <==> s.canceller.CsNull?)
    && (s.holder.CdNative? && !s.freed ==> s.hasCall)
  }

  ghost predicate CountOk(s: Item) { s.call.running == |s.cbs.Keys| }

  /** No accepted delayed work is lost, also while its submission is still in progress. */
  ghost predicate NotLost(s: Item) {
    s.pending == 2 ==>
      match s.holder
      case QdAlloc => true
      case QdActive => true
      case QdSubmit => s.active || Passed(s)
      case QdFinish => s.hasCall ==> Witnessed(s)
      case _ => Witnessed(s)
  }

  ghost predicate Inv(s: Item) {
    LockInv(s) && CallOk(s) && CountOk(s) && NotLost(s)
  }

  lemma HolderKeepsLock(s: Item, ok: bool)
    requires LockInv(s)
    ensures LockInv(HolderNext(s, ok))
  {
  }

  lemma CancellerKeepsLock(s: Item)
    requires LockInv(s) && CallOk(s)
    requires s.canceller.CsExec? || s.canceller.CwExec? ==> Unlocked(s)
    ensures LockInv(CancellerNext(s))
  {
    hide CallInv;
  }

  lemma LockKeeps(s: Item, e: Event)
    requires LockInv(s) && CallOk(s) && Enabled(s, e)
    ensures LockInv(Step(s, e))
  {
    hide HolderNext, CancellerNext, CallInv, Submit;
    match e
    case HolderStep(ok) => HolderKeepsLock(s, ok);
    case CancellerStep => CancellerKeepsLock(s);
    case _ =>
  }

  lemma HolderKeepsCall(s: Item, ok: bool)
    requires LockInv(s) && CallOk(s) && !TouchesFreed(s, HolderStep(ok))
    ensures CallOk(HolderNext(s, ok))
  {
  }

  lemma CancellerKeepsCall(s: Item)
    requires LockInv(s) && CallOk(s)
    ensures CallOk(CancellerNext(s))
  {
  }

  lemma CallKeeps(s: Item, e: Event)
    requires LockInv(s) && CallOk(s) && Enabled(s, e) && !TouchesFreed(s, e)
    ensures CallOk(Step(s, e))
  {
    hide HolderNext, CancellerNext;
    match e
    case HolderStep(ok) => HolderKeepsCall(s, ok);
    case CancellerStep => CancellerKeepsCall(s);
    case CallbackStep(t) => CallbackKeepsCall(s, t);
    case _ => hide CallbackNext;
  }

  lemma CallbackKeepsCall(s: Item, t: nat)
    requires LockInv(s) && CallOk(s) && Enabled(s, CallbackStep(t)) && !TouchesFreed(s, CallbackStep(t))
    ensures CallOk(CallbackNext(s, t))
  {
  }

  lemma HolderKeepsCallbacks(s: Item, ok: bool)
    requires !s.hasCall ==> s.call == IDLE_CALL
    ensures HolderNext(s, ok).cbs == s.cbs && HolderNext(s, ok).call.running == s.call.running
  {
    hide Submit, Cancel;
    SubmitKeepsRunning(s.call);
  }

  lemma SubmitKeepsRunning(c: Call)
    ensures Submit(c, true).call.running == c.running && Cancel(c).call.running == c.running
  {
  }

  lemma CancellerKeepsCallbacks(s: Item)
    ensures CancellerNext(s).cbs == s.cbs && CancellerNext(s).call.running == s.call.running
  {
    hide CancellerNext;
    CancellerKeepsSet(s);
    CancellerKeepsRunning(s);
  }

  lemma CancellerKeepsSet(s: Item)
    ensures CancellerNext(s).cbs == s.cbs
  {
    hide CancelWaitBegin, CancelWaitTest;
  }

  lemma CancellerKeepsRunning(s: Item)
    ensures CancellerNext(s).call.running == s.call.running
  {
    WaitKeepsRunning(s.call);
    hide CancelWaitBegin, CancelWaitTest;
  }

  lemma WaitKeepsRunning(c: Call)
    ensures CancelWaitBegin(c).call.running == c.running && CancelWaitTest(c).call.running == c.running
  {
  }

  lemma CountKeeps(s: Item, e: Event)
    requires CallOk(s) && CountOk(s) && Enabled(s, e)
    ensures CountOk(Step(s, e))
  {
    hide CallInv, HolderNext, CancellerNext, CallbackNext;
    match e
    case CallbackEnter(t) =>
      assert Step(s, e).cbs.Keys == s.cbs.Keys + {t};
    case CallbackStep(t) => CallbackCount(s, t);
    case HolderStep(ok) => HolderKeepsCallbacks(s, ok);
    case CancellerStep => CancellerKeepsCallbacks(s);
    case _ =>
  }

  lemma CallbackCount(s: Item, t: nat)
    requires CountOk(s) && Enabled(s, CallbackStep(t))
    ensures CountOk(CallbackNext(s, t))
  {
    CallbackKeys(s, t);
    hide CallbackNext;
  }

  lemma CallbackKeys(s: Item, t: nat)
    requires t in s.cbs && (s.cbs[t].CbExit? ==> s.call.running > 0)
    ensures CallbackNext(s, t).cbs.Keys == if s.cbs[t].CbExit? then s.cbs.Keys - {t} else s.cbs.Keys
    ensures CallbackNext(s, t).call.running == if s.cbs[t].CbExit? then s.call.running - 1 else s.call.running
  {
    hide QueueLocked;
  }

  /** A callback's own step: another witness stays where it is, and its own moves on. */
  lemma CallbackLostKeeps(s: Item, t: nat)
    requires Inv(s) && Enabled(s, CallbackStep(t))
    ensures NotLost(CallbackNext(s, t))
  {
    var s' := CallbackNext(s, t);
    assert forall u :: u != t ==> (u in s.cbs <==> u in s'.cbs) && (u in s.cbs ==> s'.cbs[u] == s.cbs[u]);
    if s'.pending == 2 {
      if s.cbs[t].CbClear? {
        assert At(s', t, CbLock);
      } else if s.cbs[t].CbTest? && s.active {
        assert At(s', t, CbClear);
      } else if u :| At(s, u, CbClear) || At(s, u, CbLock) {
        assert At(s', u, s.cbs[u]);
      } else if u :| At(s, u, CbTest) && u != t {
        assert At(s', u, CbTest);
      }
    }
  }

  lemma HolderLostKeeps(s: Item, ok: bool)
    requires Inv(s)
    ensures NotLost(HolderNext(s, ok))
  {
    HolderKeepsCallbacks(s, ok);
    assert forall u, pc :: At(s, u, pc) <==> At(HolderNext(s, ok), u, pc);
  }

  lemma CancellerLostKeeps(s: Item)
    requires Inv(s)
    ensures NotLost(CancellerNext(s))
  {
    CancellerKeepsCallbacks(s);
    assert forall u, pc :: At(s, u, pc) <==> At(CancellerNext(s), u, pc);
  }

  lemma LostKeeps(s: Item, e: Event)
    requires Inv(s) && Enabled(s, e)
    ensures NotLost(Step(s, e))
  {
    hide HolderNext, CancellerNext, CallbackNext;
    match e
    case HolderStep(ok) => HolderLostKeeps(s, ok);
    case CancellerStep => CancellerLostKeeps(s);
    case CallbackEnter(t) =>
      var s' := Step(s, e);
      assert At(s', t, s'.cbs[t]);
      assert forall u, pc :: At(s, u, pc) ==> At(s', u, pc);
    case CallbackStep(t) => CallbackLostKeeps(s, t);
    case _ =>
      assert forall u, pc :: At(s, u, pc) <==> At(Step(s, e), u, pc);
  }

  /** Only `cancel_delayed_work` can touch a freed call: between its read of the pointer and its use of it. */
  lemma TouchesFreedExactly(s: Item, e: Event)
    requires Inv(s) && Enabled(s, e)
    ensures TouchesFreed(s, e) <==> e.HolderStep? && s.holder.CdNative? && s.freed
  {
    hide NotLost;
    if s.freed {
      assert |s.cbs.Keys| == 0;
      assert s.cbs.Keys == {};
    }
  }

  lemma StepKeeps(s: Item, e: Event)
    requires Inv(s) && Enabled(s, e) && !TouchesFreed(s, e)
    ensures Inv(Step(s, e))
  {
    hide LockInv, CallOk, CountOk, NotLost, Step;
    LockKeeps(s, e);
    CallKeeps(s, e);
    CountKeeps(s, e);
    LostKeeps(s, e);
  }

  /** The queue runs, and the item is not pending, not being cancelled and not executing on another queue. */
  predicate Welcome(s: Item, q: nat) {
    q in s.live && s.pending == 0 && !s.canceling && (s.executing ==> s.wq == q)
  }

  /** A submission is accepted exactly if it is welcome: with a delay it then waits for its timer, which is set next. */
  lemma SubmissionsTaken(s: Item, q: nat)
    requires Unlocked(s)
    ensures Step(s, QueueWork(q)) == (if Welcome(s, q) then s.(wq := q, pending := 1) else s)
    ensures Step(s, QueueDelayed(q)) == (if Welcome(s, q) then s.(wq := q, pending := 2, holder := QdAlloc) else s)
  {
  }

  /** The steps of an accepted submission leave the timer switched on and one callback on its way, if there is a call. */
  lemma SubmissionArms(s: Item, ok: bool)
    requires Inv(s) && s.holder.QdAlloc? && (s.hasCall || ok)
    ensures var a := HolderNext(s, ok);
      var b := HolderNext(a, ok);
      var c := HolderNext(b, ok);
      var d := HolderNext(c, ok);
      && d.holder.Nobody? && d.pending == 2 && d.wq == s.wq && d.hasCall && d.active && d.call.pending
      && (d.call.queued <==> !s.call.pending || s.call.queued || !s.hasCall)
  {
  }

  /** `cancel_delayed_work` leaves the item not pending, the timer switched off, and no callback queued. */
  lemma CancelDisarms(s: Item, ok: bool)
    requires Inv(s) && s.holder.CdRead? && !s.canceller.CsNull?
    ensures var a := HolderNext(s, ok);
      var b := HolderNext(a, ok);
      var c := if s.hasCall then HolderNext(b, ok) else b;
      c.holder.Nobody? && c.pending == 0 && !c.active && !c.call.queued
  {
  }

  // ---------- runs ----------

  function Start(live: set<nat>): Item {
    Item(0, 0, false, false, live, false, false, false, IDLE_CALL, Nobody, NoCanceller, map[])
  }

  ghost predicate Runs(s: Item, es: seq<Event>)
    decreases |es|
  {
    es == [] || (Runs(s, es[..|es| - 1]) && Enabled(Run(s, es[..|es| - 1]), es[|es| - 1]))
  }

  ghost function Run(s: Item, es: seq<Event>): Item
    decreases |es|
  {
    if es == [] then s
    else
      var p := Run(s, es[..|es| - 1]);
      if Enabled(p, es[|es| - 1]) then Step(p, es[|es| - 1]) else p
  }

  /** No step of the run touches a freed call. */
  ghost predicate Defined(s: Item, es: seq<Event>)
    decreases |es|
  {
    es == [] || (Defined(s, es[..|es| - 1]) && !TouchesFreed(Run(s, es[..|es| - 1]), es[|es| - 1]))
  }

  lemma {:induction false} Reachable(live: set<nat>, es: seq<Event>)
    requires Runs(Start(live), es) && Defined(Start(live), es)
    ensures Inv(Run(Start(live), es))
    decreases |es|
  {
    hide Step, Inv, TouchesFreed;
    if es == [] {
      assert Inv(Start(live)) by { StartInv(live); }
    } else {
      Reachable(live, es[..|es| - 1]);
      StepKeeps(Run(Start(live), es[..|es| - 1]), es[|es| - 1]);
    }
  }

  /** Nobody calls `cancel_delayed_work` while a sync cancellation of the delayed work is under way. */
  ghost predicate NoOverlap(s: Item, es: seq<Event>)
    decreases |es|
  {
    es == [] ||
    var p, e := Run(s, es[..|es| - 1]), es[|es| - 1];
    NoOverlap(s, es[..|es| - 1]) && (e.CancelDelayed? ==> p.canceller.NoCanceller? || p.canceller.CwExec?)
  }

  ghost predicate Apart(s: Item) {
    s.holder.CdRead? || s.holder.CdNative? ==> (s.canceller.NoCanceller? || s.canceller.CwExec?) && (s.holder.CdNative? ==> s.hasCall)
  }

  lemma ApartStep(s: Item, e: Event)
    requires LockInv(s) && CallOk(s) && Apart(s) && Enabled(s, e)
    requires e.CancelDelayed? ==> s.canceller.NoCanceller? || s.canceller.CwExec?
    ensures Apart(Step(s, e))
  {
    hide CallInv;
  }

  /** Then no run touches a freed call, so all that is said of defined runs holds of every such run. */
  lemma {:induction false} NoOverlapIsDefined(live: set<nat>, es: seq<Event>)
    requires Runs(Start(live), es) && NoOverlap(Start(live), es)
    ensures Defined(Start(live), es) && Apart(Run(Start(live), es))
    decreases |es|
  {
    hide Step, NotLost;
    if es != [] {
      var before, e := es[..|es| - 1], es[|es| - 1];
      NoOverlapIsDefined(live, before);
      Reachable(live, before);
      var p := Run(Start(live), before);
      TouchesFreedExactly(p, e);
      ApartStep(p, e);
    }
  }

  /** A run with one sync canceller in which `cancel_delayed_work` uses the call after it has been freed. */
  lemma CancellersCanMeetOnFreedCall(live: set<nat>) returns (es: seq<Event>)
    requires 0 in live
    ensures es != [] && Runs(Start(live), es) && Defined(Start(live), es[..|es| - 1])
    ensures TouchesFreed(Run(Start(live), es[..|es| - 1]), es[|es| - 1])
  {
    var s := Start(live);
    es := BothCancel(live);
    es := Forward(s, es, CancellerStep);
    es := Forward(s, es, CancellerStep);
    es := Forward(s, es, CancellerStep);
    es := Forward(s, es, CancellerStep);     // frees the call
    var fs := Then(s, es, HolderStep(true));
    assert fs[..|fs| - 1] == es;
    es := fs;
  }

  lemma BothCancel(live: set<nat>) returns (es: seq<Event>)
    requires 0 in live
    ensures Runs(Start(live), es) && Defined(Start(live), es)
    ensures Run(Start(live), es) ==
            Item(0, 0, true, false, live, false, true, false, Call(false, true, 0, false, 0), CdNative, CsWait, map[])
  {
    var s := Start(live);
    es := Submitted(live);
    es := Forward(s, es, CancelDelayedSync);
    es := Forward(s, es, CancellerStep);     // timer->active = 0
    es := Forward(s, es, CancellerStep);     // cancel_wait
    es := Forward(s, es, CancelDelayed);
    es := Forward(s, es, HolderStep(true));  // reads timer->call
  }

  lemma Submitted(live: set<nat>) returns (es: seq<Event>)
    requires 0 in live
    ensures Runs(Start(live), es) && Defined(Start(live), es)
    ensures Run(Start(live), es) ==
            Item(2, 0, false, false, live, true, true, false, Call(true, false, 0, true, 0), Nobody, NoCanceller, map[])
  {
    var s := Start(live);
    es := Forward(s, [], QueueDelayed(0));
    es := Forward(s, es, HolderStep(true));
    es := Forward(s, es, HolderStep(true));
    es := Forward(s, es, HolderStep(true));
    es := Forward(s, es, HolderStep(true));
  }

  lemma Forward(s: Item, es: seq<Event>, e: Event) returns (fs: seq<Event>)
    requires Runs(s, es) && Defined(s, es) && Enabled(Run(s, es), e) && !TouchesFreed(Run(s, es), e)
    ensures fs == es + [e] && Runs(s, fs) && Defined(s, fs) && Run(s, fs) == Step(Run(s, es), e)
  {
    fs := es + [e];
    assert fs[..|fs| - 1] == es;
  }

  lemma StartInv(live: set<nat>)
    ensures Inv(Start(live))
  {
  }

  /** Between operations, accepted delayed work always has a callback on its way. */
  lemma AcceptedWorkIsWitnessed(live: set<nat>, es: seq<Event>)
    requires Runs(Start(live), es) && Defined(Start(live), es)
    ensures var s := Run(Start(live), es);
      s.pending == 2 && Unlocked(s) ==> Witnessed(s)
  {
    hide Step;
    Reachable(live, es);
  }

  /** `cancel_delayed_work_sync` returns only when the item is neither pending nor running and its timer is gone. */
  lemma SyncCancelMeansGone(live: set<nat>, es: seq<Event>)
    requires Runs(Start(live), es + [CancellerStep]) && Defined(Start(live), es)
    requires !Run(Start(live), es).canceller.NoCanceller?
    requires Run(Start(live), es + [CancellerStep]).canceller.NoCanceller?
    ensures var s := Run(Start(live), es + [CancellerStep]);
      && s.pending == 0 && !s.executing && !s.canceling
      && (Run(Start(live), es).canceller.CsExec? ==>
            !s.hasCall && s.cbs == map[] && !s.call.queued && s.call.dequeued == 0)
  {
    hide Step, NotLost, HolderNext, CallbackNext;
    var fs := es + [CancellerStep];
    assert fs[..|fs| - 1] == es;
    Reachable(live, es);
    var p := Run(Start(live), es);
    LastCancellerStep(p);
    if p.canceller.CsExec? {
      assert |p.cbs.Keys| == 0;
      assert p.cbs.Keys == {};
    }
  }

  lemma LastCancellerStep(p: Item)
    requires Enabled(p, CancellerStep) && Step(p, CancellerStep).canceller.NoCanceller?
    ensures p.canceller.CsExec? || p.canceller.CwExec?
    ensures !p.executing && Step(p, CancellerStep) == p.(canceling := false, canceller := NoCanceller)
  {
  }

  // ---------- accepted work reaches its queue ----------

  /** Steps that the system takes by itself: native delivery, callbacks and the lock's owner. */
  predicate Internal(e: Event) {
    e.NativeFire? || e.CallbackEnter? || e.CallbackStep? || (e.HolderStep? && e.allocOk)
  }

  ghost function Moved(s: Item): nat { if s.wq in s.live then 1 else 0 }

  lemma Then(s: Item, es: seq<Event>, e: Event) returns (fs: seq<Event>)
    requires Runs(s, es) && Enabled(Run(s, es), e)
    ensures fs == es + [e] && Runs(s, fs) && Run(s, fs) == Step(Run(s, es), e)
  {
    fs := es + [e];
    assert fs[..|fs| - 1] == es;
  }

  /** Not a submission about to be refused because no call could be allocated. */
  ghost predicate Accepted(s: Item) { s.holder.QdFinish? ==> s.hasCall }

  /** How far the accepted work is from its queue. */
  ghost function Rank(s: Item): nat {
    match s.holder
    case QdAlloc => 9
    case QdActive => 8
    case QdSubmit => 7
    case QdFinish => 6
    case _ =>
      if exists t :: At(s, t, CbLock) then 1
      else if exists t :: At(s, t, CbClear) then 2
      else if s.active && exists t :: At(s, t, CbTest) then 3
      else if s.active && !s.call.queued then 4
      else 5
  }

  /** The steps that bring accepted work nearer to its queue. */
  ghost predicate Helps(s: Item, e: Event) {
    if !s.holder.Nobody? then e == HolderStep(true)
    else if exists t :: At(s, t, CbLock) then e.CallbackStep? && At(s, e.t, CbLock)
    else if exists t :: At(s, t, CbClear) then e.CallbackStep? && At(s, e.t, CbClear)
    else if s.active && exists t :: At(s, t, CbTest) then e.CallbackStep? && At(s, e.t, CbTest)
    else if s.active && !s.call.queued then e.CallbackEnter? && e.t !in s.cbs
    else e == NativeFire
  }

  /** A helpful step is possible, and brings the work nearer to its queue or onto it. */
  lemma HelpBringsNearer(s: Item, e: Event)
    requires Inv(s) && s.pending == 2 && Accepted(s) && Helps(s, e)
    ensures Internal(e) && Enabled(s, e)
    ensures var s' := Step(s, e);
      && s'.wq == s.wq && s'.live == s.live && Accepted(s')
      && if s'.pending == 2 then Rank(s') < Rank(s) else s'.pending == Moved(s)
  {
    match e
    case CallbackStep(t) =>
      if s.cbs[t].CbClear? { assert At(Step(s, e), t, CbLock); }
      if s.cbs[t].CbTest? { assert At(Step(s, e), t, CbClear); }
    case CallbackEnter(t) => assert At(Step(s, e), t, CbTest);
    case HolderStep(_) => assert forall u, pc :: At(s, u, pc) <==> At(Step(s, e), u, pc);
    case NativeFire => assert forall u, pc :: At(s, u, pc) <==> At(Step(s, e), u, pc);
    case _ =>
  }

  /** There always is one. */
  lemma Nearer(s: Item) returns (e: Event)
    requires Inv(s) && s.pending == 2 && Accepted(s)
    ensures Helps(s, e) && Internal(e) && Enabled(s, e)
    ensures var s' := Step(s, e);
      && s'.wq == s.wq && s'.live == s.live && Accepted(s')
      && if s'.pending == 2 then Rank(s') < Rank(s) else s'.pending == Moved(s)
  {
    if !s.holder.Nobody? {
      e := HolderStep(true);
    } else if t :| At(s, t, CbLock) {
      e := CallbackStep(t);
    } else if t :| At(s, t, CbClear) {
      e := CallbackStep(t);
    } else if t :| At(s, t, CbTest) {
      e := CallbackStep(t);
    } else if s.call.queued {
      e := NativeFire;
    } else {
      var t := Fresh(s.cbs.Keys);
      e := CallbackEnter(t);
    }
    HelpBringsNearer(s, e);
  }

  /** A step that is no cancellation, and does not find that no call can be allocated. */
  predicate Harmless(s: Item, e: Event) {
    && !e.CancelDelayed? && !e.CancelDelayedSync? && !e.CancelWorkSync?
    && (e == HolderStep(false) && s.holder.QdAlloc? ==> s.hasCall)
  }

  /** Short of a cancellation no step of any thread takes it farther away; if it is over, it was moved. */
  lemma NeverFarther(s: Item, e: Event)
    requires Inv(s) && s.pending == 2 && Accepted(s)
    requires Harmless(s, e) && Enabled(s, e)
    ensures var s' := Step(s, e);
      if s'.pending == 2 then Accepted(s') && Rank(s') <= Rank(s) else s'.pending == Moved(s)
  {
    var s' := Step(s, e);
    OthersStay(s, e);
    match e
    case HolderStep(ok) =>
      HolderKeepsCallbacks(s, ok);
    case CancellerStep =>
      CancellerKeepsCallbacks(s);
    case CallbackEnter(t) =>
      assert forall u, pc :: At(s, u, pc) ==> At(s', u, pc);
      assert At(s', t, s'.cbs[t]);
    case CallbackStep(t) =>
      assert forall u, pc :: u != t ==> (At(s, u, pc) <==> At(s', u, pc));
      if s.cbs[t].CbClear? { assert At(s', t, CbLock); }
      if s.cbs[t].CbTest? { assert At(s', t, s'.cbs[t]); }
    case _ =>
  }

  /** What helps stays possible, and helps, until a step is taken that brings the work nearer. */
  lemma HelpStays(s: Item, e: Event, f: Event)
    requires Inv(s) && s.pending == 2 && Accepted(s) && Helps(s, e)
    requires Harmless(s, f) && Enabled(s, f) && Step(s, f).pending == 2
    ensures Rank(Step(s, f)) < Rank(s) || Helps(Step(s, f), e)
  {
    var s' := Step(s, f);
    OthersStay(s, f);
    HolderStays(s, f);
    if f.CallbackStep? {
      assert f.t in s'.cbs ==> At(s', f.t, s'.cbs[f.t]);
    } else if f.CallbackEnter? {
      assert At(s', f.t, s'.cbs[f.t]);
    }
  }

  predicate Moves(f: Event, t: nat) { (f.CallbackStep? || f.CallbackEnter?) && f.t == t }

  lemma OthersStay(s: Item, f: Event)
    requires Inv(s) && Enabled(s, f)
    ensures forall t, pc :: !Moves(f, t) ==> (At(s, t, pc) <==> At(Step(s, f), t, pc))
  {
    hide LockInv, NotLost;
    if f.HolderStep? {
      HolderKeepsCallbacks(s, f.allocOk);
    } else if f.CancellerStep? {
      CancellerKeepsCallbacks(s);
    }
  }

  lemma HolderStays(s: Item, f: Event)
    requires Inv(s) && s.pending == 2 && Harmless(s, f) && Enabled(s, f)
    ensures Step(s, f).holder == s.holder || f.HolderStep?
  {
    hide CallOk, NotLost, CountOk;
  }

  /** A number outside a finite set. */
  lemma Fresh(ts: set<nat>) returns (t: nat)
    ensures t !in ts
    ensures forall u :: u in ts ==> u < t
    decreases |ts|
  {
    if ts == {} {
      t := 0;
    } else {
      var x :| x in ts;
      var m := Fresh(ts - {x});
      t := if m <= x then x + 1 else m;
      assert forall u :: u in ts ==> u == x || u in ts - {x};
    }
  }

  /** Left to itself, the system moves accepted work to its running queue; none is stuck. */
  lemma {:induction false} AcceptedWorkReachesItsQueue(s: Item) returns (es: seq<Event>)
    requires Inv(s) && s.pending == 2 && Accepted(s)
    ensures Runs(s, es) && |es| <= Rank(s)
    ensures forall i :: 0 <= i < |es| ==> Internal(es[i])
    ensures Run(s, es).pending == Moved(s)
    decreases Rank(s)
  {
    hide Inv, Step, Rank;
    var e := Nearer(s);
    var s' := Step(s, e);
    AwaitedStepIsSafe(s, e);
    StepKeeps(s, e);
    var first := Then(s, [], e);
    if s'.pending == 2 {
      var rest := AcceptedWorkReachesItsQueue(s');
      es := first + rest;
      RunAppend(s, first, rest);
    } else {
      es := first;
      RankPositive(s);
    }
  }

  lemma AwaitedStepIsSafe(s: Item, e: Event)
    requires Inv(s) && s.pending == 2 && Enabled(s, e)
    ensures !TouchesFreed(s, e)
  {
    hide TouchesFreed, CallOk, CountOk, NotLost;
    TouchesFreedExactly(s, e);
  }

  lemma RankPositive(s: Item)
    ensures Rank(s) > 0
  {
  }

  lemma {:induction false} RunAppend(s: Item, a: seq<Event>, b: seq<Event>)
    requires Runs(s, a) && Runs(Run(s, a), b)
    ensures Runs(s, a + b) && Run(s, a + b) == Run(Run(s, a), b)
    decreases |b|
  {
    hide Step, Enabled;
    if b == [] {
      assert a + b == a;
    } else {
      RunAppend(s, a, b[..|b| - 1]);
      assert (a + b)[..|a + b| - 1] == a + b[..|b| - 1];
    }
  }

  // ---------- fair runs ----------

  /** A run without cancellations in the course of which the work is still waiting. */
  ghost predicate Waits(s: Item, es: seq<Event>)
    decreases |es|
  {
    Run(s, es).pending == 2 &&
    (es == [] || (Waits(s, es[..|es| - 1]) && Harmless(Run(s, es[..|es| - 1]), es[|es| - 1])))
  }

  /** How many of its steps were helpful when they were taken. */
  ghost function Helped(s: Item, es: seq<Event>): nat
    decreases |es|
  {
    if es == [] then 0
    else Helped(s, es[..|es| - 1]) + if Helps(Run(s, es[..|es| - 1]), es[|es| - 1]) then 1 else 0
  }

  /**
   Whatever the other threads do, accepted work cannot outlast nine helpful steps.  One is always
   possible (`Nearer`), and it stays so until the work is nearer (`HelpStays`).
   */
  lemma {:induction false} FewHelpfulStepsSuffice(s: Item, es: seq<Event>)
    requires Inv(s) && Accepted(s) && Runs(s, es) && Waits(s, es)
    ensures Inv(Run(s, es)) && Accepted(Run(s, es))
    ensures Helped(s, es) + Rank(Run(s, es)) <= Rank(s) <= 9
    decreases |es|
  {
    hide Inv, Step, Rank, Helps, Harmless, Enabled;
    if es == [] {
      RankBound(s);
    } else {
      var before, e := es[..|es| - 1], es[|es| - 1];
      FewHelpfulStepsSuffice(s, before);
      var p := Run(s, before);
      AwaitedStepIsSafe(p, e);
      StepKeeps(p, e);
      NeverFarther(p, e);
      if Helps(p, e) {
        HelpBringsNearer(p, e);
      }
    }
  }

  lemma RankBound(s: Item)
    ensures Rank(s) <= 9
  {
  }
}
