/**
 The eight receive agreements of a station as one state machine, and what every run of it
 keeps: frames are neither lost nor copied, leave each TID in increasing order, and leave
 at all.
 */
module ReorderRuns {
  import opened Wrappers
  import opened ReorderSpec

  const NUM_TID := 8

  datatype Delivery = Delivery(tid: nat, num: Option<nat>, skb: Skb)
  datatype Rx = Rx(tids: seq<Option<Window>>, delivered: seq<Delivery>, freed: multiset<Skb>, armed: bool)

  datatype Event =
    | Setup(tid: nat, ssn: nat, bufsize: nat, allocOk: bool)
    | Teardown(tid: nat)
    | Frame(tid: nat, skb: Skb, sn: nat)
    | Timer

  ghost predicate Busy(o: Option<Window>) {
    o.Some? && o.value.held != map[]
  }

  /** Every buffered frame is filed under a number whose 12 low bits it carries. */
  ghost predicate LabelledTids(tids: seq<Option<Window>>) {
    forall t :: 0 <= t < |tids| && tids[t].Some? ==> Labelled(tids[t].value.held)
  }

  /** The invariant; a TID that buffers something always has the hole timer running. */
  ghost predicate Inv(rx: Rx) {
    && |rx.tids| == NUM_TID
    && LabelledTids(rx.tids)
    && (forall t :: 0 <= t < NUM_TID && rx.tids[t].Some? ==> ValidWindow(rx.tids[t].value))
    && (forall t :: 0 <= t < NUM_TID && Busy(rx.tids[t]) ==> rx.armed)
  }

  ghost predicate Enabled(rx: Rx, e: Event) {
    match e
    case Frame(tid, skb, sn) => tid < NUM_TID && sn == skb.sn < 4096
    case Timer => rx.armed
    case _ => true
  }

  // ---------- the steps ----------

  function WindowSize(bufsize: nat): nat {
    if bufsize == 0 || bufsize > 64 then 64 else bufsize
  }

  ghost function BufferedIn(o: Option<Window>): multiset<Skb> {
    if o.Some? then Buffered(o.value) else multiset{}
  }

  ghost function StoredIn(o: Option<Window>): nat {
    if o.Some? then Stored(o.value) else 0
  }

  ghost function Tag(tid: nat, s: seq<Numbered>): (r: seq<Delivery>)
    ensures |r| == |s|
    ensures forall i :: 0 <= i < |s| ==> r[i] == Delivery(tid, Some(s[i].num), s[i].skb)
  {
    seq(|s|, i requires 0 <= i < |s| => Delivery(tid, Some(s[i].num), s[i].skb))
  }

  ghost function SetupStep(rx: Rx, tid: nat, ssn: nat, bufsize: nat, allocOk: bool): Rx
    requires Inv(rx)
  {
    if tid >= NUM_TID || (rx.tids[tid].None? && !allocOk) then rx
    else rx.(tids := rx.tids[tid := Some(Window(ssn % 4096, WindowSize(bufsize), map[]))],
             freed := rx.freed + BufferedIn(rx.tids[tid]))
  }

  ghost function TeardownStep(rx: Rx, tid: nat): Rx
    requires Inv(rx)
  {
    if tid >= NUM_TID then rx
    else rx.(tids := rx.tids[tid := None], freed := rx.freed + BufferedIn(rx.tids[tid]))
  }

  ghost function FrameStep(rx: Rx, tid: nat, skb: Skb, sn: nat): Rx
    requires Inv(rx) && tid < NUM_TID
  {
    match rx.tids[tid]
    case None => rx.(delivered := rx.delivered + [Delivery(tid, None, skb)])
    case Some(w) =>
      var a := Resolve(w.head, sn);
      var r := Input(w, a, skb);
      Rx(rx.tids[tid := Some(r.window)],
         rx.delivered + Tag(tid, r.frames),
         rx.freed + if r.dropped then multiset{skb} else multiset{},
         rx.armed || (a >= w.head && r.window.held != map[]))
  }

  /** The timer pass over the first `t` TIDs, which share one 64-frame batch. */
  datatype Pass = Pass(tids: seq<Option<Window>>, batch: seq<Delivery>, again: bool)

  ghost function PassOver(p: Pass, t: nat): (q: Pass)
    requires t < |p.tids|
    ensures |q.tids| == |p.tids|
    ensures forall k :: 0 <= k < |p.tids| && k != t ==> q.tids[k] == p.tids[k]
  {
    if !Busy(p.tids[t]) then p
    else
      var r := Flush(p.tids[t].value, if |p.batch| <= 64 then 64 - |p.batch| else 0);
      Pass(p.tids[t := Some(r.window)], p.batch + Tag(t, r.frames), p.again || r.window.held != map[])
  }

  ghost function FlushUpTo(tids: seq<Option<Window>>, t: nat): (p: Pass)
    requires t <= |tids|
    ensures |p.tids| == |tids|
    ensures forall k :: t <= k < |tids| ==> p.tids[k] == tids[k]
  {
    if t == 0 then Pass(tids, [], false) else PassOver(FlushUpTo(tids, t - 1), t - 1)
  }

  ghost function TimerStep(rx: Rx): Rx
    requires Inv(rx)
  {
    var p := FlushUpTo(rx.tids, NUM_TID);
    Rx(p.tids, rx.delivered + p.batch, rx.freed, p.again)
  }

  ghost function Step(rx: Rx, e: Event): Rx
    requires Inv(rx) && Enabled(rx, e)
  {
    match e
    case Setup(tid, ssn, bufsize, ok) => SetupStep(rx, tid, ssn, bufsize, ok)
    case Teardown(tid) => TeardownStep(rx, tid)
    case Frame(tid, skb, sn) => FrameStep(rx, tid, skb, sn)
    case Timer => TimerStep(rx)
  }

  // ---------- sums over the TIDs ----------

  ghost function BufferedAll(tids: seq<Option<Window>>): multiset<Skb> {
    if tids == [] then multiset{} else BufferedAll(tids[..|tids| - 1]) + BufferedIn(tids[|tids| - 1])
  }

  ghost function StoredAll(tids: seq<Option<Window>>): nat {
    if tids == [] then 0 else StoredAll(tids[..|tids| - 1]) + StoredIn(tids[|tids| - 1])
  }

  lemma {:induction false} ReplaceOne(tids: seq<Option<Window>>, t: nat, o: Option<Window>)
    requires t < |tids|
    ensures BufferedAll(tids[t := o]) + BufferedIn(tids[t]) == BufferedAll(tids) + BufferedIn(o)
    ensures StoredAll(tids[t := o]) + StoredIn(tids[t]) == StoredAll(tids) + StoredIn(o)
    decreases |tids|
  {
    hide BufferedIn, StoredIn;
    var n := |tids| - 1;
    var us := tids[t := o];
    assert BufferedAll(us) == BufferedAll(us[..n]) + BufferedIn(us[n]);
    assert BufferedAll(tids) == BufferedAll(tids[..n]) + BufferedIn(tids[n]);
    if t == n {
      assert us[..n] == tids[..n];
    } else {
      ReplaceOne(tids[..n], t, o);
      assert us[..n] == tids[..n][t := o];
      assert us[n] == tids[n];
      Swap(BufferedAll(us[..n]), BufferedAll(tids[..n]), BufferedIn(o), BufferedIn(tids[t]), BufferedIn(tids[n]));
    }
  }

  lemma Swap<T(!new)>(all': multiset<T>, all: multiset<T>, now: multiset<T>, was: multiset<T>, rest: multiset<T>)
    requires all' + was == all + now
    ensures (all' + rest) + was == (all + rest) + now
  {
    forall x: T ensures ((all' + rest) + was)[x] == ((all + rest) + now)[x] {
      assert (all' + was)[x] == (all + now)[x];
    }
  }

  /** Releasing a window's frames to the free list. */
  lemma Release<T(!new)>(all': multiset<T>, all: multiset<T>, was: multiset<T>)
    requires all' + was == all
    ensures forall d, f: multiset<T> :: d + (f + was) + all' == d + f + all
  {
  }

  ghost function Frames(ds: seq<Delivery>): (r: seq<Skb>)
    ensures |r| == |ds|
  {
    seq(|ds|, i requires 0 <= i < |ds| => ds[i].skb)
  }

  lemma FramesConcat(a: seq<Delivery>, b: seq<Delivery>)
    ensures Frames(a + b) == Frames(a) + Frames(b)
  {
  }

  lemma FramesTag(tid: nat, s: seq<Numbered>)
    ensures Frames(Tag(tid, s)) == Skbs(s)
  {
  }

  // ---------- conservation ----------

  /** Everything the driver has been handed and still accounts for. */
  ghost function Total(rx: Rx): multiset<Skb> {
    multiset(Frames(rx.delivered)) + rx.freed + BufferedAll(rx.tids)
  }

  ghost function Arrived(e: Event): multiset<Skb> {
    if e.Frame? then multiset{e.skb} else multiset{}
  }

  lemma EmptyWindow(w: Window)
    requires w.held == map[]
    ensures Stored(w) == 0 && Buffered(w) == multiset{}
  {
    Vacant(w.held, w.head, w.head + w.size);
  }

  ghost predicate ValidTids(tids: seq<Option<Window>>) {
    forall t :: 0 <= t < |tids| && tids[t].Some? ==> ValidWindow(tids[t].value)
  }

  ghost predicate PassInv(tids: seq<Option<Window>>, t: nat, p: Pass) {
    && t <= |tids| == |p.tids|
    && ValidTids(p.tids) && |p.batch| <= 64
    && multiset(Frames(p.batch)) + BufferedAll(p.tids) == BufferedAll(tids)
    && |p.batch| + StoredAll(p.tids) == StoredAll(tids)
    && (forall k :: 0 <= k < t && Busy(p.tids[k]) ==> p.again)
    && (forall k :: 0 <= k < t && Busy(tids[k]) ==> p.batch != [])
  }

  /** What a timer pass over the first `t` TIDs keeps. */
  lemma {:induction false} PassKeeps(tids: seq<Option<Window>>, t: nat)
    requires t <= |tids| && ValidTids(tids)
    ensures PassInv(tids, t, FlushUpTo(tids, t))
  {
    hide ValidWindow, BufferedAll, StoredAll, PassOver;
    if t > 0 {
      PassKeeps(tids, t - 1);
      PassOne(FlushUpTo(tids, t - 1), t - 1);
    }
  }

  lemma PassOne(p: Pass, t: nat)
    requires t < |p.tids| && |p.batch| <= 64 && ValidTids(p.tids)
    ensures var q := PassOver(p, t);
      && ValidTids(q.tids) && |q.batch| <= 64
      && multiset(Frames(q.batch)) + BufferedAll(q.tids) == multiset(Frames(p.batch)) + BufferedAll(p.tids)
      && |q.batch| + StoredAll(q.tids) == |p.batch| + StoredAll(p.tids)
      && (p.again || Busy(q.tids[t]) ==> q.again)
      && (p.batch != [] || Busy(p.tids[t]) ==> q.batch != [])
  {
    hide Bag, Count, Flush, ValidWindow, BufferedAll, StoredAll, Buffered, Stored;
    if Busy(p.tids[t]) {
      var w := p.tids[t].value;
      var r := Flush(w, 64 - |p.batch|);
      FlushKeeps(w, 64 - |p.batch|);
      var us := p.tids[t := Some(r.window)];
      ReplaceOne(p.tids, t, Some(r.window));
      FramesConcat(p.batch, Tag(t, r.frames));
      FramesTag(t, r.frames);
      Exchange(BufferedAll(us), BufferedAll(p.tids), Buffered(r.window), Buffered(w), multiset(Skbs(r.frames)));
    }
  }

  /** Multiset arithmetic of one window change. */
  lemma Exchange<T(!new)>(all': multiset<T>, all: multiset<T>, now: multiset<T>, was: multiset<T>, left: multiset<T>)
    requires all' + was == all + now
    requires left + now == was
    ensures left + all' == all
  {
    forall x: T ensures (left + all')[x] == all[x] {
      assert (all' + was)[x] == (all + now)[x];
      assert (left + now)[x] == was[x];
    }
  }

  lemma SetupKeeps(rx: Rx, tid: nat, ssn: nat, bufsize: nat, allocOk: bool)
    requires Inv(rx)
    ensures Inv(SetupStep(rx, tid, ssn, bufsize, allocOk))
    ensures Total(SetupStep(rx, tid, ssn, bufsize, allocOk)) == Total(rx)
  {
    hide Bag, Count, BufferedAll, StoredAll;
    if tid < NUM_TID {
      var w := Window(ssn % 4096, WindowSize(bufsize), map[]);
      EmptyWindow(w);
      ReplaceOne(rx.tids, tid, Some(w));
      Release(BufferedAll(rx.tids[tid := Some(w)]), BufferedAll(rx.tids), BufferedIn(rx.tids[tid]));
    }
  }

  lemma TeardownKeeps(rx: Rx, tid: nat)
    requires Inv(rx)
    ensures Inv(TeardownStep(rx, tid))
    ensures Total(TeardownStep(rx, tid)) == Total(rx)
  {
    hide Bag, Count, BufferedAll, StoredAll, ValidWindow;
    if tid < NUM_TID {
      ReplaceOne(rx.tids, tid, None);
      Release(BufferedAll(rx.tids[tid := None]), BufferedAll(rx.tids), BufferedIn(rx.tids[tid]));
    }
  }

  lemma FrameValid(rx: Rx, tid: nat, skb: Skb, sn: nat)
    requires Inv(rx) && tid < NUM_TID && sn == skb.sn < 4096
    ensures Inv(FrameStep(rx, tid, skb, sn))
  {
    hide Bag, Count, ValidWindow, Input, Labelled;
    if rx.tids[tid].Some? {
      var w := rx.tids[tid].value;
      InputKeeps(w, Resolve(w.head, sn), skb);
      InputLabelled(w, skb);
      ValidSize(w);
      StaleUnchanged(w, Resolve(w.head, sn), skb);
    }
  }

  lemma FrameTotal(rx: Rx, tid: nat, skb: Skb, sn: nat)
    requires Inv(rx) && tid < NUM_TID
    ensures Total(FrameStep(rx, tid, skb, sn)) == Total(rx) + multiset{skb}
  {
    hide Bag, Count, BufferedAll, StoredAll, ValidWindow, Input, Buffered, Stored;
    if rx.tids[tid].None? {
      FramesConcat(rx.delivered, [Delivery(tid, None, skb)]);
      assert Frames([Delivery(tid, None, skb)]) == [skb];
    } else {
      var w := rx.tids[tid].value;
      var a := Resolve(w.head, sn);
      ValidSize(w);
      var r := Input(w, a, skb);
      var freed := if r.dropped then multiset{skb} else multiset{};
      var us := rx.tids[tid := Some(r.window)];
      InputKeeps(w, a, skb);
      ReplaceOne(rx.tids, tid, Some(r.window));
      FramesConcat(rx.delivered, Tag(tid, r.frames));
      FramesTag(tid, r.frames);
      Admission(BufferedAll(us), BufferedAll(rx.tids), Buffered(r.window), Buffered(w), multiset(Skbs(r.frames)), freed, multiset{skb});
      Regroup(multiset(Frames(rx.delivered)), multiset(Skbs(r.frames)), rx.freed, freed, BufferedAll(us), BufferedAll(rx.tids), multiset{skb});
    }
  }

  lemma ValidSize(w: Window)
    requires ValidWindow(w)
    ensures 1 <= w.size <= 64
  {
  }

  lemma StaleUnchanged(w: Window, a: int, skb: Skb)
    requires w.size >= 1
    ensures a < w.head ==> Input(w, a, skb).window == w
  {
  }

  lemma Admission<T(!new)>(all': multiset<T>, all: multiset<T>, now: multiset<T>, was: multiset<T>,
                     left: multiset<T>, freed: multiset<T>, arrived: multiset<T>)
    requires all' + was == all + now
    requires left + now + freed == was + arrived
    ensures left + freed + all' == all + arrived
  {
    forall x: T ensures (left + freed + all')[x] == (all + arrived)[x] {
      assert (all' + was)[x] == (all + now)[x];
      assert (left + now + freed)[x] == (was + arrived)[x];
    }
  }

  lemma Regroup<T(!new)>(log: multiset<T>, left: multiset<T>, free: multiset<T>, freed: multiset<T>,
                         all': multiset<T>, all: multiset<T>, arrived: multiset<T>)
    requires left + freed + all' == all + arrived
    ensures (log + left) + (free + freed) + all' == (log + free + all) + arrived
  {
    forall x: T ensures ((log + left) + (free + freed) + all')[x] == ((log + free + all) + arrived)[x] {
      assert (left + freed + all')[x] == (all + arrived)[x];
    }
  }

  lemma {:induction false} PassLabelled(tids: seq<Option<Window>>, t: nat)
    requires t <= |tids| && LabelledTids(tids)
    ensures LabelledTids(FlushUpTo(tids, t).tids)
  {
    hide Labelled, Flush;
    if t > 0 {
      PassLabelled(tids, t - 1);
      var p := FlushUpTo(tids, t - 1);
      if Busy(p.tids[t - 1]) {
        FlushLabelled(p.tids[t - 1].value, if |p.batch| <= 64 then 64 - |p.batch| else 0);
      }
    }
  }

  lemma TimerKeeps(rx: Rx)
    requires Inv(rx)
    ensures Inv(TimerStep(rx))
    ensures Total(TimerStep(rx)) == Total(rx)
  {
    hide BufferedAll, StoredAll, ValidWindow, FlushUpTo, LabelledTids;
    PassKeeps(rx.tids, NUM_TID);
    PassLabelled(rx.tids, NUM_TID);
    FramesConcat(rx.delivered, FlushUpTo(rx.tids, NUM_TID).batch);
  }

  /** Every step keeps the invariant and accounts for every frame. */
  lemma StepKeeps(rx: Rx, e: Event)
    requires Inv(rx) && Enabled(rx, e)
    ensures Inv(Step(rx, e))
    ensures Total(Step(rx, e)) == Total(rx) + Arrived(e)
  {
    hide Inv, Total, SetupStep, TeardownStep, FrameStep, TimerStep;
    match e
    case Setup(tid, ssn, bufsize, ok) => SetupKeeps(rx, tid, ssn, bufsize, ok);
    case Teardown(tid) => TeardownKeeps(rx, tid);
    case Frame(tid, skb, sn) => FrameValid(rx, tid, skb, sn); FrameTotal(rx, tid, skb, sn);
    case Timer => TimerKeeps(rx);
  }

  // ---------- runs ----------

  ghost predicate Runs(rx: Rx, es: seq<Event>)
    decreases |es|, 0
  {
    Inv(rx) && (es == [] || (Runs(rx, es[..|es| - 1]) && Enabled(Run(rx, es[..|es| - 1]), es[|es| - 1])))
  }

  ghost function Run(rx: Rx, es: seq<Event>): (r: Rx)
    requires Runs(rx, es)
    ensures Inv(r)
    decreases |es|, 1
  {
    if es == [] then rx
    else
      var p := Run(rx, es[..|es| - 1]);
      StepKeeps(p, es[|es| - 1]);
      Step(p, es[|es| - 1])
  }

  ghost function AllArrived(es: seq<Event>): multiset<Skb> {
    if es == [] then multiset{} else AllArrived(es[..|es| - 1]) + Arrived(es[|es| - 1])
  }

  /** Over any run, each frame handed in is in exactly one of delivered, freed, buffered. */
  lemma {:induction false} FramesConserved(rx: Rx, es: seq<Event>)
    requires Runs(rx, es)
    ensures Total(Run(rx, es)) == Total(rx) + AllArrived(es)
    decreases |es|
  {
    if es != [] {
      FramesConserved(rx, es[..|es| - 1]);
      StepKeeps(Run(rx, es[..|es| - 1]), es[|es| - 1]);
    }
  }

  // ---------- order ----------

  /** The numbered deliveries of one TID. */
  ghost function NumsOf(ds: seq<Delivery>, t: nat): seq<Numbered> {
    if ds == [] then []
    else
      var d := ds[|ds| - 1];
      NumsOf(ds[..|ds| - 1], t) + if d.tid == t && d.num.Some? then [Numbered(d.num.value, d.skb)] else []
  }

  ghost predicate AllNumbered(ds: seq<Delivery>, t: nat) {
    forall i :: 0 <= i < |ds| && ds[i].tid == t ==> ds[i].num.Some?
  }

  lemma {:induction false} NumsOfConcat(a: seq<Delivery>, b: seq<Delivery>, t: nat)
    ensures NumsOf(a + b, t) == NumsOf(a, t) + NumsOf(b, t)
    decreases |b|
  {
    if b == [] {
      assert a + b == a;
    } else {
      NumsOfConcat(a, b[..|b| - 1], t);
      assert (a + b)[..|a + b| - 1] == a + b[..|b| - 1];
    }
  }

  lemma {:induction false} NumsOfTag(tid: nat, s: seq<Numbered>, t: nat)
    ensures NumsOf(Tag(tid, s), t) == if t == tid then s else []
    decreases |s|
  {
    if s != [] {
      var n := |s| - 1;
      NumsOfTag(tid, s[..n], t);
      assert Tag(tid, s)[..n] == Tag(tid, s[..n]);
      assert s[..n] + [s[n]] == s;
    }
  }

  /** `now` comes from `was` by an advance of TID t's window that released `ds`. */
  ghost predicate Advanced(was: Option<Window>, now: Option<Window>, ds: seq<Delivery>, t: nat) {
    && was.Some? && now.Some?
    && was.value.head <= now.value.head && was.value.size == now.value.size
    && AllNumbered(ds, t)
    && Increasing(NumsOf(ds, t), was.value.head, now.value.head)
    && LabelledFrames(NumsOf(ds, t))
  }

  lemma AdvancedTwice(a: Option<Window>, b: Option<Window>, c: Option<Window>, d: seq<Delivery>, e: seq<Delivery>, t: nat)
    requires Advanced(a, b, d, t) && Advanced(b, c, e, t)
    ensures Advanced(a, c, d + e, t)
  {
    hide NumsOf, Increasing, Labelled;
    NumsOfConcat(d, e, t);
    IncreasingConcat(NumsOf(d, t), NumsOf(e, t), a.value.head, b.value.head, c.value.head);
  }

  lemma AdvancedNothing(a: Option<Window>, ds: seq<Delivery>, t: nat)
    requires a.Some?
    requires forall i :: 0 <= i < |ds| ==> ds[i].tid != t
    ensures Advanced(a, a, ds, t)
    decreases |ds|
  {
    if ds != [] {
      AdvancedNothing(a, ds[..|ds| - 1], t);
    }
  }

  lemma FrameAdvances(rx: Rx, tid: nat, skb: Skb, t: nat)
    requires Inv(rx) && tid < NUM_TID && t < NUM_TID && rx.tids[t].Some? && skb.sn < 4096
    ensures var rx' := FrameStep(rx, tid, skb, skb.sn);
      && rx.delivered <= rx'.delivered
      && Advanced(rx.tids[t], rx'.tids[t], rx'.delivered[|rx.delivered|..], t)
  {
    hide NumsOf, Increasing, Input, Labelled;
    var rx' := FrameStep(rx, tid, skb, skb.sn);
    if tid == t {
      var w := rx.tids[t].value;
      var a := Resolve(w.head, skb.sn);
      ValidSize(w);
      var r := Input(w, a, skb);
      InputKeeps(w, a, skb);
      InputOrder(w, a, skb);
      InputLabelled(w, skb);
      NumsOfTag(t, r.frames, t);
      assert rx'.delivered[|rx.delivered|..] == Tag(t, r.frames);
    } else {
      AdvancedNothing(rx.tids[t], rx'.delivered[|rx.delivered|..], t);
    }
  }

  lemma PassOverAdvances(p: Pass, n: nat, t: nat) returns (ds: seq<Delivery>)
    requires n < |p.tids| && t < |p.tids| && p.tids[t].Some? && |p.batch| <= 64
    requires ValidTids(p.tids) && LabelledTids(p.tids)
    ensures PassOver(p, n).batch == p.batch + ds
    ensures Advanced(p.tids[t], PassOver(p, n).tids[t], ds, t)
  {
    hide NumsOf, Increasing, Labelled, ValidWindow, Flush;
    if Busy(p.tids[n]) {
      var w := p.tids[n].value;
      var r := Flush(w, 64 - |p.batch|);
      ds := Tag(n, r.frames);
      FlushKeeps(w, 64 - |p.batch|);
      FlushOrder(w, 64 - |p.batch|);
      FlushLabelled(w, 64 - |p.batch|);
      NumsOfTag(n, r.frames, t);
      if n != t {
        AdvancedNothing(p.tids[t], ds, t);
      }
    } else {
      ds := [];
      AdvancedNothing(p.tids[t], ds, t);
    }
  }

  lemma {:induction false} PassAdvances(tids: seq<Option<Window>>, n: nat, t: nat)
    requires n <= |tids| && t < |tids| && ValidTids(tids) && LabelledTids(tids) && tids[t].Some?
    ensures Advanced(tids[t], FlushUpTo(tids, n).tids[t], FlushUpTo(tids, n).batch, t)
    decreases n
  {
    hide ValidWindow, PassOver, Advanced, BufferedAll, StoredAll;
    if n == 0 {
      AdvancedNothing(tids[t], [], t);
    } else {
      PassAdvances(tids, n - 1, t);
      PassKeeps(tids, n - 1);
      PassLabelled(tids, n - 1);
      var p := FlushUpTo(tids, n - 1);
      AdvancedSome(tids[t], p.tids[t], p.batch, t);
      var ds := PassOverAdvances(p, n - 1, t);
      AdvancedTwice(tids[t], p.tids[t], FlushUpTo(tids, n).tids[t], p.batch, ds, t);
    }
  }

  ghost predicate Renegotiates(e: Event, t: nat) {
    match e
    case Setup(tid, _, _, _) => tid == t
    case Teardown(tid) => tid == t
    case _ => false
  }

  lemma StepAdvances(rx: Rx, e: Event, t: nat)
    requires Inv(rx) && Enabled(rx, e) && t < NUM_TID && rx.tids[t].Some? && !Renegotiates(e, t)
    ensures rx.delivered <= Step(rx, e).delivered
    ensures Advanced(rx.tids[t], Step(rx, e).tids[t], Step(rx, e).delivered[|rx.delivered|..], t)
  {
    hide Advanced, FrameStep, FlushUpTo;
    match e
    case Frame(tid, skb, sn) => FrameAdvances(rx, tid, skb, t);
    case Timer =>
      PassAdvances(rx.tids, NUM_TID, t);
      var p := FlushUpTo(rx.tids, NUM_TID);
      assert (rx.delivered + p.batch)[|rx.delivered|..] == p.batch;
    case _ =>
      AdvancedNothing(rx.tids[t], [], t);
      assert Step(rx, e).delivered[|rx.delivered|..] == [];
  }

  /**
   Within one agreement, over any run of frames and timer passes (and anything on the other
   TIDs), the numbers delivered for the TID strictly increase, lie between the old and the
   new head, and are the ones the frames were sent with.
   */
  lemma {:induction false} DeliveredInOrder(rx: Rx, es: seq<Event>, t: nat)
    requires Runs(rx, es) && t < NUM_TID && rx.tids[t].Some?
    requires forall i :: 0 <= i < |es| ==> !Renegotiates(es[i], t)
    ensures rx.delivered <= Run(rx, es).delivered
    ensures Advanced(rx.tids[t], Run(rx, es).tids[t], Run(rx, es).delivered[|rx.delivered|..], t)
    decreases |es|
  {
    hide Advanced, Step;
    if es == [] {
      AdvancedNothing(rx.tids[t], [], t);
      assert rx.delivered[|rx.delivered|..] == [];
    } else {
      var n := |es| - 1;
      var p := Run(rx, es[..n]);
      DeliveredInOrder(rx, es[..n], t);
      AdvancedSome(rx.tids[t], p.tids[t], p.delivered[|rx.delivered|..], t);
      StepKeeps(p, es[n]);
      StepAdvances(p, es[n], t);
      var q := Step(p, es[n]);
      assert q.delivered[|rx.delivered|..] == p.delivered[|rx.delivered|..] + q.delivered[|p.delivered|..];
      AdvancedTwice(rx.tids[t], p.tids[t], q.tids[t], p.delivered[|rx.delivered|..], q.delivered[|p.delivered|..], t);
    }
  }

  lemma AdvancedSome(was: Option<Window>, now: Option<Window>, ds: seq<Delivery>, t: nat)
    requires Advanced(was, now, ds, t)
    ensures was.Some? && now.Some?
  {
  }

  // ---------- progress ----------

  ghost predicate AnyBusy(tids: seq<Option<Window>>) {
    exists t :: 0 <= t < |tids| && Busy(tids[t])
  }

  lemma {:induction false} StoredAllZero(tids: seq<Option<Window>>)
    requires ValidTids(tids)
    ensures StoredAll(tids) == 0 <==> !AnyBusy(tids)
    decreases |tids|
  {
    if tids != [] {
      var n := |tids| - 1;
      StoredAllZero(tids[..n]);
      if tids[n].Some? { StoredZero(tids[n].value); }
      if AnyBusy(tids) {
        var t :| 0 <= t < |tids| && Busy(tids[t]);
        assert t < n ==> Busy(tids[..n][t]);
      }
      if t :| 0 <= t < n && Busy(tids[..n][t]) {
        assert Busy(tids[t]);
      }
    }
  }

  /** A pass that finds a buffered frame delivers at least one, and rearms if any is left. */
  lemma PassProgress(rx: Rx)
    requires Inv(rx) && AnyBusy(rx.tids)
    ensures rx.armed
    ensures |TimerStep(rx).delivered| > |rx.delivered|
    ensures |TimerStep(rx).delivered| + StoredAll(TimerStep(rx).tids) == |rx.delivered| + StoredAll(rx.tids)
    ensures AnyBusy(TimerStep(rx).tids) ==> TimerStep(rx).armed
  {
    hide FlushUpTo, StoredAll, BufferedAll;
    PassKeeps(rx.tids, NUM_TID);
  }

  /** `n` timer passes; a pass that finds nothing changes nothing. */
  ghost function Passes(rx: Rx, n: nat): (r: Rx)
    requires Inv(rx)
    ensures Inv(r)
    decreases n
  {
    if n == 0 || !AnyBusy(rx.tids) then rx
    else
      TimerKeeps(rx);
      Passes(TimerStep(rx), n - 1)
  }

  /** Without new input, as many passes as frames are buffered empty every TID. */
  lemma {:induction false} PassesDrain(rx: Rx, n: nat)
    requires Inv(rx)
    requires StoredAll(rx.tids) <= n
    ensures !AnyBusy(Passes(rx, n).tids)
    ensures |Passes(rx, n).delivered| == |rx.delivered| + StoredAll(rx.tids)
    ensures Total(Passes(rx, n)) == Total(rx)
    decreases n
  {
    hide TimerStep, StoredAll, Total;
    StoredAllZero(rx.tids);
    if AnyBusy(rx.tids) {
      PassProgress(rx);
      TimerKeeps(rx);
      PassesDrain(TimerStep(rx), n - 1);
    }
  }

  // ---------- what the steps free, deliver and arm ----------

  /** A set-up that is not turned down starts an empty window at the start number, of the size asked for if it has that many slots. */
  lemma SetupGives(rx: Rx, tid: nat, ssn: nat, bufsize: nat, allocOk: bool)
    requires Inv(rx)
    ensures var rx' := SetupStep(rx, tid, ssn, bufsize, allocOk);
      if tid < NUM_TID && (allocOk || rx.tids[tid].Some?) then
        && rx' == rx.(tids := rx'.tids, freed := rx'.freed) && rx'.freed == rx.freed + BufferedIn(rx.tids[tid])
        && |rx'.tids| == 8 && rx'.tids == rx.tids[tid := rx'.tids[tid]]
        && rx'.tids[tid].Some? && rx'.tids[tid].value.head == ssn % 4096 && rx'.tids[tid].value.held == map[]
        && rx'.tids[tid].value.size == (if 1 <= bufsize <= 64 then bufsize else 64)
      else rx' == rx
  {
  }

  /** Without an agreement a frame is delivered at once. */
  lemma UnorderedFrame(rx: Rx, tid: nat, skb: Skb)
    requires Inv(rx) && tid < NUM_TID && rx.tids[tid].None?
    ensures FrameStep(rx, tid, skb, skb.sn) == rx.(delivered := rx.delivered + [Delivery(tid, None, skb)])
  {
  }

  /**
   With one, a frame is freed exactly if its number is behind the head or there already, and
   nothing else ever is; the timer is armed anew exactly if frames are left after a frame that
   was not behind the head.
   */
  lemma OrderedFrame(rx: Rx, tid: nat, skb: Skb)
    requires Inv(rx) && tid < NUM_TID && rx.tids[tid].Some? && skb.sn < 4096
    ensures var w := rx.tids[tid].value;
      var a := Resolve(w.head, skb.sn);
      var rx' := FrameStep(rx, tid, skb, skb.sn);
      && rx'.freed == rx.freed + (if a < w.head || a in w.held then multiset{skb} else multiset{})
      && rx'.tids == rx.tids[tid := rx'.tids[tid]]
      && (rx'.armed <==> rx.armed || (a >= w.head && Busy(rx'.tids[tid])))
  {
    hide Input, ValidWindow;
    var w := rx.tids[tid].value;
    ValidSize(w);
    InputSlidesNoFarther(w, Resolve(w.head, skb.sn), skb);
  }

  /** A pass of the timer frees nothing, and arms it again exactly if something is left. */
  lemma TimerFreesNothing(rx: Rx)
    requires Inv(rx)
    ensures TimerStep(rx).freed == rx.freed
    ensures TimerStep(rx).armed <==> AnyBusy(TimerStep(rx).tids)
  {
    hide ValidWindow, BufferedAll, StoredAll, FlushUpTo;
    PassKeeps(rx.tids, NUM_TID);
    if TimerStep(rx).armed {
      AgainMeansBusy(rx.tids, NUM_TID);
    }
  }

  lemma {:induction false} AgainMeansBusy(tids: seq<Option<Window>>, t: nat)
    requires 0 < t <= |tids| && FlushUpTo(tids, t).again
    ensures exists k :: 0 <= k < t && Busy(FlushUpTo(tids, t).tids[k])
    decreases t
  {
    hide Flush;
    var p, q := FlushUpTo(tids, t - 1), FlushUpTo(tids, t);
    if t > 1 && p.again {
      AgainMeansBusy(tids, t - 1);
      var k :| 0 <= k < t - 1 && Busy(p.tids[k]);
      assert Busy(q.tids[k]);
    } else {
      assert Busy(q.tids[t - 1]);
    }
  }

  // ---------- when the shared batch cuts a release short ----------

  /** Where the first run of buffered frames of a window ends, and its length. */
  ghost function FirstRunEnd(w: Window): nat {
    RunEnd(w.held, FirstHeld(w.held, w.head, w.head + w.size), w.head + w.size)
  }

  ghost function FirstRun(o: Option<Window>): nat {
    if Busy(o) then FirstRunEnd(o.value) - FirstHeld(o.value.held, o.value.head, o.value.head + o.value.size) else 0
  }

  ghost function FirstRuns(tids: seq<Option<Window>>, t: nat): nat
    requires t <= |tids|
  {
    if t == 0 then 0 else FirstRuns(tids, t - 1) + FirstRun(tids[t - 1])
  }

  /** The pass released the whole first run of a TID, if it had one. */
  ghost predicate ReleasedWhole(was: Option<Window>, now: Option<Window>) {
    Busy(was) ==> now == Some(After(was.value.held, FirstRunEnd(was.value), was.value.size))
  }

  lemma FlushRun(w: Window, room: nat)
    requires InRange(w) && w.held != map[]
    ensures |Flush(w, room).frames| == if FirstRun(Some(w)) <= room then FirstRun(Some(w)) else room
    ensures ReleasedWhole(Some(w), Some(Flush(w, room).window)) <==> FirstRun(Some(w)) <= room
  {
    hide InOrder, Count, Bag, RunEnd, FirstHeld;
    var m := FlushEndFacts(w, room);
    FirstHeldIs(w.held, w.head, w.head + w.size, FirstHeld(w.held, w.head, w.head + w.size));
    var h, e := FirstHeld(w.held, w.head, w.head + w.size), FlushEnd(w, room);
    Split(w.held, w.head, h, e);
    Vacant(w.held, w.head, h);
    Full(w.held, h, e);
  }

  lemma {:induction false} PassBatch(tids: seq<Option<Window>>, t: nat)
    requires t <= |tids| && ValidTids(tids)
    ensures |FlushUpTo(tids, t).batch| == if FirstRuns(tids, t) <= 64 then FirstRuns(tids, t) else 64
    decreases t
  {
    hide Flush, FirstRun;
    if t > 0 {
      PassBatch(tids, t - 1);
      var p := FlushUpTo(tids, t - 1);
      if Busy(tids[t - 1]) {
        FlushRun(tids[t - 1].value, 64 - |p.batch|);
      } else {
        NoRun(tids[t - 1]);
      }
    }
  }

  lemma NoRun(o: Option<Window>)
    requires !Busy(o)
    ensures FirstRun(o) == 0 && ReleasedWhole(o, o)
  {
  }

  ghost predicate PassIsWhole(tids: seq<Option<Window>>, t: nat)
    requires t <= |tids|
  {
    forall k :: 0 <= k < t ==> ReleasedWhole(tids[k], FlushUpTo(tids, t).tids[k])
  }

  /** A pass releases the whole first run of every TID exactly if these runs fit into one batch together. */
  lemma {:induction false} PassIsWholeExactly(tids: seq<Option<Window>>, t: nat)
    requires t <= |tids| && ValidTids(tids)
    ensures PassIsWhole(tids, t) <==> FirstRuns(tids, t) <= 64
    decreases t
  {
    hide Flush, FirstRun, ReleasedWhole;
    if t > 0 {
      PassIsWholeExactly(tids, t - 1);
      PassBatch(tids, t - 1);
      var p, q := FlushUpTo(tids, t - 1), FlushUpTo(tids, t);
      assert q == PassOver(p, t - 1);
      assert forall k :: 0 <= k < t - 1 ==> q.tids[k] == p.tids[k];
      if Busy(tids[t - 1]) {
        FlushRun(tids[t - 1].value, 64 - |p.batch|);
        assert q.tids[t - 1] == Some(Flush(tids[t - 1].value, 64 - |p.batch|).window);
      } else {
        NoRun(tids[t - 1]);
      }
      assert PassIsWhole(tids, t) <==> PassIsWhole(tids, t - 1) && ReleasedWhole(tids[t - 1], q.tids[t - 1]);
    }
  }

  /** Only the frame at the head is missing; those after it are there up to number `n`. */
  ghost function Gap(n: nat): Window { Window(0, 64, map k: nat | 1 <= k <= n :: Skb(k, k)) }

  lemma GapIsLong()
    ensures ValidWindow(Gap(63)) && Busy(Some(Gap(63))) && FirstRun(Some(Gap(63))) == 63
  {
    hide Count, RunEnd, FirstHeld;
    var w := Gap(63);
    assert 1 in w.held;
    CountMissing(w.held, 0, 0, 64);
    FirstHeldIs(w.held, 0, 64, 1);
    RunEndIs(w.held, 1, 64, 64);
  }

  /** One more frame behind the gap is buffered and releases nothing. */
  lemma GapGrows(n: nat)
    requires n < 63
    ensures Resolve(0, n + 1) == n + 1
    ensures Input(Gap(n), n + 1, Skb(n + 1, n + 1)) == InputResult(Gap(n + 1), [], false)
  {
    hide RunEnd;
    var held := Inserted(Gap(n).held, n + 1, Skb(n + 1, n + 1));
    RunEndIs(held, 0, 64, 0);
    assert held == Gap(n + 1).held;
    assert From(held, 0) == held;
  }

  ghost function FramesBehindGap(tid: nat, n: nat): seq<Event> {
    if n == 0 then [] else FramesBehindGap(tid, n - 1) + [Frame(tid, Skb(n, n), n)]
  }

  lemma Then(rx: Rx, es: seq<Event>, e: Event) returns (fs: seq<Event>)
    requires Runs(rx, es) && Enabled(Run(rx, es), e)
    ensures fs == es + [e] && Runs(rx, fs) && Run(rx, fs) == Step(Run(rx, es), e)
  {
    fs := es + [e];
    assert fs[..|fs| - 1] == es;
  }

  lemma GapFrame(rx: Rx, t: nat, n: nat)
    requires Inv(rx) && t < NUM_TID && rx.tids[t] == Some(Gap(n)) && n < 63
    ensures var rx' := FrameStep(rx, t, Skb(n + 1, n + 1), n + 1);
      rx'.tids == rx.tids[t := Some(Gap(n + 1))] && rx'.delivered == rx.delivered
  {
    hide Gap, Input, Resolve, Inv;
    GapGrows(n);
    assert Gap(n).size == 64 && Gap(n).head == 0 by { GapShape(n); }
  }

  lemma GapShape(n: nat)
    ensures Gap(n).size == 64 && Gap(n).head == 0
  {
  }

  lemma {:induction false} GapFills(rx: Rx, es: seq<Event>, t: nat, n: nat) returns (fs: seq<Event>)
    requires Runs(rx, es) && t < NUM_TID && Run(rx, es).tids[t] == Some(Gap(0)) && n <= 63
    ensures fs == es + FramesBehindGap(t, n)
    ensures Runs(rx, fs) && Run(rx, fs).tids == Run(rx, es).tids[t := Some(Gap(n))]
    ensures Run(rx, fs).delivered == Run(rx, es).delivered
  {
    hide Gap, FrameStep, Run, Runs;
    if n == 0 {
      fs := es;
    } else {
      var gs := GapFills(rx, es, t, n - 1);
      fs := Then(rx, gs, Frame(t, Skb(n, n), n));
      GapFrame(Run(rx, gs), t, n - 1);
    }
  }

  /**
   From eight idle TIDs: two set-ups, and on each of these TIDs all frames of its window but the
   first.  The next pass would have to release 126 frames, too many for one batch.
   */
  lemma PassCanBeCut() returns (es: seq<Event>)
    ensures Runs(IDLE, es)
    ensures var rx := Run(IDLE, es);
      rx.armed && rx.delivered == [] && FirstRuns(rx.tids, NUM_TID) == 126 && !PassIsWhole(rx.tids, NUM_TID)
  {
    hide Gap, ValidWindow, LabelledTids, Busy, FirstRun, FirstRuns, PassIsWhole, Run, Runs, FramesBehindGap;
    es := TwoSetups();
    es := GapFills(IDLE, es, 0, 63);
    es := GapFills(IDLE, es, 1, 63);
    var rx := Run(IDLE, es);
    TwoGapsAreTooMuch(rx);
  }

  lemma TwoGapsAreTooMuch(rx: Rx)
    requires Inv(rx) && rx.tids == [Some(Gap(63)), Some(Gap(63)), None, None, None, None, None, None]
    ensures rx.armed && FirstRuns(rx.tids, NUM_TID) == 126 && !PassIsWhole(rx.tids, NUM_TID)
  {
    hide Gap, ValidWindow, LabelledTids, Busy, FirstRun, FirstRuns, PassIsWhole;
    GapIsLong();
    assert Busy(rx.tids[0]);
    EightRuns(rx.tids);
    PassIsWholeExactly(rx.tids, NUM_TID);
  }

  const IDLE := Rx([None, None, None, None, None, None, None, None], [], multiset{}, false)

  lemma TwoSetups() returns (es: seq<Event>)
    ensures Runs(IDLE, es)
    ensures Run(IDLE, es).tids == [Some(Gap(0)), Some(Gap(0)), None, None, None, None, None, None]
    ensures Run(IDLE, es).delivered == []
  {
    assert Gap(0).held == map[];
    es := Then(IDLE, [], Setup(0, 0, 64, true));
    es := Then(IDLE, es, Setup(1, 0, 64, true));
  }

  lemma EightRuns(tids: seq<Option<Window>>)
    requires |tids| == 8 && forall t :: 2 <= t < 8 ==> tids[t] == None
    ensures FirstRuns(tids, 8) == FirstRun(tids[0]) + FirstRun(tids[1])
  {
    hide FirstRun;
    assert FirstRun(None) == 0 by { NoRun(None); }
    assert FirstRuns(tids, 1) == FirstRun(tids[0]);
    assert FirstRuns(tids, 2) == FirstRun(tids[0]) + FirstRun(tids[1]);
    assert FirstRuns(tids, 4) == FirstRuns(tids, 2);
    assert FirstRuns(tids, 6) == FirstRuns(tids, 2);
  }
}
