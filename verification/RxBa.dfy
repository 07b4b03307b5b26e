/**
 The receive side of the driver's BlockAck agreements: one reordering record per TID, the
 hole timer, and the two ways a frame leaves (delivered upwards or freed).
 */
module RxBa {
  import opened Wrappers
  import opened ReorderSpec
  import opened Reorder
  import opened ReorderRuns

  lemma InvFacts(rx: Rx)
    requires Inv(rx)
    ensures |rx.tids| == NUM_TID
    ensures forall t :: 0 <= t < NUM_TID && rx.tids[t].Some? ==> 1 <= rx.tids[t].value.size <= 64
  {
  }

  lemma FrameStepIs(rx: Rx, tid: nat, skb: Skb, sn: nat)
    requires Inv(rx) && tid < NUM_TID && sn == skb.sn < 4096
    ensures match rx.tids[tid]
      case None =>
        Step(rx, Event.Frame(tid, skb, sn)) == Rx(rx.tids, rx.delivered + [Delivery(tid, None, skb)], rx.freed, rx.armed)
      case Some(w) =>
        && w.size >= 1
        && var r := Input(w, Resolve(w.head, sn), skb);
           Step(rx, Event.Frame(tid, skb, sn)) ==
             Rx(rx.tids[tid := Some(r.window)],
                rx.delivered + Tag(tid, r.frames),
                if r.dropped then rx.freed + multiset{skb} else rx.freed,
                rx.armed || (Resolve(w.head, sn) >= w.head && r.window.held != map[]))
  {
  }

  /** A record is present exactly when its TID has an agreement, and stands for its window. */
  ghost predicate RecordOk(r: RxReorder?, t: Option<Window>)
    reads if r == null then {} else {r, r.buf}
  {
    && (r == null <==> t.None?)
    && (r != null ==> r.Valid() && r.Win() == t.value)
  }

  lemma SetupStepIs(rx: Rx, tid: nat, ssn: nat, bufsize: nat, allocOk: bool)
    requires Inv(rx)
    ensures Step(rx, Event.Setup(tid, ssn, bufsize, allocOk)) ==
      if tid >= NUM_TID || (rx.tids[tid].None? && !allocOk) then rx
      else Rx(rx.tids[tid := Some(Window(ssn % 4096, WindowSize(bufsize), map[]))],
              rx.delivered, rx.freed + BufferedIn(rx.tids[tid]), rx.armed)
  {
  }

  lemma TeardownStepIs(rx: Rx, tid: nat)
    requires Inv(rx)
    ensures Step(rx, Event.Teardown(tid)) ==
      if tid >= NUM_TID then rx
      else Rx(rx.tids[tid := None], rx.delivered, rx.freed + BufferedIn(rx.tids[tid]), rx.armed)
  {
  }

  lemma NoFrames()
    ensures Frames([]) == []
  {
  }

  lemma BatchLength(ds: seq<Delivery>)
    ensures |Frames(ds)| == |ds|
  {
  }

  lemma EmptySlots(s: seq<Option<Skb>>, num: seq<nat>, w: Window)
    requires Holds(s, num, w)
    requires forall k :: 0 <= k < MAX_BUF ==> s[k] == None
    ensures s == seq(MAX_BUF, _ => None)
    ensures Buffered(w) == multiset{}
  {
    forall k | w.head <= k < w.head + w.size
      ensures k !in w.held
    {
      SlotAt(s, num, w, k);
    }
    Vacant(w.held, w.head, w.head + w.size);
  }

  class Receiver {
    const rxBa: array<RxReorder?>
    var timerArmed: bool
    ghost var delivered: seq<Delivery>   // calls of deliverDataFrame, in order
    ghost var freed: multiset<Skb>       // calls of kfree_skb

    ghost var tids: seq<Option<Window>>
    ghost var repr: set<object>

    ghost function State(): Rx
      reads this
    {
      Rx(tids, delivered, freed, timerArmed)
    }

    ghost predicate Valid()
      reads this, rxBa, repr
    {
      Shape() && Inv(State())
    }

    ghost predicate Shape()
      reads this, rxBa, repr
    {
      && this in repr && rxBa in repr
      && rxBa.Length == |tids| == NUM_TID
      && (forall i :: 0 <= i < NUM_TID && rxBa[i] != null ==> rxBa[i] in repr && rxBa[i].buf in repr)
      && (forall i :: 0 <= i < NUM_TID ==> RecordOk(rxBa[i], tids[i]))
      && (forall i, j :: 0 <= i < j < NUM_TID && rxBa[i] != null && rxBa[j] != null ==>
            rxBa[i] != rxBa[j] && rxBa[i].buf != rxBa[j].buf)
    }

    constructor ()
      ensures Valid() && fresh(repr)
      ensures State() == Rx(seq(NUM_TID, _ => None), [], multiset{}, false)
    {
      rxBa := new RxReorder?[NUM_TID](_ => null);
      timerArmed := false;
      delivered, freed := [], multiset{};
      tids := seq(NUM_TID, _ => None);
      repr := {this, rxBa};
    }

    lemma ActiveWhenValid(r: RxReorder?)
      requires r != null ==> r.Valid()
      ensures r != null ==> r.active
    {
    }

    method KfreeSkb(skb: Skb)
      modifies this`freed
      ensures freed == old(freed) + multiset{skb}
    {
      freed := freed + multiset{skb};
    }

    method DeliverDataFrame(skb: Skb, ghost d: Delivery)
      requires d.skb == skb
      modifies this`delivered
      ensures delivered == old(delivered) + [d]
    {
      delivered := delivered + [d];
    }

    /** The delivery loop that runs after the lock is dropped. */
    method DeliverAll(out: array<Skb>, nout: nat, ghost ds: seq<Delivery>)
      requires nout <= out.Length && out[..nout] == Frames(ds)
      modifies this`delivered
      ensures delivered == old(delivered) + ds
    {
      assert |ds| == nout;
      var i := 0;
      while i < nout
        invariant 0 <= i <= nout
        invariant delivered == old(delivered) + ds[..i]
      {
        assert out[i] == out[..nout][i] == Frames(ds)[i] == ds[i].skb;
        DeliverDataFrame(out[i], ds[i]);
        assert ds[..i + 1] == ds[..i] + [ds[i]];
        i := i + 1;
      }
      assert ds[..nout] == ds;
    }

    /** What follows a record's step: free the frame if refused, deliver the batch, arm the timer. */
    method Settle(skb: Skb, dropped: bool, out: array<Skb>, nout: nat, needTimer: bool, ghost ds: seq<Delivery>)
      requires nout <= out.Length && out[..nout] == Frames(ds)
      modifies this`freed, this`delivered, this`timerArmed
      ensures freed == if dropped then old(freed) + multiset{skb} else old(freed)
      ensures delivered == old(delivered) + ds
      ensures timerArmed == (old(timerArmed) || needTimer)
    {
      if dropped {
        KfreeSkb(skb);
      }
      DeliverAll(out, nout, ds);
      if needTimer {
        timerArmed := true;
      }
    }

    /** The step of a TID that has an agreement. */
    method ReorderFrame(tid: nat, skb: Skb, sn: nat)
      requires Shape() && tid < NUM_TID && sn < 4096 && tids[tid].Some? && tids[tid].value.size >= 1
      modifies repr
      ensures Shape() && repr == old(repr)
      ensures var w := old(tids[tid].value);
        var a := Resolve(w.head, sn);
        var r := Input(w, a, skb);
        && tids == old(tids)[tid := Some(r.window)]
        && delivered == old(delivered) + Tag(tid, r.frames)
        && freed == (if r.dropped then old(freed) + multiset{skb} else old(freed))
        && timerArmed == (old(timerArmed) || (a >= w.head && r.window.held != map[]))
    {
      hide Input, Holds, Stored, ValidWindow, Resolve, Frames, Skbs, Tag, InRange;
      assert RecordOk(rxBa[tid], tids[tid]);
      var r := rxBa[tid];
      ghost var w := r.Win();
      ghost var res := Input(w, Resolve(w.head, sn), skb);
      var out := new Skb[MAX_BUF](_ => skb);
      var nout, dropped, needTimer := r.Input(skb, sn, out);
      tids := tids[tid := Some(res.window)];
      FramesTag(tid, res.frames);
      Settle(skb, dropped, out, nout, needTimer, Tag(tid, res.frames));
      assert RecordOk(rxBa[tid], tids[tid]);
    }

    /** One received QoS data frame of a TID. */
    method RxReorderInput(tid: nat, skb: Skb, sn: nat)
      requires Valid() && Enabled(State(), Event.Frame(tid, skb, sn))
      modifies repr
      ensures Valid() && repr == old(repr)
      ensures State() == Step(old(State()), Event.Frame(tid, skb, sn))
    {
      hide Inv, Input, ValidWindow, Step, FrameStep, Resolve, Tag;
      ghost var s := State();
      InvFacts(s);
      StepKeeps(s, Event.Frame(tid, skb, sn));
      FrameStepIs(s, tid, skb, sn);
      assert RecordOk(rxBa[tid], tids[tid]);
      ActiveWhenValid(rxBa[tid]);
      if rxBa[tid] == null || !rxBa[tid].active {
        DeliverDataFrame(skb, Delivery(tid, None, skb));
      } else {
        ReorderFrame(tid, skb, sn);
      }
      assert State() == Step(s, Event.Frame(tid, skb, sn));
    }

    /** ADDBA: start or restart an agreement; `allocOk` says whether an allocation succeeds. */
    method RxBaSetup(tid: nat, ssn: nat, bufsize: nat, allocOk: bool)
      requires Valid()
      modifies repr
      ensures Valid() && fresh(repr - old(repr))
      ensures State() == Step(old(State()), Event.Setup(tid, ssn, bufsize, allocOk))
    {
      hide Inv, ValidWindow, Step;
      ghost var s := State();
      InvFacts(s);
      StepKeeps(s, Event.Setup(tid, ssn, bufsize, allocOk));
      SetupStepIs(s, tid, ssn, bufsize, allocOk);
      if tid < NUM_TID {
        var size := if bufsize == 0 || bufsize > MAX_BUF then MAX_BUF else bufsize;
        assert RecordOk(rxBa[tid], tids[tid]);
        if rxBa[tid] == null {
          if allocOk {
            NewRecord(tid, ssn, size);
          }
        } else {
          Restart(tid, ssn, size);
        }
      }
      assert State() == Step(s, Event.Setup(tid, ssn, bufsize, allocOk));
    }

    method NewRecord(tid: nat, ssn: nat, size: nat)
      requires Shape() && tid < NUM_TID && rxBa[tid] == null && 1 <= size <= 64
      modifies this`tids, this`repr, rxBa
      ensures Shape() && fresh(repr - old(repr))
      ensures tids == old(tids)[tid := Some(Window(ssn % 4096, size, map[]))]
    {
      hide Holds, Stored, InRange;
      var r := new RxReorder.Zeroed();
      r.Activate(ssn, size);
      rxBa[tid] := r;
      tids := tids[tid := Some(r.Win())];
      repr := repr + {r, r.buf};
    }

    method Restart(tid: nat, ssn: nat, size: nat)
      requires Shape() && tid < NUM_TID && rxBa[tid] != null && 1 <= size <= 64
      modifies repr
      ensures Shape() && repr == old(repr) && delivered == old(delivered) && timerArmed == old(timerArmed)
      ensures tids == old(tids)[tid := Some(Window(ssn % 4096, size, map[]))]
      ensures freed == old(freed) + BufferedIn(old(tids[tid]))
    {
      hide Holds, Stored, InRange, Buffered;
      assert RecordOk(rxBa[tid], tids[tid]);
      var r := rxBa[tid];
      FreeSlots(r);
      r.Activate(ssn, size);
      tids := tids[tid := Some(r.Win())];
      assert RecordOk(rxBa[tid], tids[tid]);
    }

    /** Free every buffered frame of a record. */
    method FreeSlots(r: RxReorder)
      requires r.Counted()
      modifies this`freed, r`held, r.buf
      ensures r.buf[..] == seq(MAX_BUF, _ => None)
      ensures freed == old(freed) + Buffered(old(r.Win()))
    {
      hide Stored, Buffered, InRange;
      HoldsRange(r.buf[..], r.num, r.Win());
      var i := 0;
      while i < MAX_BUF
        invariant 0 <= i <= MAX_BUF
        invariant Holds(r.buf[..], r.num, r.Win())
        invariant forall k :: 0 <= k < i ==> r.buf[k] == None
        invariant freed + Buffered(r.Win()) == old(freed) + Buffered(old(r.Win()))
      {
        if r.buf[i].Some? {
          ghost var b, f := Buffered(r.Win()), freed;
          var skb := r.TakeSlot(i);
          KfreeSkb(skb);
          assert freed + Buffered(r.Win()) == f + (Buffered(r.Win()) + multiset{skb});
        }
        i := i + 1;
      }
      EmptySlots(r.buf[..], r.num, r.Win());
      assert freed == freed + Buffered(r.Win());
    }

    /** DELBA or disconnect: drop an agreement and free what it buffered. */
    method RxBaTeardown(tid: nat)
      requires Valid()
      modifies repr
      ensures Valid() && repr == old(repr)
      ensures State() == Step(old(State()), Event.Teardown(tid))
    {
      hide Inv, ValidWindow, Step, Buffered;
      ghost var s := State();
      InvFacts(s);
      StepKeeps(s, Event.Teardown(tid));
      TeardownStepIs(s, tid);
      if tid < NUM_TID {
        Drop(tid);
      }
      assert State() == Step(s, Event.Teardown(tid));
    }

    method Drop(tid: nat)
      requires Shape() && tid < NUM_TID
      modifies repr
      ensures Shape() && repr == old(repr) && delivered == old(delivered) && timerArmed == old(timerArmed)
      ensures tids == old(tids)[tid := None]
      ensures freed == old(freed) + BufferedIn(old(tids[tid]))
    {
      hide Holds, Stored, InRange, Buffered;
      assert RecordOk(rxBa[tid], tids[tid]);
      var r := rxBa[tid];
      if r != null {
        rxBa[tid] := null;
        tids := tids[tid := None];
        FreeSlots(r);
      }
    }

    method RxBaTeardownAll()
      requires Valid()
      modifies repr
      ensures Valid() && repr == old(repr)
      ensures forall t :: 0 <= t < NUM_TID ==> tids[t] == None
      ensures delivered == old(delivered) && timerArmed == old(timerArmed)
      ensures Total(State()) == old(Total(State()))
    {
      hide Inv, Total, Step;
      var tid := 0;
      while tid < NUM_TID
        invariant 0 <= tid <= NUM_TID && Valid() && repr == old(repr)
        invariant forall t :: 0 <= t < tid ==> tids[t] == None
        invariant delivered == old(delivered) && timerArmed == old(timerArmed)
        invariant Total(State()) == old(Total(State()))
      {
        StepKeeps(State(), Event.Teardown(tid));
        TeardownStepIs(State(), tid);
        RxBaTeardown(tid);
        tid := tid + 1;
      }
    }

    /** The hole timer's work on one TID of the pass `p`. */
    method FlushRecord(tid: nat, out: array<Skb>, nout: nat, again: bool, ghost p: Pass) returns (n: nat, more: bool)
      requires Shape() && tid < NUM_TID && p.tids == tids && out !in repr
      requires out.Length == MAX_BUF && nout <= MAX_BUF && out[..nout] == Frames(p.batch) && again == p.again
      modifies repr, out
      ensures Shape() && repr == old(repr)
      ensures delivered == old(delivered) && freed == old(freed) && timerArmed == old(timerArmed)
      ensures var q := PassOver(p, tid);
        tids == q.tids && n <= MAX_BUF && out[..n] == Frames(q.batch) && more == q.again
    {
      hide Holds, Stored, InRange, Frames, Tag, Skbs, Flush;
      assert RecordOk(rxBa[tid], tids[tid]);
      var r := rxBa[tid];
      RecordBusy(r, tids[tid]);
      if r == null || !r.active || r.stored == 0 {
        n, more := nout, again;
      } else {
        ghost var w := r.Win();
        ghost var res := Flush(w, MAX_BUF - nout);
        BatchLength(p.batch);
        n, more := r.FlushStale(out, nout);
        more := again || more;
        tids := tids[tid := Some(res.window)];
        FramesTag(tid, res.frames);
        FramesConcat(p.batch, Tag(tid, res.frames));
        assert RecordOk(rxBa[tid], tids[tid]);
      }
    }

    lemma RecordBusy(r: RxReorder?, t: Option<Window>)
      requires RecordOk(r, t)
      ensures r != null && r.active && r.stored != 0 <==> Busy(t)
    {
      if r != null {
        StoredZero(r.Win());
      }
    }

    /** The hole timer fires. */
    method RxReorderFlushStale()
      requires Valid() && Enabled(State(), Event.Timer)
      modifies repr
      ensures Valid() && repr == old(repr)
      ensures State() == Step(old(State()), Event.Timer)
    {
      hide Inv, PassOver, Frames, RecordOk;
      ghost var s := State();
      StepKeeps(s, Event.Timer);
      var out := new Skb[MAX_BUF](_ => Skb(0, 0));
      var nout: nat := 0;
      var again := false;
      NoFrames();
      timerArmed := false;   // the one-shot timer has fired
      var tid := 0;
      while tid < NUM_TID
        invariant 0 <= tid <= NUM_TID && Shape() && repr == old(repr) && out !in repr
        invariant delivered == s.delivered && freed == s.freed && !timerArmed
        invariant var p := FlushUpTo(s.tids, tid);
          tids == p.tids && nout <= MAX_BUF && out[..nout] == Frames(p.batch) && again == p.again
      {
        nout, again := FlushRecord(tid, out, nout, again, FlushUpTo(s.tids, tid));
        tid := tid + 1;
      }
      DeliverAll(out, nout, FlushUpTo(s.tids, NUM_TID).batch);
      if again {
        timerArmed := true;
      }
      assert State() == Step(s, Event.Timer);
    }
  }
}
