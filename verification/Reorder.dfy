/**
 One receive reordering record: 64 slots, a 12-bit head, a window size and a counter.
 The ghost fields give the unbounded numbers; `Win()` is the window it stands for.
 */
module Reorder {
  import opened Wrappers
  import opened ReorderSpec

  const MAX_BUF := 64

  /** Numbers less than 64 apart have different slots; 64 divides 4096. */
  lemma SlotInjective(a: nat, b: nat)
    requires a <= b < a + 64
    requires a % 64 == b % 64
    ensures a == b
  {
    assert a == 64 * (a / 64) + a % 64 && b == 64 * (b / 64) + b % 64;
  }

  lemma SlotOfSn(a: nat)
    ensures (a % 4096) % 64 == a % 64
  {
    assert a == 4096 * (a / 4096) + a % 4096;
    assert a == 64 * (64 * (a / 4096)) + a % 4096;
  }

  /** `(x - y) & 0xFFF`, the distance between two 12-bit numbers. */
  function SnDist(x: nat, y: nat): nat { (x - y) % 4096 }

  lemma SnDifference(lo: nat, hi: nat)
    requires lo <= hi < lo + 4096
    ensures SnDist(hi % 4096, lo % 4096) == hi - lo
  {
    assert hi == 4096 * (hi / 4096) + hi % 4096 && lo == 4096 * (lo / 4096) + lo % 4096;
  }

  lemma SnSuccessor(a: nat)
    ensures (a % 4096 + 1) % 4096 == (a + 1) % 4096
  {
  }

  // ---------- 64 slots against a window, as values ----------

  /** The slots `s` hold exactly the frames of `w`; `num[i]` numbers the frame in slot i. */
  ghost predicate Holds(s: seq<Option<Skb>>, num: seq<nat>, w: Window) {
    && |s| == |num| == MAX_BUF
    && InRange(w)
    && (forall a :: a in w.held ==> s[a % 64] == Some(w.held[a]))
    && (forall i :: 0 <= i < MAX_BUF && s[i].Some? ==> num[i] in w.held && num[i] % 64 == i)
  }

  lemma HoldsRange(s: seq<Option<Skb>>, num: seq<nat>, w: Window)
    requires Holds(s, num, w)
    ensures |s| == MAX_BUF && InRange(w)
  {
  }

  /** A slot is full exactly when the window number that maps to it is buffered. */
  lemma SlotAt(s: seq<Option<Skb>>, num: seq<nat>, w: Window, a: nat)
    requires Holds(s, num, w)
    requires w.head <= a < w.head + w.size
    ensures s[a % 64].Some? <==> a in w.held
  {
    if s[a % 64].Some? {
      var n := num[a % 64];
      if a <= n { SlotInjective(a, n); } else { SlotInjective(n, a); }
    }
  }

  lemma SlotApart(w: Window, a: nat, k: nat)
    requires InRange(w)
    requires k in w.held && w.head <= a < w.head + w.size && k != a
    ensures k % 64 != a % 64
  {
    if k % 64 == a % 64 {
      if a <= k { SlotInjective(a, k); } else { SlotInjective(k, a); }
    }
  }

  lemma HoldsTake(s: seq<Option<Skb>>, num: seq<nat>, w: Window)
    requires Holds(s, num, w)
    requires w.head in w.held
    ensures Holds(s[w.head % 64 := None], num, After(w.held, w.head + 1, w.size))
  {
    var t, v := s[w.head % 64 := None], After(w.held, w.head + 1, w.size);
    forall a | a in v.held
      ensures t[a % 64] == Some(v.held[a])
    {
      SlotApart(w, w.head, a);
    }
  }

  lemma HoldsSkip(s: seq<Option<Skb>>, num: seq<nat>, w: Window)
    requires Holds(s, num, w)
    requires w.head !in w.held
    ensures From(w.held, w.head + 1) == w.held
    ensures Holds(s, num, Window(w.head + 1, w.size, w.held))
  {
  }

  lemma HoldsPut(s: seq<Option<Skb>>, num: seq<nat>, w: Window, a: nat, f: Skb)
    requires Holds(s, num, w)
    requires w.head <= a < w.head + w.size && a !in w.held
    ensures Holds(s[a % 64 := Some(f)], num[a % 64 := a], Window(w.head, w.size, w.held[a := f]))
  {
    var t := s[a % 64 := Some(f)];
    forall k | k in w.held
      ensures t[k % 64] == Some(w.held[k])
    {
      SlotApart(w, a, k);
    }
  }

  lemma HoldsRemove(s: seq<Option<Skb>>, num: seq<nat>, w: Window, i: nat)
    requires Holds(s, num, w)
    requires i < MAX_BUF && s[i].Some?
    ensures var v := Window(w.head, w.size, w.held - {num[i]});
      && Holds(s[i := None], num, v)
      && Buffered(v) + multiset{s[i].value} == Buffered(w)
  {
    hide InOrder, Count, Bag;
    var a := num[i];
    var v := Window(w.head, w.size, w.held - {a});
    forall k | k in v.held
      ensures s[i := None][k % 64] == Some(v.held[k])
    {
      SlotApart(w, a, k);
    }
    assert v.held[a := w.held[a]] == w.held;
    Insert(v.held, w.head, a, w.head + w.size, w.held[a]);
  }

  lemma TakeStored(w: Window)
    requires InRange(w) && w.head in w.held
    ensures Stored(After(w.held, w.head + 1, w.size)) + 1 == Stored(w)
    ensures InOrder(w.held, w.head, w.head + 1) == [Numbered(w.head, w.held[w.head])]
  {
    AfterKeeps(w.held, w.head, w.head + 1, w.head + w.size, w.size);
    Vacant(w.held, w.head, w.head);
    assert InOrder(w.held, w.head, w.head + 1) == InOrder(w.held, w.head, w.head) + [Numbered(w.head, w.held[w.head])];
  }

  lemma SkipStored(w: Window)
    requires InRange(w) && w.head !in w.held
    ensures Stored(Window(w.head + 1, w.size, w.held)) == Stored(w)
    ensures InOrder(w.held, w.head, w.head + 1) == []
  {
    Vacant(w.held, w.head, w.head + 1);
    Vacant(w.held, w.head + w.size, w.head + w.size + 1);
    Split(w.held, w.head, w.head + 1, w.head + 1 + w.size);
    Split(w.held, w.head, w.head + w.size, w.head + 1 + w.size);
  }

  /** Taking the head out of what is left from `h` on. */
  lemma TakeNext(held: map<nat, Skb>, lo: nat, h: nat, size: nat)
    requires lo <= h
    ensures After(From(held, h), h + 1, size) == After(held, h + 1, size)
    ensures InOrder(held, lo, h + 1) == InOrder(held, lo, h) + if h in held then [Numbered(h, held[h])] else []
    ensures h in From(held, h) <==> h in held
    ensures h in held ==> From(held, h)[h] == held[h]
    ensures h !in held ==> After(held, h + 1, size) == Window(h + 1, size, From(held, h))
  {
    FromFrom(held, h, h + 1);
  }

  lemma SkbsSnoc(s: seq<Numbered>, x: Numbered)
    ensures Skbs(s + [x]) == Skbs(s) + [x.skb]
  {
  }

  /** Where a release that may take `room` frames stops. */
  ghost function RunLimit(w: Window, room: nat): nat {
    var e := RunEnd(w.held, w.head, w.head + w.size);
    if e <= w.head + room then e else w.head + room
  }

  lemma RunLimitUnique(w: Window, room: nat, h: nat)
    requires InRange(w)
    requires w.head <= h <= w.head + room
    requires h <= RunEnd(w.held, w.head, w.head + w.size)
    requires h !in w.held || h == w.head + room
    ensures RunLimit(w, room) == h
  {
    var e := RunEnd(w.held, w.head, w.head + w.size);
    assert h < e ==> h in w.held;
  }

  lemma AfterNothing(w: Window)
    requires InRange(w)
    ensures After(w.held, w.head, w.size) == w
    ensures InOrder(w.held, w.head, w.head) == []
  {
    assert From(w.held, w.head) == w.held;
  }

  lemma BeforeRunEnd(held: map<nat, Skb>, lo: nat, bound: nat, h: nat)
    requires lo <= bound && lo <= h <= RunEnd(held, lo, bound) && h in held
    requires forall k :: k in held ==> k < bound
    ensures h < RunEnd(held, lo, bound)
  {
  }

  lemma CountRun(held: map<nat, Skb>, lo: nat, hi: nat)
    requires lo <= hi
    requires forall k :: lo <= k < hi ==> k in held
    ensures Count(held, lo, hi) == hi - lo
  {
    Full(held, lo, hi);
    InOrderCounts(held, lo, hi);
  }

  /** A run is no longer than the number of buffered frames. */
  lemma RunFits(w: Window, room: nat)
    requires InRange(w) && Stored(w) <= room
    ensures RunLimit(w, room) == RunEnd(w.held, w.head, w.head + w.size)
  {
    var e := RunEnd(w.held, w.head, w.head + w.size);
    CountRun(w.held, w.head, e);
    Split(w.held, w.head, e, w.head + w.size);
  }

  lemma SkbsConcat(s: seq<Numbered>, t: seq<Numbered>)
    ensures Skbs(s + t) == Skbs(s) + Skbs(t)
  {
  }

  lemma FlushParts(w: Window, room: nat, m: nat)
    requires InRange(w)
    requires w.head <= m < w.head + w.size && m in w.held
    requires forall k :: w.head <= k < m ==> k !in w.held
    ensures RunLimit(Window(m, w.size, w.held), room) == FlushEnd(w, room)
    ensures InOrder(w.held, w.head, FlushEnd(w, room)) == InOrder(w.held, m, FlushEnd(w, room))
  {
    hide InOrder, Count, Bag;
    FirstHeldIs(w.held, w.head, w.head + w.size, m);
    var r := RunLimit(Window(m, w.size, w.held), room);
    RunEndIs(w.held, m, m + w.size, RunEnd(w.held, m, w.head + w.size));
    Vacant(w.held, w.head, m);
    Split(w.held, w.head, m, r);
  }

  class RxReorder {
    var active: bool
    var headSn: nat
    var bufSize: nat
    var stored: nat
    const buf: array<Option<Skb>>
    ghost var head: nat
    ghost var held: map<nat, Skb>
    ghost var num: seq<nat>

    ghost function Win(): Window
      reads this
    {
      Window(head, bufSize, held)
    }

    ghost predicate Counted()
      reads this, buf
    {
      && Holds(buf[..], num, Win())
      && headSn == head % 4096
      && stored == Stored(Win())
    }

    /** The state between steps: one slot of the window is always free. */
    ghost predicate Valid()
      reads this, buf
    {
      Counted() && active && stored < bufSize
    }

    constructor Zeroed()
      ensures !active && headSn == bufSize == stored == 0
      ensures fresh(buf) && buf[..] == seq(MAX_BUF, _ => None)
    {
      active, headSn, bufSize, stored := false, 0, 0, 0;
      buf := new Option<Skb>[MAX_BUF](_ => None);
      head, held, num := 0, map[], [];
    }

    /** Move the buffered head frame to `out` and advance. */
    method TakeHead(out: array<Skb>, nout: nat) returns (n: nat)
      requires Counted() && head in held && nout < out.Length
      modifies this, buf, out
      ensures Counted() && n == nout + 1
      ensures Win() == After(old(held), old(head) + 1, old(bufSize)) && active == old(active)
      ensures stored + 1 == old(stored)
      ensures out[..n] == old(out[..nout]) + [old(held)[old(head)]]
    {
      ghost var s, w := buf[..], Win();
      ghost var v := After(w.held, w.head + 1, w.size);
      SlotOfSn(w.head);
      HoldsTake(s, num, w);
      TakeStored(w);
      SnSuccessor(w.head);
      var hidx := headSn % 64;
      assert s[hidx] == Some(w.held[w.head]);
      out[nout] := buf[hidx].value;
      n := nout + 1;
      assert buf[..] == s;
      buf[hidx] := None;
      assert buf[..] == s[hidx := None];
      stored := stored - 1;
      headSn := (headSn + 1) % 4096;
      head, held := v.head, v.held;
      assert Win() == v;
    }

    /** Advance past a hole. */
    method SkipHead()
      requires Counted() && head !in held
      modifies this
      ensures Counted() && stored == old(stored) && active == old(active)
      ensures Win() == Window(old(head) + 1, old(bufSize), old(held))
    {
      HoldsSkip(buf[..], num, Win());
      SkipStored(Win());
      SnSuccessor(head);
      headSn := (headSn + 1) % 4096;
      head := head + 1;
    }

    /** Empty one slot, as set-up and teardown do. */
    method TakeSlot(i: nat) returns (skb: Skb)
      requires i < MAX_BUF && Holds(buf[..], num, Win()) && buf[i].Some?
      modifies this`held, buf
      ensures Holds(buf[..], num, Win())
      ensures buf[..] == old(buf[..])[i := None]
      ensures Buffered(Win()) + multiset{skb} == old(Buffered(Win()))
    {
      hide InOrder, Count, Bag;
      ghost var s, w := buf[..], Win();
      HoldsRemove(s, num, w, i);
      skb := buf[i].value;
      buf[i] := None;
      held := held - {num[i]};
      assert buf[..] == s[i := None];
    }

    /** Start an agreement on a record whose slots are empty. */
    method Activate(ssn: nat, size: nat)
      requires buf[..] == seq(MAX_BUF, _ => None) && 1 <= size <= 64
      modifies this
      ensures Valid() && Win() == Window(ssn % 4096, size, map[])
    {
      active := true;
      headSn := ssn % 4096;
      bufSize := size;
      stored := 0;
      head, held, num := ssn % 4096, map[], seq(MAX_BUF, _ => 0);
      StoredZero(Win());
    }

    /** The slide of a frame ahead of the window: release what falls out at the bottom. */
    method Slide(sn: nat, out: array<Skb>, ghost a: nat) returns (nout: nat)
      requires Valid() && out.Length == MAX_BUF
      requires head + bufSize <= a < head + 2048 && sn == a % 4096
      modifies this, buf, out
      ensures Counted() && active && nout + stored == old(stored)
      ensures Win() == After(old(held), Low(old(Win()), a), old(bufSize))
      ensures nout <= MAX_BUF && out[..nout] == Skbs(InOrder(old(held), old(head), head))
    {
      hide Holds, InOrder, Count, Bag, From;
      HoldsRange(buf[..], num, Win());
      ghost var w := Win();
      ghost var low := a + 1 - bufSize;
      nout := 0;
      var newHead := (sn + 1 - bufSize) % 4096;
      assert newHead == low % 4096;
      AfterNothing(w);
      SnDifference(head, low);
      while SnDist(newHead, headSn) != 0 && SnDist(newHead, headSn) < 2048 && nout < MAX_BUF
        invariant Counted() && active && w.head <= head <= low
        invariant Win() == After(w.held, head, w.size)
        invariant nout + stored == old(stored)
        invariant SnDist(newHead, headSn) == low - head
        invariant out[..nout] == Skbs(InOrder(w.held, w.head, head))
        decreases low - head
      {
        ghost var h := head;
        HoldsRange(buf[..], num, Win());
        TakeNext(w.held, w.head, h, w.size);
        SnDifference(h + 1, low);
        var hidx := headSn % 64;
        SlotOfSn(h);
        SlotAt(buf[..], num, Win(), h);
        if buf[hidx].Some? {
          SkbsSnoc(InOrder(w.held, w.head, h), Numbered(h, w.held[h]));
          nout := TakeHead(out, nout);
        } else {
          SkipHead();
        }
        assert Win() == After(w.held, h + 1, w.size);
      }
    }

    /** Buffer a frame of the window, or report it as a duplicate. */
    method Put(skb: Skb, sn: nat, ghost a: nat) returns (dropped: bool)
      requires Counted() && head <= a < head + bufSize && sn == a % 4096
      modifies this, buf
      ensures Counted() && active == old(active)
      ensures Win() == Window(old(head), old(bufSize), Inserted(old(held), a, skb))
      ensures dropped <==> a in old(held)
      ensures stored == old(stored) + if dropped then 0 else 1
    {
      ghost var s := buf[..];
      SlotOfSn(a);
      SlotAt(s, num, Win(), a);
      var idx := sn % 64;
      dropped := buf[idx].Some?;
      if !dropped {
        HoldsPut(s, num, Win(), a, skb);
        Insert(held, head, a, head + bufSize, skb);
        buf[idx] := Some(skb);
        stored := stored + 1;
        held, num := held[a := skb], num[idx := a];
        assert buf[..] == s[idx := Some(skb)];
      }
    }

    /** Release the run that starts at the head, as far as `out` has room. */
    method Release(out: array<Skb>, from: nat) returns (nout: nat)
      requires Counted() && out.Length == MAX_BUF && from <= MAX_BUF
      modifies this, buf, out
      ensures Counted() && active == old(active)
      ensures nout <= MAX_BUF && nout + stored == from + old(stored)
      ensures var r := RunLimit(old(Win()), MAX_BUF - from);
        && Win() == After(old(held), r, old(bufSize))
        && out[..nout] == old(out[..from]) + Skbs(InOrder(old(held), old(head), r))
    {
      hide Holds, InOrder, Count, Bag, From, RunEnd;
      HoldsRange(buf[..], num, Win());
      ghost var w, prefix := Win(), out[..from];
      ghost var e := RunEnd(w.held, w.head, w.head + w.size);
      AfterNothing(w);
      nout := from;
      while stored > 0 && nout < MAX_BUF
        invariant Counted() && active == old(active) && w.head <= head <= e
        invariant Win() == After(w.held, head, w.size)
        invariant nout + stored == from + old(stored)
        invariant nout - from == head - w.head && nout <= MAX_BUF
        invariant out[..nout] == prefix + Skbs(InOrder(w.held, w.head, head))
        decreases stored
      {
        ghost var h := head;
        HoldsRange(buf[..], num, Win());
        TakeNext(w.held, w.head, h, w.size);
        var hidx := headSn % 64;
        SlotOfSn(h);
        SlotAt(buf[..], num, Win(), h);
        if !buf[hidx].Some? {
          break;
        }
        SkbsSnoc(InOrder(w.held, w.head, h), Numbered(h, w.held[h]));
        BeforeRunEnd(w.held, w.head, w.head + w.size, h);
        nout := TakeHead(out, nout);
        assert Win() == After(w.held, h + 1, w.size);
      }
      TakeNext(w.held, w.head, head, w.size);
      HoldsRange(buf[..], num, Win());
      StoredZero(Win());
      RunLimitUnique(w, MAX_BUF - from, head);
    }

    /** A frame at or ahead of the head: slide, buffer, release. */
    method Admit(skb: Skb, sn: nat, out: array<Skb>, ghost a: nat) returns (nout: nat, dropped: bool)
      requires Valid() && out.Length == MAX_BUF
      requires head <= a < head + 2048 && sn == a % 4096 && SnDist(sn, headSn) == a - head
      modifies this, buf, out
      ensures Counted() && active && nout <= MAX_BUF
      ensures var r := ReorderSpec.Input(old(Win()), a, skb);
        Win() == r.window && out[..nout] == Skbs(r.frames) && dropped == r.dropped
    {
      hide Holds, InOrder, Count, Bag, RunEnd;
      HoldsRange(buf[..], num, Win());
      ghost var w := Win();
      ghost var low := Low(w, a);
      nout := 0;
      if SnDist(sn, headSn) >= bufSize {
        nout := Slide(sn, out, a);
      } else {
        AfterNothing(w);
      }
      assert Win() == After(w.held, low, w.size);
      assert out[..nout] == Skbs(InOrder(w.held, w.head, low));
      dropped := Put(skb, sn, a);
      ghost var v := Win();
      assert v == Window(low, w.size, Inserted(From(w.held, low), a, skb));
      ghost var r := RunEnd(v.held, low, low + w.size);
      RunFits(v, MAX_BUF - nout);
      assert RunLimit(v, MAX_BUF - nout) == r;
      nout := Release(out, nout);
      assert Win() == After(v.held, r, w.size);
      SkbsConcat(InOrder(w.held, w.head, low), InOrder(v.held, low, r));
      assert out[..nout] == Skbs(InOrder(w.held, w.head, low) + InOrder(v.held, low, r));
      InputParts(w, a, skb);
    }

    /** One received frame, under the lock; `dropped` says that the driver freed it. */
    method Input(skb: Skb, sn: nat, out: array<Skb>) returns (nout: nat, dropped: bool, needTimer: bool)
      requires Valid() && out.Length == MAX_BUF && sn < 4096
      modifies this, buf, out
      ensures Valid() && nout <= MAX_BUF
      ensures var r := ReorderSpec.Input(old(Win()), Resolve(old(head), sn), skb);
        Win() == r.window && out[..nout] == Skbs(r.frames) && dropped == r.dropped
      ensures needTimer <==> Resolve(old(head), sn) >= old(head) && held != map[]
    {
      ghost var w, a := Win(), Resolve(head, sn);
      InputKeeps(w, a, skb);
      ResolveBack(head, sn);
      SnDifference(head, head + (sn - head) % 4096);
      var rel := SnDist(sn, headSn);
      if rel >= 2048 {
        nout, dropped, needTimer := 0, true, false;
      } else {
        nout, dropped := Admit(skb, sn, out, a);
        StoredZero(Win());
        needTimer := stored > 0;
      }
    }

    /** The hole timer's work on one record: skip the leading holes, release the next run. */
    method FlushStale(out: array<Skb>, from: nat) returns (nout: nat, again: bool)
      requires Valid() && held != map[] && out.Length == MAX_BUF && from <= MAX_BUF
      modifies this, buf, out
      ensures Valid() && nout <= MAX_BUF
      ensures var r := Flush(old(Win()), MAX_BUF - from);
        Win() == r.window && out[..nout] == old(out[..from]) + Skbs(r.frames)
      ensures again <==> held != map[]
    {
      hide Holds, InOrder, Count, Bag, From, RunEnd;
      HoldsRange(buf[..], num, Win());
      ghost var w := Win();
      ghost var m := FlushEndFacts(w, MAX_BUF - from);
      FlushKeeps(w, MAX_BUF - from);
      StoredZero(w);
      var guard := 0;
      while stored > 0 && guard < 4096
        invariant Counted() && active && stored == old(stored)
        invariant w.head <= head <= m && guard == head - w.head
        invariant Win() == Window(head, w.size, w.held)
        invariant out[..from] == old(out[..from])
        decreases m - head
      {
        HoldsRange(buf[..], num, Win());
        var hidx := headSn % 64;
        SlotOfSn(head);
        SlotAt(buf[..], num, Win(), head);
        if buf[hidx].Some? {
          break;
        }
        SkipHead();
        guard := guard + 1;
      }
      assert head == m;
      FlushParts(w, MAX_BUF - from, m);
      nout := Release(out, from);
      HoldsRange(buf[..], num, Win());
      StoredZero(Win());
      again := stored > 0;
    }
  }
}
