/**
 The receive reordering buffer of section 9.21.7.6 of IEEE 802.11-2012, stated without
 wrap-around: sequence numbers are unbounded naturals, a window is a head, a size and a
 finite map from numbers to buffered frames.  The driver works on 12-bit numbers and 64
 slots; `Reorder.dfy` shows that it computes exactly these functions.
 */
module ReorderSpec {

  /** A received data frame: an identity and the 12-bit sequence number in its header. */
  datatype Skb = Skb(id: nat, sn: nat)
  datatype Numbered = Numbered(num: nat, skb: Skb)
  datatype Window = Window(head: nat, size: nat, held: map<nat, Skb>)
  datatype InputResult = InputResult(window: Window, frames: seq<Numbered>, dropped: bool)
  datatype FlushResult = FlushResult(window: Window, frames: seq<Numbered>)

  /** The number within 2048 of `head` that a 12-bit sequence number stands for. */
  function Resolve(head: nat, sn: nat): int {
    var rel := (sn - head) % 4096;
    if rel < 2048 then head + rel else head + rel - 4096
  }

  lemma ResolveExact(head: nat, a: nat)
    requires head - 2048 <= a < head + 2048
    ensures Resolve(head, a % 4096) == a
  {
    if a >= head {
      assert (a % 4096 - head) % 4096 == a - head;
    } else {
      assert (a % 4096 - head) % 4096 == a - head + 4096;
    }
  }

  lemma ResolveBack(head: nat, sn: nat)
    requires sn < 4096
    ensures (head + (sn - head) % 4096) % 4096 == sn
  {
    var d := (sn - head) % 4096;
    assert sn - head == 4096 * ((sn - head) / 4096) + d;
    assert head + d == sn + 4096 * -((sn - head) / 4096);
    AddMultiple(sn, -((sn - head) / 4096));
  }

  lemma AddMultiple(x: int, k: int)
    ensures (x + 4096 * k) % 4096 == x % 4096
  {
    var y := x + 4096 * k;
    assert y == 4096 * (x / 4096 + k) + x % 4096;
    assert y == 4096 * (y / 4096) + y % 4096;
  }

  // ---------- the buffered frames of a number range ----------

  ghost function InOrder(held: map<nat, Skb>, lo: nat, hi: nat): seq<Numbered>
    decreases hi - lo
  {
    if hi <= lo then []
    else InOrder(held, lo, hi - 1) + if hi - 1 in held then [Numbered(hi - 1, held[hi - 1])] else []
  }

  ghost function Count(held: map<nat, Skb>, lo: nat, hi: nat): nat
    decreases hi - lo
  {
    if hi <= lo then 0
    else Count(held, lo, hi - 1) + if hi - 1 in held then 1 else 0
  }

  ghost function Bag(held: map<nat, Skb>, lo: nat, hi: nat): multiset<Skb>
    decreases hi - lo
  {
    if hi <= lo then multiset{}
    else Bag(held, lo, hi - 1) + if hi - 1 in held then multiset{held[hi - 1]} else multiset{}
  }

  ghost function Skbs(s: seq<Numbered>): (r: seq<Skb>)
    ensures |r| == |s|
    ensures forall i :: 0 <= i < |s| ==> r[i] == s[i].skb
  {
    seq(|s|, i requires 0 <= i < |s| => s[i].skb)
  }

  ghost function From(held: map<nat, Skb>, h: nat): map<nat, Skb> {
    map k | k in held && k >= h :: held[k]
  }

  ghost predicate Increasing(s: seq<Numbered>, lo: nat, hi: nat) {
    && (forall i :: 0 <= i < |s| ==> lo <= s[i].num < hi)
    && (forall i, j :: 0 <= i < j < |s| ==> s[i].num < s[j].num)
  }

  /** `InOrder` is the sorted listing of the entries between `lo` and `hi`. */
  lemma {:induction false} InOrderSorted(held: map<nat, Skb>, lo: nat, hi: nat)
    ensures Increasing(InOrder(held, lo, hi), lo, hi)
    ensures forall k: nat, f: Skb :: Numbered(k, f) in InOrder(held, lo, hi) <==> lo <= k < hi && k in held && held[k] == f
    decreases hi - lo
  {
    if lo < hi {
      InOrderSorted(held, lo, hi - 1);
    }
  }

  lemma SkbsMore(s: seq<Numbered>, k: nat, f: Skb)
    ensures multiset(Skbs(s + [Numbered(k, f)])) == multiset(Skbs(s)) + multiset{f}
  {
    assert Skbs(s + [Numbered(k, f)]) == Skbs(s) + [f];
  }

  lemma LastEntry(held: map<nat, Skb>, lo: nat, k: nat)
    requires lo <= k
    ensures InOrder(held, lo, k + 1) == InOrder(held, lo, k) + if k in held then [Numbered(k, held[k])] else []
    ensures Count(held, lo, k + 1) == Count(held, lo, k) + if k in held then 1 else 0
    ensures Bag(held, lo, k + 1) == Bag(held, lo, k) + if k in held then multiset{held[k]} else multiset{}
  {
  }

  lemma {:induction false} InOrderCounts(held: map<nat, Skb>, lo: nat, hi: nat)
    ensures |InOrder(held, lo, hi)| == Count(held, lo, hi)
    ensures multiset(Skbs(InOrder(held, lo, hi))) == Bag(held, lo, hi)
    decreases hi - lo
  {
    if hi <= lo {
      NoSkbs();
    } else {
      hide Skbs, InOrder, Count, Bag;
      var k := hi - 1;
      InOrderCounts(held, lo, k);
      LastEntry(held, lo, k);
      var s := InOrder(held, lo, k);
      if k in held {
        SkbsMore(s, k, held[k]);
      } else {
        assert s + [] == s;
      }
    }
  }

  lemma NoSkbs()
    ensures Skbs([]) == []
  {
  }

  lemma {:induction false} Split(held: map<nat, Skb>, lo: nat, mid: nat, hi: nat)
    requires lo <= mid <= hi
    ensures InOrder(held, lo, hi) == InOrder(held, lo, mid) + InOrder(held, mid, hi)
    ensures Count(held, lo, hi) == Count(held, lo, mid) + Count(held, mid, hi)
    ensures Bag(held, lo, hi) == Bag(held, lo, mid) + Bag(held, mid, hi)
    decreases hi - mid
  {
    if mid < hi {
      Split(held, lo, mid, hi - 1);
    }
  }

  lemma {:induction false} Agree(m: map<nat, Skb>, n: map<nat, Skb>, lo: nat, hi: nat)
    requires forall k :: lo <= k < hi ==> (k in m <==> k in n) && (k in m ==> m[k] == n[k])
    ensures InOrder(m, lo, hi) == InOrder(n, lo, hi)
    ensures Count(m, lo, hi) == Count(n, lo, hi)
    ensures Bag(m, lo, hi) == Bag(n, lo, hi)
    decreases hi - lo
  {
    if lo < hi {
      Agree(m, n, lo, hi - 1);
    }
  }

  lemma {:induction false} Vacant(held: map<nat, Skb>, lo: nat, hi: nat)
    requires forall k :: lo <= k < hi ==> k !in held
    ensures InOrder(held, lo, hi) == [] && Count(held, lo, hi) == 0 && Bag(held, lo, hi) == multiset{}
    decreases hi - lo
  {
    if lo < hi {
      Vacant(held, lo, hi - 1);
    }
  }

  lemma {:induction false} Full(held: map<nat, Skb>, lo: nat, hi: nat)
    requires lo <= hi
    requires forall k :: lo <= k < hi ==> k in held
    ensures |InOrder(held, lo, hi)| == hi - lo
    ensures forall i :: 0 <= i < hi - lo ==> InOrder(held, lo, hi)[i] == Numbered(lo + i, held[lo + i])
    decreases hi - lo
  {
    if lo < hi {
      Full(held, lo, hi - 1);
    }
  }

  lemma {:induction false} CountBound(held: map<nat, Skb>, lo: nat, hi: nat)
    requires lo <= hi
    ensures Count(held, lo, hi) <= hi - lo
    decreases hi - lo
  {
    if lo < hi {
      CountBound(held, lo, hi - 1);
    }
  }

  lemma CountMissing(held: map<nat, Skb>, lo: nat, k: nat, hi: nat)
    requires lo <= k < hi && k !in held
    ensures Count(held, lo, hi) < hi - lo
  {
    Split(held, lo, k, hi);
    Split(held, k, k + 1, hi);
    CountBound(held, lo, k);
    CountBound(held, k + 1, hi);
    Vacant(held, k, k + 1);
  }

  lemma Single(held: map<nat, Skb>, a: nat)
    ensures InOrder(held, a, a + 1) == if a in held then [Numbered(a, held[a])] else []
    ensures Count(held, a, a + 1) == if a in held then 1 else 0
    ensures Bag(held, a, a + 1) == if a in held then multiset{held[a]} else multiset{}
  {
    Vacant(held, a, a);
    assert InOrder(held, a, a + 1) == InOrder(held, a, a) + if a in held then [Numbered(a, held[a])] else [];
    assert Bag(held, a, a + 1) == Bag(held, a, a) + if a in held then multiset{held[a]} else multiset{};
    assert Count(held, a, a + 1) == Count(held, a, a) + if a in held then 1 else 0;
  }

  lemma CountPresent(held: map<nat, Skb>, lo: nat, k: nat, hi: nat)
    requires lo <= k < hi && k in held
    ensures Count(held, lo, hi) > 0
  {
    hide InOrder, Count, Bag;
    Split(held, lo, k, hi);
    Split(held, k, k + 1, hi);
    Single(held, k);
  }


  /** Adding one frame in the middle of a range. */
  lemma Insert(held: map<nat, Skb>, lo: nat, a: nat, hi: nat, f: Skb)
    requires lo <= a < hi
    requires a !in held
    ensures Count(held[a := f], lo, hi) == Count(held, lo, hi) + 1
    ensures Bag(held[a := f], lo, hi) == Bag(held, lo, hi) + multiset{f}
  {
    hide InOrder, Count, Bag;
    var m := held[a := f];
    Split(m, lo, a, hi); Split(m, a, a + 1, hi);
    Split(held, lo, a, hi); Split(held, a, a + 1, hi);
    Agree(m, held, lo, a); Agree(m, held, a + 1, hi);
    Single(m, a);
    Single(held, a);
  }

  lemma FromFrom(held: map<nat, Skb>, h: nat, k: nat)
    requires h <= k
    ensures From(From(held, h), k) == From(held, k)
  {
  }

  // ---------- windows ----------

  ghost function Stored(w: Window): nat { Count(w.held, w.head, w.head + w.size) }

  ghost function Buffered(w: Window): multiset<Skb> { Bag(w.held, w.head, w.head + w.size) }

  ghost predicate InRange(w: Window) {
    && 1 <= w.size <= 64
    && forall a :: a in w.held ==> w.head <= a < w.head + w.size
  }

  /** What holds of a window between steps. */
  ghost predicate ValidWindow(w: Window) {
    InRange(w) && Stored(w) < w.size
  }

  lemma StoredZero(w: Window)
    requires InRange(w)
    ensures Stored(w) == 0 <==> w.held == map[]
  {
    if k :| k in w.held {
      CountPresent(w.held, w.head, k, w.head + w.size);
    } else {
      Vacant(w.held, w.head, w.head + w.size);
    }
  }

  /** The first number from `h` on that is not buffered (or `bound`). */
  ghost function RunEnd(held: map<nat, Skb>, h: nat, bound: nat): (r: nat)
    requires h <= bound
    ensures h <= r <= bound
    ensures forall k :: h <= k < r ==> k in held
    ensures r < bound ==> r !in held
    decreases bound - h
  {
    if h < bound && h in held then RunEnd(held, h + 1, bound) else h
  }

  /** The first number from `h` on that is buffered (or `bound`). */
  ghost function FirstHeld(held: map<nat, Skb>, h: nat, bound: nat): (r: nat)
    requires h <= bound
    ensures h <= r <= bound
    ensures forall k :: h <= k < r ==> k !in held
    ensures r < bound ==> r in held
    decreases bound - h
  {
    if h < bound && h !in held then FirstHeld(held, h + 1, bound) else h
  }

  lemma RunEndIs(held: map<nat, Skb>, h: nat, bound: nat, r: nat)
    requires h <= r <= bound
    requires forall k :: h <= k < r ==> k in held
    requires r < bound ==> r !in held
    ensures RunEnd(held, h, bound) == r
  {
    var e := RunEnd(held, h, bound);
    assert e < r ==> e in held;
    assert r < e ==> r in held;
  }

  lemma FirstHeldIs(held: map<nat, Skb>, h: nat, bound: nat, r: nat)
    requires h <= r <= bound
    requires forall k :: h <= k < r ==> k !in held
    requires r < bound ==> r in held
    ensures FirstHeld(held, h, bound) == r
  {
    var e := FirstHeld(held, h, bound);
    assert e < r ==> e !in held;
    assert r < e ==> r !in held;
  }

  /** A frame numbered `a` arrives. */
  ghost function Input(w: Window, a: int, f: Skb): InputResult
    requires w.size >= 1
  {
    if a < w.head then InputResult(w, [], true)
    else
      var low := Low(w, a);
      var held := Inserted(w.held, a, f);
      var r := RunEnd(held, low, low + w.size);
      InputResult(After(held, r, w.size), InOrder(held, w.head, r), a in w.held)
  }

  /** The hole timer fires for a window that buffers something; `room` frames may leave. */
  ghost function Flush(w: Window, room: nat): FlushResult {
    var r := FlushEnd(w, room);
    FlushResult(After(w.held, r, w.size), InOrder(w.held, w.head, r))
  }

  ghost function FlushEnd(w: Window, room: nat): nat {
    var m := FirstHeld(w.held, w.head, w.head + w.size);
    var e := RunEnd(w.held, m, w.head + w.size);
    if e <= m + room then e else m + room
  }

  lemma FlushEndFacts(w: Window, room: nat) returns (m: nat)
    requires InRange(w) && w.held != map[]
    ensures w.head <= m < w.head + w.size
    ensures forall k :: w.head <= k < m ==> k !in w.held
    ensures forall k :: m <= k < FlushEnd(w, room) ==> k in w.held
    ensures m <= FlushEnd(w, room) <= w.head + w.size && FlushEnd(w, room) <= m + room
    ensures room > 0 ==> m < FlushEnd(w, room)
  {
    m := FirstHeld(w.held, w.head, w.head + w.size);
    var k :| k in w.held;
    assert m <= k;
  }

  /** Moving the head to `r` splits the listing into what left and what stays. */
  lemma MoveHead(held: map<nat, Skb>, lo: nat, r: nat, hi: nat, size: nat)
    requires lo <= r
    requires forall k :: k in held ==> lo <= k < hi
    requires hi <= r + size
    requires lo <= hi
    ensures Count(held, lo, hi) == |InOrder(held, lo, r)| + Count(From(held, r), r, r + size)
    ensures Bag(held, lo, hi) == multiset(Skbs(InOrder(held, lo, r))) + Bag(From(held, r), r, r + size)
  {
    InOrderCounts(held, lo, r);
    Agree(From(held, r), held, r, r + size);
    var top := r + size;
    Split(held, lo, r, top);
    Split(held, lo, hi, top);
    Vacant(held, hi, top);
  }

  /** The window that is left when the frames before `r` have gone. */
  ghost function After(held: map<nat, Skb>, r: nat, size: nat): Window {
    Window(r, size, From(held, r))
  }

  lemma AfterKeeps(held: map<nat, Skb>, lo: nat, r: nat, hi: nat, size: nat)
    requires lo <= r && lo <= hi <= r + size && 1 <= size <= 64
    requires forall k :: k in held ==> lo <= k < hi
    ensures InRange(After(held, r, size))
    ensures |InOrder(held, lo, r)| + Stored(After(held, r, size)) == Count(held, lo, hi)
    ensures multiset(Skbs(InOrder(held, lo, r))) + Buffered(After(held, r, size)) == Bag(held, lo, hi)
    ensures r !in held ==> Stored(After(held, r, size)) < size
  {
    MoveHead(held, lo, r, hi, size);
    var w := After(held, r, size);
    if r !in held {
      CountMissing(w.held, r, r, r + size);
    }
  }

  /** The buffer that the release loop of an arrival starts from. */
  ghost function Low(w: Window, a: int): int {
    if a >= w.head + w.size then a + 1 - w.size else w.head
  }

  ghost function Inserted(held: map<nat, Skb>, a: nat, f: Skb): map<nat, Skb> {
    if a in held then held else held[a := f]
  }

  lemma InsertedKeeps(w: Window, a: nat, f: Skb)
    requires ValidWindow(w)
    requires w.head <= a
    ensures var held, hi := Inserted(w.held, a, f), Low(w, a) + w.size;
      && (forall k :: k in held ==> w.head <= k < hi)
      && Count(held, w.head, hi) == Stored(w) + (if a in w.held then 0 else 1)
      && Bag(held, w.head, hi) == Buffered(w) + (if a in w.held then multiset{} else multiset{f})
  {
    hide InOrder, Count, Bag;
    var hi := Low(w, a) + w.size;
    Split(w.held, w.head, w.head + w.size, hi);
    Vacant(w.held, w.head + w.size, hi);
    if a !in w.held {
      Insert(w.held, w.head, a, hi, f);
    }
  }

  lemma InsertedFrom(held: map<nat, Skb>, low: nat, a: nat, f: Skb)
    requires low <= a
    ensures Inserted(From(held, low), a, f) == From(Inserted(held, a, f), low)
    ensures a in From(held, low) <==> a in held
  {
  }

  lemma {:induction false} RunEndFrom(held: map<nat, Skb>, low: nat, h: nat, bound: nat)
    requires low <= h <= bound
    ensures RunEnd(From(held, low), h, bound) == RunEnd(held, h, bound)
    decreases bound - h
  {
    if h < bound && h in held {
      RunEndFrom(held, low, h + 1, bound);
    }
  }

  /** An arrival slides the window, buffers the frame and releases the run at the head. */
  lemma InputParts(w: Window, a: nat, f: Skb)
    requires ValidWindow(w)
    requires w.head <= a
    ensures Low(w, a) >= w.head
    ensures var low := Low(w, a);
      var held := Inserted(From(w.held, low), a, f);
      var r := RunEnd(held, low, low + w.size);
      Input(w, a, f) == InputResult(After(held, r, w.size), InOrder(w.held, w.head, low) + InOrder(held, low, r), a in From(w.held, low))
  {
    hide InOrder, Count, Bag, RunEnd;
    var low := Low(w, a);
    var whole := Inserted(w.held, a, f);
    var r := RunEnd(whole, low, low + w.size);
    InsertedFrom(w.held, low, a, f);
    RunEndFrom(whole, low, low, low + w.size);
    FromFrom(whole, low, r);
    Agree(whole, w.held, w.head, low);
    Agree(whole, From(whole, low), low, r);
    Split(whole, w.head, low, r);
  }

  /** One arrival: the window stays valid and no frame is lost or copied. */
  lemma InputKeeps(w: Window, a: int, f: Skb)
    requires ValidWindow(w)
    ensures var r := Input(w, a, f);
      && ValidWindow(r.window) && r.window.size == w.size && w.head <= r.window.head
      && (a >= w.head ==> r.window.head !in r.window.held)
      && |r.frames| + Stored(r.window) == Stored(w) + (if r.dropped then 0 else 1)
      && multiset(Skbs(r.frames)) + Buffered(r.window) + (if r.dropped then multiset{f} else multiset{})
           == Buffered(w) + multiset{f}
  {
    hide InOrder, Count, Bag;
    if a >= w.head {
      InsertedKeeps(w, a, f);
      var held, low := Inserted(w.held, a, f), Low(w, a);
      var h := RunEnd(held, low, low + w.size);
      AfterKeeps(held, w.head, h, low + w.size, w.size);
    }
  }

  /**
   The window slides no farther than the frame needs: afterwards the frame lies inside it or
   before it, and every number that it passed is one that the window could not keep, or was there.
   Nothing that was there or is new is lost, and a frame is refused only as stale or as duplicate.
   */
  lemma InputSlidesNoFarther(w: Window, a: int, f: Skb)
    requires ValidWindow(w)
    ensures var r := Input(w, a, f);
      && (r.dropped <==> a < w.head || a in w.held)
      && (a < w.head ==> r.window == w && r.frames == [])
      && (a >= w.head ==>
            && a < r.window.head + w.size
            && (forall k :: w.head <= k < r.window.head && a < k + w.size ==> k == a || k in w.held)
            && (forall k: nat :: k >= r.window.head ==> (k in r.window.held <==> k == a || k in w.held)))
  {
    hide InOrder, Count, Bag;
    if a >= w.head {
      var held, low := Inserted(w.held, a, f), Low(w, a);
      var h := RunEnd(held, low, low + w.size);
      assert forall k: nat :: k in held <==> k == a || k in w.held;
      assert forall k: nat :: k in From(held, h) <==> k >= h && k in held;
    }
  }

  /** One timer pass over a window: valid, conserved, and never without progress. */
  lemma FlushKeeps(w: Window, room: nat)
    requires ValidWindow(w)
    requires w.held != map[]
    ensures var r := Flush(w, room);
      && ValidWindow(r.window) && r.window.size == w.size && w.head <= r.window.head
      && |r.frames| <= room
      && |r.frames| + Stored(r.window) == Stored(w)
      && multiset(Skbs(r.frames)) + Buffered(r.window) == Buffered(w)
      && (room > 0 ==> |r.frames| > 0)
  {
    var m := FlushEndFacts(w, room);
    var r := FlushEnd(w, room);
    AfterKeeps(w.held, w.head, r, w.head + w.size, w.size);
    Split(w.held, w.head, m, r);
    Vacant(w.held, w.head, m);
    Full(w.held, m, r);
  }

  // ---------- order ----------

  lemma InputOrder(w: Window, a: int, f: Skb)
    requires ValidWindow(w)
    ensures Increasing(Input(w, a, f).frames, w.head, Input(w, a, f).window.head)
  {
    if a >= w.head {
      var held, low := Inserted(w.held, a, f), Low(w, a);
      InOrderSorted(held, w.head, RunEnd(held, low, low + w.size));
    }
  }

  lemma FlushOrder(w: Window, room: nat)
    ensures Increasing(Flush(w, room).frames, w.head, Flush(w, room).window.head)
  {
    InOrderSorted(w.held, w.head, FlushEnd(w, room));
  }

  lemma IncreasingConcat(s: seq<Numbered>, t: seq<Numbered>, lo: nat, mid: nat, hi: nat)
    requires lo <= mid <= hi
    requires Increasing(s, lo, mid) && Increasing(t, mid, hi)
    ensures Increasing(s + t, lo, hi)
  {
  }

  /** The frame buffered under a number carries that number's 12 low bits. */
  ghost predicate Labelled(held: map<nat, Skb>) {
    forall a :: a in held ==> held[a].sn == a % 4096
  }

  ghost predicate LabelledFrames(s: seq<Numbered>) {
    forall i :: 0 <= i < |s| ==> s[i].skb.sn == s[i].num % 4096
  }

  lemma {:induction false} InOrderLabelled(held: map<nat, Skb>, lo: nat, hi: nat)
    requires Labelled(held)
    ensures LabelledFrames(InOrder(held, lo, hi))
    decreases hi - lo
  {
    if lo < hi {
      InOrderLabelled(held, lo, hi - 1);
    }
  }

  lemma InputLabelled(w: Window, f: Skb)
    requires ValidWindow(w) && Labelled(w.held) && f.sn < 4096
    ensures var r := Input(w, Resolve(w.head, f.sn), f);
      Labelled(r.window.held) && LabelledFrames(r.frames)
  {
    var a := Resolve(w.head, f.sn);
    if a >= w.head {
      ResolveBack(w.head, f.sn);
      var held, low := Inserted(w.held, a, f), Low(w, a);
      InOrderLabelled(held, w.head, RunEnd(held, low, low + w.size));
    }
  }

  lemma FlushLabelled(w: Window, room: nat)
    requires Labelled(w.held)
    ensures Labelled(Flush(w, room).window.held) && LabelledFrames(Flush(w, room).frames)
  {
    InOrderLabelled(w.held, w.head, FlushEnd(w, room));
  }
}
