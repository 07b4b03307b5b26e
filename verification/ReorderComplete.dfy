/**
 Completeness of reordering: while nothing arrives beyond the window, nothing is more than
 2048 behind its head and the hole timer does not run, exactly the gap-free prefix of what
 was sent is delivered, whatever the order and the repetitions of the arrivals.
 */
module ReorderComplete {
  import opened Wrappers
  import opened ReorderSpec

  datatype Fed = Fed(window: Window, frames: seq<Numbered>)

  /** Feed a window the arrivals `xs`; only their 12-bit numbers are looked at. */
  ghost function Feed(w: Window, xs: seq<Numbered>): (f: Fed)
    requires w.size >= 1
    ensures f.window.size == w.size
  {
    if xs == [] then Fed(w, [])
    else
      var x, p := xs[|xs| - 1], Feed(w, xs[..|xs| - 1]);
      var r := Input(p.window, Resolve(p.window.head, x.skb.sn), x.skb);
      Fed(r.window, p.frames + r.frames)
  }

  /** Each arrival is inside the window of its moment, or at most 2048 behind the head. */
  ghost predicate Near(w: Window, xs: seq<Numbered>)
    requires w.size >= 1
  {
    xs == [] ||
    var x, h := xs[|xs| - 1], Feed(w, xs[..|xs| - 1]).window.head;
    Near(w, xs[..|xs| - 1]) && x.skb.sn == x.num % 4096 && h - 2048 <= x.num < h + w.size
  }

  /** The first arrival numbered `k`. */
  ghost function First(xs: seq<Numbered>, k: nat): Option<Skb> {
    if xs == [] then None
    else if First(xs[..|xs| - 1], k).Some? then First(xs[..|xs| - 1], k)
    else if xs[|xs| - 1].num == k then Some(xs[|xs| - 1].skb)
    else None
  }

  ghost predicate Received(xs: seq<Numbered>, k: nat) {
    exists i :: 0 <= i < |xs| && xs[i].num == k
  }

  lemma {:induction false} FirstSome(xs: seq<Numbered>, k: nat)
    ensures First(xs, k).Some? <==> Received(xs, k)
    decreases |xs|
  {
    if xs != [] {
      var n := |xs| - 1;
      FirstSome(xs[..n], k);
      if i :| 0 <= i < n && xs[..n][i].num == k { assert xs[i].num == k; }
      if i :| 0 <= i < |xs| && xs[i].num == k {
        assert i < n ==> xs[..n][i].num == k;
      }
    }
  }

  function OrElse<T>(a: Option<T>, b: Option<T>): Option<T> { if a.Some? then a else b }

  lemma FirstSnoc(xs: seq<Numbered>, x: Numbered)
    ensures forall k :: First(xs + [x], k) == OrElse(First(xs, k), if x.num == k then Some(x.skb) else None)
  {
    var ys := xs + [x];
    assert ys[..|ys| - 1] == xs;
  }

  ghost predicate DeliveredPrefix(ssn: nat, xs: seq<Numbered>, f: Fed) {
    var h := f.window.head;
    && ssn <= h
    && First(xs, h).None?
    && |f.frames| == h - ssn
    && (forall k :: ssn <= k < h ==> First(xs, k).Some? && f.frames[k - ssn] == Numbered(k, First(xs, k).value))
    && HoldsFrom(f.window.held, xs, h)
  }

  ghost predicate HoldsFrom(held: map<nat, Skb>, xs: seq<Numbered>, h: nat) {
    && (forall k :: k in held <==> h <= k && First(xs, k).Some?)
    && (forall k :: k in held ==> held[k] == First(xs, k).value)
  }

  lemma InsertedHolds(xs: seq<Numbered>, x: Numbered, held: map<nat, Skb>, h: nat)
    requires HoldsFrom(held, xs, h) && h <= x.num
    ensures HoldsFrom(Inserted(held, x.num, x.skb), xs + [x], h)
  {
    hide First;
    FirstSnoc(xs, x);
  }

  /** Releasing up to `r` extends a delivered prefix from `h` to `r`. */
  lemma ReleaseExtends(ssn: nat, ys: seq<Numbered>, frames: seq<Numbered>, held: map<nat, Skb>, h: nat, r: nat, size: nat)
    requires ssn <= h <= r && |frames| == h - ssn
    requires forall k :: ssn <= k < h ==> First(ys, k).Some? && frames[k - ssn] == Numbered(k, First(ys, k).value)
    requires HoldsFrom(held, ys, h)
    requires r !in held
    requires forall k :: h <= k < r ==> k in held
    ensures DeliveredPrefix(ssn, ys, Fed(After(held, r, size), frames + InOrder(held, h, r)))
  {
    hide InOrder, First;
    Full(held, h, r);
    var out := frames + InOrder(held, h, r);
    forall k | ssn <= k < r
      ensures First(ys, k).Some? && out[k - ssn] == Numbered(k, First(ys, k).value)
    {
      if k >= h {
        assert k in held;
        assert out[k - ssn] == InOrder(held, h, r)[k - h];
      }
    }
  }

  /** One more arrival inside the window extends the delivered prefix as far as it can. */
  lemma ExtendPrefix(ssn: nat, xs: seq<Numbered>, x: Numbered, f: Fed)
    requires ValidWindow(f.window)
    requires DeliveredPrefix(ssn, xs, f)
    requires f.window.head <= x.num < f.window.head + f.window.size
    ensures var r := Input(f.window, x.num, x.skb);
      DeliveredPrefix(ssn, xs + [x], Fed(r.window, f.frames + r.frames))
  {
    hide InOrder, First, Stored, HoldsFrom;
    var w := f.window;
    var held := Inserted(w.held, x.num, x.skb);
    var r := RunEnd(held, w.head, w.head + w.size);
    InsertedHolds(xs, x, w.held, w.head);
    FirstSnoc(xs, x);
    assert r !in held;
    ReleaseExtends(ssn, xs + [x], f.frames, held, w.head, r, w.size);
  }

  /** The frames delivered are SSN, SSN+1, ... up to the first number not received, each once. */
  lemma {:induction false} DeliversReceivedPrefix(ssn: nat, size: nat, xs: seq<Numbered>)
    requires 1 <= size <= 64
    requires Near(Window(ssn, size, map[]), xs)
    ensures var f := Feed(Window(ssn, size, map[]), xs);
      ValidWindow(f.window) && DeliveredPrefix(ssn, xs, f)
    decreases |xs|
  {
    hide InOrder, DeliveredPrefix, First, Stored, Input;
    var w := Window(ssn, size, map[]);
    if xs == [] {
      EmptyPrefix(ssn, size);
      assert xs == [];
    } else {
      var n := |xs| - 1;
      var x, p := xs[n], Feed(w, xs[..n]);
      DeliversReceivedPrefix(ssn, size, xs[..n]);
      ResolveExact(p.window.head, x.num);
      InputKeeps(p.window, x.num, x.skb);
      assert xs == xs[..n] + [x];
      if x.num >= p.window.head {
        ExtendPrefix(ssn, xs[..n], x, p);
      } else {
        StalePrefix(ssn, xs[..n], x, p);
      }
    }
  }

  lemma EmptyPrefix(ssn: nat, size: nat)
    requires 1 <= size <= 64
    ensures var f := Feed(Window(ssn, size, map[]), []);
      ValidWindow(f.window) && DeliveredPrefix(ssn, [], f)
  {
    Vacant(map[], ssn, ssn + size);
  }

  lemma StalePrefix(ssn: nat, xs: seq<Numbered>, x: Numbered, f: Fed)
    requires DeliveredPrefix(ssn, xs, f) && f.window.size >= 1
    requires x.num < f.window.head
    ensures Input(f.window, x.num, x.skb) == InputResult(f.window, [], true)
    ensures DeliveredPrefix(ssn, xs + [x], Fed(f.window, f.frames + []))
  {
    hide First;
    FirstSnoc(xs, x);
    assert f.frames + [] == f.frames;
  }

  /** Order and repetition do not matter: only the set of received numbers does. */
  lemma OrderDoesNotMatter(ssn: nat, size: nat, xs: seq<Numbered>, ys: seq<Numbered>)
    requires 1 <= size <= 64
    requires Near(Window(ssn, size, map[]), xs) && Near(Window(ssn, size, map[]), ys)
    requires forall k :: Received(xs, k) <==> Received(ys, k)
    ensures var f, g := Feed(Window(ssn, size, map[]), xs), Feed(Window(ssn, size, map[]), ys);
      && f.window.head == g.window.head
      && |f.frames| == |g.frames|
      && forall i :: 0 <= i < |f.frames| ==> f.frames[i].num == g.frames[i].num == ssn + i
  {
    hide Near, Feed, First, Stored, ValidWindow, Received, HoldsFrom;
    DeliversReceivedPrefix(ssn, size, xs);
    DeliversReceivedPrefix(ssn, size, ys);
    var f, g := Feed(Window(ssn, size, map[]), xs), Feed(Window(ssn, size, map[]), ys);
    var h, j := f.window.head, g.window.head;
    FirstSome(xs, h); FirstSome(xs, j); FirstSome(ys, h); FirstSome(ys, j);
    assert h == j;
    forall i | 0 <= i < |f.frames|
      ensures f.frames[i].num == g.frames[i].num == ssn + i
    {
      assert f.frames[i] == f.frames[(ssn + i) - ssn] && g.frames[i] == g.frames[(ssn + i) - ssn];
      assert First(xs, ssn + i).Some? && First(ys, ssn + i).Some?;
    }
  }

  // ---------- arrivals beyond the window ----------

  /** Each arrival is less than half the number space from the head of its moment. */
  ghost predicate Close(w: Window, xs: seq<Numbered>)
    requires w.size >= 1
  {
    xs == [] ||
    var x, h := xs[|xs| - 1], Feed(w, xs[..|xs| - 1]).window.head;
    Close(w, xs[..|xs| - 1]) && x.skb.sn == x.num % 4096 && h - 2048 <= x.num < h + 2048
  }

  /** The greatest number received so far, or the one before the start. */
  function Newest(ssn: nat, xs: seq<Numbered>): int {
    if xs == [] then ssn - 1
    else
      var n := Newest(ssn, xs[..|xs| - 1]);
      if xs[|xs| - 1].num > n then xs[|xs| - 1].num else n
  }

  /** The window must not end before the newest frame, nor begin before the start. */
  function Bottom(ssn: nat, size: nat, xs: seq<Numbered>): int {
    if Newest(ssn, xs) + 1 - size > ssn then Newest(ssn, xs) + 1 - size else ssn
  }

  /** The frames that came in time: not behind the head, and the first of their number. */
  ghost function InTime(w: Window, xs: seq<Numbered>): map<nat, Skb>
    requires w.size >= 1
  {
    if xs == [] then map[]
    else
      var x, before := xs[|xs| - 1], InTime(w, xs[..|xs| - 1]);
      if x.num >= Feed(w, xs[..|xs| - 1]).window.head then Inserted(before, x.num, x.skb) else before
  }

  /** The head is the least number still missing, and what came in time has left below it and is kept from it on. */
  ghost predicate HeadIsRight(ssn: nat, size: nat, xs: seq<Numbered>, f: Fed, m: map<nat, Skb>) {
    var h := f.window.head;
    && Bottom(ssn, size, xs) <= h && !Received(xs, h)
    && (forall k :: Bottom(ssn, size, xs) <= k < h ==> Received(xs, k))
    && f.frames == InOrder(m, ssn, h)
    && f.window.held == From(m, h)
    && (forall k :: k in m ==> ssn <= k && Received(xs, k))
    && (forall k :: k >= h && Received(xs, k) ==> k in m)
  }

  lemma ReceivedMore(xs: seq<Numbered>, x: Numbered)
    ensures forall k: nat :: Received(xs + [x], k) <==> Received(xs, k) || k == x.num
  {
    var ys := xs + [x];
    forall k: nat ensures Received(ys, k) <==> Received(xs, k) || k == x.num {
      if i :| 0 <= i < |xs| && xs[i].num == k { assert ys[i].num == k; }
      if k == x.num { assert ys[|xs|].num == k; }
    }
  }

  lemma {:induction false} NewestIs(ssn: nat, xs: seq<Numbered>)
    ensures Newest(ssn, xs) >= ssn - 1
    ensures forall i :: 0 <= i < |xs| ==> xs[i].num <= Newest(ssn, xs)
    ensures Newest(ssn, xs) >= ssn ==> Received(xs, Newest(ssn, xs))
    decreases |xs|
  {
    if xs != [] {
      var n := |xs| - 1;
      NewestIs(ssn, xs[..n]);
      ReceivedMore(xs[..n], xs[n]);
      assert xs[..n] + [xs[n]] == xs;
      forall i | 0 <= i < |xs| ensures xs[i].num <= Newest(ssn, xs) {
        assert i < n ==> xs[..n][i] == xs[i];
      }
    }
  }

  lemma BottomGrows(ssn: nat, size: nat, xs: seq<Numbered>, x: Numbered)
    ensures var n := Newest(ssn, xs);
      && Newest(ssn, xs + [x]) == (if x.num > n then x.num else n)
      && Bottom(ssn, size, xs + [x]) == (if x.num > n && x.num + 1 - size > ssn then x.num + 1 - size else Bottom(ssn, size, xs))
      && ssn <= Bottom(ssn, size, xs) <= Bottom(ssn, size, xs + [x])
      && x.num + 1 - size <= Bottom(ssn, size, xs + [x])
  {
    assert (xs + [x])[..|xs + [x]| - 1] == xs;
  }

  lemma StaleStep(ssn: nat, size: nat, xs: seq<Numbered>, x: Numbered, f: Fed, m: map<nat, Skb>)
    requires HeadIsRight(ssn, size, xs, f, m) && x.num < f.window.head && size >= 1
    ensures HeadIsRight(ssn, size, xs + [x], Fed(f.window, f.frames + []), m)
  {
    hide InOrder, Received, Bottom, Newest;
    ReceivedMore(xs, x);
    BottomGrows(ssn, size, xs, x);
    assert f.frames + [] == f.frames;
  }

  lemma ListingGrows(ssn: nat, x: Numbered, held: map<nat, Skb>, m: map<nat, Skb>, h: nat, r: nat)
    requires ssn <= h <= r && h <= x.num && held == From(m, h)
    ensures var m', held' := Inserted(m, x.num, x.skb), Inserted(held, x.num, x.skb);
      && InOrder(m', ssn, r) == InOrder(m, ssn, h) + InOrder(held', h, r)
      && From(held', r) == From(m', r)
  {
    hide InOrder, Count, Bag;
    var m', held' := Inserted(m, x.num, x.skb), Inserted(held, x.num, x.skb);
    Split(m', ssn, h, r);
    Agree(m', m, ssn, h);
    Agree(m', held', h, r);
  }

  lemma TimelyStep(ssn: nat, size: nat, xs: seq<Numbered>, x: Numbered, f: Fed, m: map<nat, Skb>)
    requires ValidWindow(f.window) && f.window.size == size
    requires HeadIsRight(ssn, size, xs, f, m) && x.num >= f.window.head
    ensures var r := Input(f.window, x.num, x.skb);
      HeadIsRight(ssn, size, xs + [x], Fed(r.window, f.frames + r.frames), Inserted(m, x.num, x.skb))
  {
    hide InOrder, Received, Bottom, Newest, Count, Bag, RunEnd, Stored;
    var w, r := f.window, Input(f.window, x.num, x.skb);
    ReceivedMore(xs, x);
    BottomGrows(ssn, size, xs, x);
    InputKeeps(w, x.num, x.skb);
    InputSlidesNoFarther(w, x.num, x.skb);
    ListingGrows(ssn, x, w.held, m, w.head, r.window.head);
    hide Input;
    assert Bottom(ssn, size, xs) <= w.head;
    forall k | Bottom(ssn, size, xs + [x]) <= k < r.window.head ensures Received(xs + [x], k) {
      if k >= w.head {
        assert k == x.num || k in w.held;
        assert k in w.held ==> k in m;
      }
    }
  }

  /**
   After any arrivals, in whatever order, repeated, or far ahead, the head is the least number
   that is still missing from the first one on that the window must hold for its newest frame.
   Delivered is exactly what came in time below the head, in order; what came in time from the
   head on is kept.
   */
  lemma {:induction false} HeadIsLeastMissing(ssn: nat, size: nat, xs: seq<Numbered>)
    requires 1 <= size <= 64 && Close(Window(ssn, size, map[]), xs)
    ensures var w := Window(ssn, size, map[]);
      ValidWindow(Feed(w, xs).window) && HeadIsRight(ssn, size, xs, Feed(w, xs), InTime(w, xs))
    decreases |xs|
  {
    hide HeadIsRight, Input, Stored;
    var w := Window(ssn, size, map[]);
    if xs == [] {
      NothingReceived(ssn, size);
      assert xs == [];
    } else {
      var n := |xs| - 1;
      var x, p := xs[n], Feed(w, xs[..n]);
      HeadIsLeastMissing(ssn, size, xs[..n]);
      ResolveExact(p.window.head, x.num);
      InputKeeps(p.window, x.num, x.skb);
      assert xs == xs[..n] + [x];
      if x.num >= p.window.head {
        TimelyStep(ssn, size, xs[..n], x, p, InTime(w, xs[..n]));
      } else {
        InputSlidesNoFarther(p.window, x.num, x.skb);
        StaleStep(ssn, size, xs[..n], x, p, InTime(w, xs[..n]));
      }
    }
  }

  lemma NothingReceived(ssn: nat, size: nat)
    requires 1 <= size <= 64
    ensures var w := Window(ssn, size, map[]);
      ValidWindow(Feed(w, []).window) && HeadIsRight(ssn, size, [], Feed(w, []), InTime(w, []))
  {
    Vacant(map[], ssn, ssn + size);
  }

  /** A frame that comes behind the head of its moment, or again, is refused; no other is. */
  lemma RefusedExactly(ssn: nat, size: nat, xs: seq<Numbered>, x: Numbered)
    requires 1 <= size <= 64 && Close(Window(ssn, size, map[]), xs + [x])
    ensures var w := Window(ssn, size, map[]);
      var p := Feed(w, xs).window;
      && p.size == size
      && (Input(p, x.num, x.skb).dropped <==> x.num < p.head || Received(xs, x.num))
  {
    hide InOrder, Input, Received, Bottom;
    var w := Window(ssn, size, map[]);
    assert (xs + [x])[..|xs + [x]| - 1] == xs;
    HeadIsLeastMissing(ssn, size, xs);
    InputSlidesNoFarther(Feed(w, xs).window, x.num, x.skb);
  }
}
