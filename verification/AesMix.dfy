/**
 The column transformations of FIPS 197, sections 5.1.3 and 5.3.3, are inverse to each other.
 Write t for the sum of a column s.  MixColumns gives s0 + t + 2(s0 + s1) in row 0, and
 InvMixColumns adds 4(s0 + s2) and 8t to that; everything else follows by cancellation.
 */
module AesMix {
  import opened AesField
  import opened Wrappers

  /** Row 0 of both transformations; the other rows take the column turned round. */
  function MixByte(s0: Byte, s1: Byte, s2: Byte, s3: Byte): Byte {
    Sum4(Times(s0, 0x02), Times(s1, 0x03), s2, s3)
  }

  function InvByte(s0: Byte, s1: Byte, s2: Byte, s3: Byte): Byte {
    Sum4(Times(s0, 0x0e), Times(s1, 0x0b), Times(s2, 0x0d), Times(s3, 0x09))
  }

  function X2(x: Byte): Byte { Xtime(Xtime(x)) }

  function X3(x: Byte): Byte { Xtime(Xtime(Xtime(x))) }

  lemma Zeros()
    ensures forall a :: Sum2(a, 0) == a && Sum2(0, a) == a
  {
    forall a ensures Sum2(a, 0) == a && Sum2(0, a) == a {
      hide Sum2;
      Zero(a);
      ZeroFirst(a);
    }
  }

  lemma Times02(x: Byte)
    ensures Times(x, 0x02) == Xtime(x)
  {
    hide Xtime, Sum2;
    Zeros();
  }

  lemma Times03(x: Byte)
    ensures Times(x, 0x03) == Sum2(x, Xtime(x))
  {
    hide Xtime, Sum2;
    Zeros();
  }

  lemma Times09(x: Byte)
    ensures Times(x, 0x09) == Sum2(x, X3(x))
  {
    hide Xtime, Sum2;
    Zeros();
  }

  lemma Times0B(x: Byte)
    ensures Times(x, 0x0b) == Sum3(x, Xtime(x), X3(x))
  {
    hide Xtime, Sum2;
    Zeros();
    Grouped(x, Xtime(x), X3(x));
  }

  lemma Times0D(x: Byte)
    ensures Times(x, 0x0d) == Sum3(x, X2(x), X3(x))
  {
    hide Xtime, Sum2;
    Zeros();
    Grouped(x, X2(x), X3(x));
  }

  lemma Times0E(x: Byte)
    ensures Times(x, 0x0e) == Sum3(Xtime(x), X2(x), X3(x))
  {
    hide Xtime, Sum2;
    Zeros();
    Grouped(Xtime(x), X2(x), X3(x));
  }

  lemma X2Adds(a: Byte, b: Byte)
    ensures X2(Sum2(a, b)) == Sum2(X2(a), X2(b))
  {
    hide Xtime, Sum2;
    XtimeAdds(a, b);
    XtimeAdds(Xtime(a), Xtime(b));
  }

  lemma X3Adds(a: Byte, b: Byte)
    ensures X3(Sum2(a, b)) == Sum2(X3(a), X3(b))
  {
    hide Xtime, Sum2;
    X2Adds(a, b);
    XtimeAdds(X2(a), X2(b));
  }

  // ---------- sums ----------

  lemma Swapped(a: Byte, b: Byte, c: Byte, p: Byte, q: Byte)
    ensures Sum2(Sum3(a, c, p), Sum3(b, c, q)) == Sum2(Sum2(a, b), Sum2(p, q))
  {
    hide Sum2;
    Exchange(Sum2(a, c), Sum2(b, c), p, q);
    Shared(a, b, c);
  }

  lemma FourPairs(x: Byte, y: Byte, z: Byte, v: Byte, c0: Byte, c1: Byte, c2: Byte, c3: Byte)
    ensures Sum4(Sum2(x, c0), Sum2(y, c1), Sum2(z, c2), Sum2(v, c3)) == Sum2(Sum4(x, y, z, v), Sum4(c0, c1, c2, c3))
  {
    hide Sum2, Sum4;
    Adjacent(Sum2(x, c0), Sum2(y, c1), Sum2(z, c2), Sum2(v, c3));
    Exchange(x, y, c0, c1);
    Exchange(z, v, c2, c3);
    Exchange(Sum2(x, y), Sum2(z, v), Sum2(c0, c1), Sum2(c2, c3));
    Adjacent(x, y, z, v);
    Adjacent(c0, c1, c2, c3);
  }

  lemma TwoPairs(x: Byte, y: Byte, z: Byte, v: Byte, b0: Byte, b2: Byte)
    ensures Sum4(Sum2(x, b0), y, Sum2(z, b2), v) == Sum2(Sum4(x, y, z, v), Sum2(b0, b2))
  {
    hide Sum2, Sum4;
    Opposite(Sum2(x, b0), y, Sum2(z, b2), v);
    Exchange(x, z, b0, b2);
    Opposite(x, y, z, v);
    Rearranged(Sum2(x, z), Sum2(y, v), Sum2(b0, b2));
  }

  // ---------- the two transformations in terms of t ----------

  /** s0 + t + 2(s0 + s1). */
  function Mixed(s0: Byte, s1: Byte, t: Byte): Byte {
    Sum3(s0, t, Xtime(Sum2(s0, s1)))
  }

  lemma DropFirst(s0: Byte, s1: Byte, s2: Byte, s3: Byte)
    ensures Sum2(s0, Sum4(s0, s1, s2, s3)) == Sum2(s1, Sum2(s2, s3))
  {
    hide Sum2, Sum4;
    Adjacent(s0, s1, s2, s3);
    Commutes(s0, s1);
    Grouped(s1, s0, Sum2(s2, s3));
    Commutes(s0, Sum4(s0, s1, s2, s3));
    Commutes(s0, Sum2(s2, s3));
    Grouped(s1, Sum2(s2, s3), s0);
    Twice(Sum2(s1, Sum2(s2, s3)), s0);
  }

  lemma MixSum(s0: Byte, s1: Byte, s2: Byte, s3: Byte, a0: Byte, a1: Byte)
    ensures Sum4(a0, Sum2(s1, a1), s2, s3) == Sum3(s0, Sum4(s0, s1, s2, s3), Sum2(a0, a1))
  {
    hide Sum2, Sum4;
    DropFirst(s0, s1, s2, s3);
    Adjacent(a0, Sum2(s1, a1), s2, s3);
    Grouped(a0, s1, a1);
    Commutes(a0, s1);
    Grouped(s1, a0, a1);
    Rearranged(s1, Sum2(s2, s3), Sum2(a0, a1));
  }

  lemma MixForm(s0: Byte, s1: Byte, s2: Byte, s3: Byte)
    ensures MixByte(s0, s1, s2, s3) == Mixed(s0, s1, Sum4(s0, s1, s2, s3))
  {
    hide Sum2, Sum3, Sum4, Xtime, Times;
    Times02(s0);
    Times03(s1);
    XtimeAdds(s0, s1);
    MixSum(s0, s1, s2, s3, Xtime(s0), Xtime(s1));
  }

  lemma InvSum(s0: Byte, s1: Byte, s2: Byte, s3: Byte, a0: Byte, a1: Byte, b0: Byte, b2: Byte, c0: Byte, c1: Byte, c2: Byte, c3: Byte)
    ensures Sum4(Sum3(a0, b0, c0), Sum3(s1, a1, c1), Sum3(s2, b2, c2), Sum2(s3, c3))
         == Sum3(Sum3(s0, Sum4(s0, s1, s2, s3), Sum2(a0, a1)), Sum2(b0, b2), Sum4(c0, c1, c2, c3))
  {
    hide Sum2, Sum4;
    FourPairs(Sum2(a0, b0), Sum2(s1, a1), Sum2(s2, b2), s3, c0, c1, c2, c3);
    TwoPairs(a0, Sum2(s1, a1), s2, s3, b0, b2);
    MixSum(s0, s1, s2, s3, a0, a1);
  }

  lemma X3Sum(s0: Byte, s1: Byte, s2: Byte, s3: Byte)
    ensures X3(Sum4(s0, s1, s2, s3)) == Sum4(X3(s0), X3(s1), X3(s2), X3(s3))
  {
    hide Sum2, Sum4, X3;
    Adjacent(s0, s1, s2, s3);
    X3Adds(Sum2(s0, s1), Sum2(s2, s3));
    X3Adds(s0, s1);
    X3Adds(s2, s3);
    Adjacent(X3(s0), X3(s1), X3(s2), X3(s3));
  }

  lemma InvForm(s0: Byte, s1: Byte, s2: Byte, s3: Byte)
    ensures var t := Sum4(s0, s1, s2, s3);
      InvByte(s0, s1, s2, s3) == Sum3(Mixed(s0, s1, t), X2(Sum2(s0, s2)), X3(t))
  {
    hide Sum2, Sum3, Sum4, Xtime, Times, X2, X3;
    Times0E(s0);
    Times0B(s1);
    Times0D(s2);
    Times09(s3);
    XtimeAdds(s0, s1);
    X2Adds(s0, s2);
    X3Sum(s0, s1, s2, s3);
    InvSum(s0, s1, s2, s3, Xtime(s0), Xtime(s1), X2(s0), X2(s2), X3(s0), X3(s1), X3(s2), X3(s3));
  }

  // ---------- sums of mixed bytes ----------

  lemma NextTo(s0: Byte, s1: Byte, s2: Byte, t: Byte)
    ensures Sum2(Mixed(s0, s1, t), Mixed(s1, s2, t)) == Sum2(Sum2(s0, s1), Xtime(Sum2(s0, s2)))
  {
    hide Sum2, Sum3, Xtime;
    Swapped(s0, s1, t, Xtime(Sum2(s0, s1)), Xtime(Sum2(s1, s2)));
    XtimeAdds(Sum2(s0, s1), Sum2(s1, s2));
    Chained(s0, s1, s2);
  }

  lemma Across(s0: Byte, s1: Byte, s2: Byte, s3: Byte, t: Byte)
    requires t == Sum4(s0, s1, s2, s3)
    ensures Sum2(Mixed(s0, s1, t), Mixed(s2, s3, t)) == Sum2(Sum2(s0, s2), Xtime(t))
  {
    hide Sum2, Sum3, Sum4, Xtime;
    Swapped(s0, s2, t, Xtime(Sum2(s0, s1)), Xtime(Sum2(s2, s3)));
    XtimeAdds(Sum2(s0, s1), Sum2(s2, s3));
    Adjacent(s0, s1, s2, s3);
  }

  /** Mixing a column keeps its sum. */
  lemma MixKeepsTotal(s0: Byte, s1: Byte, s2: Byte, s3: Byte, t: Byte)
    requires t == Sum4(s0, s1, s2, s3)
    ensures Sum4(Mixed(s0, s1, t), Mixed(s1, s2, t), Mixed(s2, s3, t), Mixed(s3, s0, t)) == t
  {
    hide Sum2, Sum4, Xtime, Mixed;
    Opposite(Mixed(s0, s1, t), Mixed(s1, s2, t), Mixed(s2, s3, t), Mixed(s3, s0, t));
    Across(s0, s1, s2, s3, t);
    Rotated(s0, s1, s2, s3);
    Across(s1, s2, s3, s0, t);
    Shared(Sum2(s0, s2), Sum2(s1, s3), Xtime(t));
    Opposite(s0, s1, s2, s3);
  }

  lemma FirstCancels(s0: Byte, t: Byte, p: Byte, q: Byte)
    ensures Sum3(Sum3(s0, t, p), t, Sum2(p, q)) == Sum2(s0, q)
  {
    hide Sum2;
    Rearranged(Sum2(s0, t), t, p);
    Twice(s0, t);
    Chained(s0, p, q);
  }

  lemma LastCancels(s0: Byte, q: Byte, w: Byte)
    ensures Sum3(Sum2(s0, q), Sum2(q, w), w) == s0
  {
    hide Sum2;
    Chained(s0, q, w);
    Twice(s0, w);
  }

  /** InvMixColumns undoes MixColumns, row 0. */
  lemma InvAfterMix(s0: Byte, s1: Byte, s2: Byte, s3: Byte)
    ensures InvByte(MixByte(s0, s1, s2, s3), MixByte(s1, s2, s3, s0), MixByte(s2, s3, s0, s1), MixByte(s3, s0, s1, s2)) == s0
  {
    hide Sum2, Sum3, Sum4, Xtime, X2, X3, MixByte, InvByte;
    var t := Sum4(s0, s1, s2, s3);
    MixForm(s0, s1, s2, s3);
    MixForm(s1, s2, s3, s0);
    MixForm(s2, s3, s0, s1);
    MixForm(s3, s0, s1, s2);
    Rotated(s0, s1, s2, s3);
    Rotated(s1, s2, s3, s0);
    Rotated(s2, s3, s0, s1);
    var m0, m1, m2, m3 := Mixed(s0, s1, t), Mixed(s1, s2, t), Mixed(s2, s3, t), Mixed(s3, s0, t);
    InvForm(m0, m1, m2, m3);
    MixKeepsTotal(s0, s1, s2, s3, t);
    UnmixSum(s0, s1, s2, s3, t);
  }

  lemma UnmixSum(s0: Byte, s1: Byte, s2: Byte, s3: Byte, t: Byte)
    requires t == Sum4(s0, s1, s2, s3)
    ensures var m0, m1, m2 := Mixed(s0, s1, t), Mixed(s1, s2, t), Mixed(s2, s3, t);
      Sum3(Mixed(m0, m1, t), X2(Sum2(m0, m2)), X3(t)) == s0
  {
    hide Sum2, Sum3, Sum4, Xtime;
    var p, q, w := Xtime(Sum2(s0, s1)), X2(Sum2(s0, s2)), X3(t);
    NextTo(s0, s1, s2, t);
    XtimeAdds(Sum2(s0, s1), Xtime(Sum2(s0, s2)));
    FirstCancels(s0, t, p, q);
    Across(s0, s1, s2, s3, t);
    X2Adds(Sum2(s0, s2), Xtime(t));
    LastCancels(s0, q, w);
  }

  // ---------- the other way round ----------

  lemma FourSums(m0: Byte, m1: Byte, m2: Byte, m3: Byte, p: Byte, q: Byte)
    ensures Sum4(Sum2(m0, p), Sum2(m1, q), Sum2(m2, p), Sum2(m3, q)) == Sum4(m0, m1, m2, m3)
  {
    hide Sum2, Sum4;
    Opposite(Sum2(m0, p), Sum2(m1, q), Sum2(m2, p), Sum2(m3, q));
    Shared(m0, m2, p);
    Shared(m1, m3, q);
    Opposite(m0, m1, m2, m3);
  }

  lemma AllCancel(s0: Byte, t: Byte, p: Byte, u: Byte)
    ensures Sum3(Sum2(Sum3(s0, t, p), u), t, Sum2(p, u)) == s0
  {
    hide Sum2;
    Rearranged(Sum3(s0, t, p), t, u);
    Rearranged(Sum2(s0, t), t, p);
    Twice(s0, t);
    Grouped(s0, p, u);
    Twice(s0, Sum2(p, u));
  }

  /** MixColumns undoes InvMixColumns, row 0. */
  lemma MixAfterInv(s0: Byte, s1: Byte, s2: Byte, s3: Byte)
    ensures MixByte(InvByte(s0, s1, s2, s3), InvByte(s1, s2, s3, s0), InvByte(s2, s3, s0, s1), InvByte(s3, s0, s1, s2)) == s0
  {
    hide Sum2, Sum4, Xtime, X2, X3, MixByte, InvByte, Mixed;
    var t := Sum4(s0, s1, s2, s3);
    var w := X3(t);
    Rotated(s0, s1, s2, s3);
    Rotated(s1, s2, s3, s0);
    Rotated(s2, s3, s0, s1);
    var m0, m1, m2, m3 := Mixed(s0, s1, t), Mixed(s1, s2, t), Mixed(s2, s3, t), Mixed(s3, s0, t);
    var p, q := Sum2(X2(Sum2(s0, s2)), w), Sum2(X2(Sum2(s1, s3)), w);
    Commutes(s0, s2);
    Commutes(s1, s3);
    InvForm(s0, s1, s2, s3);
    InvForm(s1, s2, s3, s0);
    InvForm(s2, s3, s0, s1);
    InvForm(s3, s0, s1, s2);
    Grouped(m0, X2(Sum2(s0, s2)), w);
    Grouped(m1, X2(Sum2(s1, s3)), w);
    Grouped(m2, X2(Sum2(s0, s2)), w);
    Grouped(m3, X2(Sum2(s1, s3)), w);
    MixForm(Sum2(m0, p), Sum2(m1, q), Sum2(m2, p), Sum2(m3, q));
    FourSums(m0, m1, m2, m3, p, q);
    MixKeepsTotal(s0, s1, s2, s3, t);
    RemixSum(s0, s1, s2, s3, t);
  }

  lemma RemixSum(s0: Byte, s1: Byte, s2: Byte, s3: Byte, t: Byte)
    requires t == Sum4(s0, s1, s2, s3)
    ensures var w := X3(t);
      var p, q := Sum2(X2(Sum2(s0, s2)), w), Sum2(X2(Sum2(s1, s3)), w);
      Mixed(Sum2(Mixed(s0, s1, t), p), Sum2(Mixed(s1, s2, t), q), t) == s0
  {
    hide Sum2, Sum3, Sum4, Xtime;
    var w := X3(t);
    var e, f := X2(Sum2(s0, s2)), X2(Sum2(s1, s3));
    var p, q := Sum2(e, w), Sum2(f, w);
    var m0, m1 := Mixed(s0, s1, t), Mixed(s1, s2, t);
    Exchange(m0, m1, p, q);
    NextTo(s0, s1, s2, t);
    Shared(e, f, w);
    X2Adds(Sum2(s0, s2), Sum2(s1, s3));
    Opposite(s0, s1, s2, s3);
    var d := Sum2(Sum2(s0, s1), Xtime(Sum2(s0, s2)));
    XtimeAdds(d, X2(t));
    XtimeAdds(Sum2(s0, s1), Xtime(Sum2(s0, s2)));
    Grouped(Xtime(Sum2(s0, s1)), e, w);
    AllCancel(s0, t, Xtime(Sum2(s0, s1)), p);
  }
}
