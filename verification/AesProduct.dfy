/**
 `aes_mul` is the multiplication of the field of FIPS 197, section 4.2: it distributes over
 sums, 1 is its unit, and it commutes with multiplication by x modulo x^8 + x^4 + x^3 + x + 1.
 Every byte is a sum of powers of x, so these laws leave no other product.
 */
module AesProduct {
  import opened AesField
  import opened Wrappers

  lemma MaskedBits(y: Byte, z: Byte, s: Byte, mask: Byte)
    requires s == y ^ z
    requires mask == 0x01 || mask == 0x02 || mask == 0x04 || mask == 0x08 || mask == 0x10 || mask == 0x20 || mask == 0x40 || mask == 0x80
    ensures (s & mask != 0) == ((y & mask != 0) != (z & mask != 0))
  {
  }

  /** Each term is additive in the second factor. */
  lemma TermAdds(y: Byte, z: Byte, mask: Byte, v: Byte)
    requires mask == 0x01 || mask == 0x02 || mask == 0x04 || mask == 0x08 || mask == 0x10 || mask == 0x20 || mask == 0x40 || mask == 0x80
    ensures Term(Sum2(y, z), mask, v) == Sum2(Term(y, mask, v), Term(z, mask, v))
  {
    MaskedBits(y, z, Sum2(y, z), mask);
    hide Sum2;
    Self(v);
    Self(0);
    Zero(v);
    ZeroFirst(v);
  }

  lemma Sum8Adds(a0: Byte, a1: Byte, a2: Byte, a3: Byte, a4: Byte, a5: Byte, a6: Byte, a7: Byte,
                 b0: Byte, b1: Byte, b2: Byte, b3: Byte, b4: Byte, b5: Byte, b6: Byte, b7: Byte)
    ensures Sum8(Sum2(a0, b0), Sum2(a1, b1), Sum2(a2, b2), Sum2(a3, b3), Sum2(a4, b4), Sum2(a5, b5), Sum2(a6, b6), Sum2(a7, b7))
         == Sum2(Sum8(a0, a1, a2, a3, a4, a5, a6, a7), Sum8(b0, b1, b2, b3, b4, b5, b6, b7))
  {
    hide Sum2;
    var a6' := Sum2(a6, a7);
    var b6' := Sum2(b6, b7);
    var a5', b5' := Sum2(a5, a6'), Sum2(b5, b6');
    var a4', b4' := Sum2(a4, a5'), Sum2(b4, b5');
    var a3', b3' := Sum2(a3, a4'), Sum2(b3, b4');
    var a2', b2' := Sum2(a2, a3'), Sum2(b2, b3');
    var a1', b1' := Sum2(a1, a2'), Sum2(b1, b2');
    Exchange(a6, a7, b6, b7);
    Exchange(a5, a6', b5, b6');
    Exchange(a4, a5', b4, b5');
    Exchange(a3, a4', b3, b4');
    Exchange(a2, a3', b2, b3');
    Exchange(a1, a2', b1, b2');
    Exchange(a0, a1', b0, b1');
  }

  /** The product distributes over sums on the right. */
  lemma TimesAddsRight(x: Byte, y: Byte, z: Byte)
    ensures Times(x, Sum2(y, z)) == Sum2(Times(x, y), Times(x, z))
  {
    hide Sum2, Sum8, Term, Xtime;
    var x1 := Xtime(x);
    var x2 := Xtime(x1);
    var x3 := Xtime(x2);
    var x4 := Xtime(x3);
    var x5 := Xtime(x4);
    var x6 := Xtime(x5);
    var x7 := Xtime(x6);
    TermAdds(y, z, 0x01, x);
    TermAdds(y, z, 0x02, x1);
    TermAdds(y, z, 0x04, x2);
    TermAdds(y, z, 0x08, x3);
    TermAdds(y, z, 0x10, x4);
    TermAdds(y, z, 0x20, x5);
    TermAdds(y, z, 0x40, x6);
    TermAdds(y, z, 0x80, x7);
    Sum8Adds(Term(y, 0x01, x), Term(y, 0x02, x1), Term(y, 0x04, x2), Term(y, 0x08, x3),
             Term(y, 0x10, x4), Term(y, 0x20, x5), Term(y, 0x40, x6), Term(y, 0x80, x7),
             Term(z, 0x01, x), Term(z, 0x02, x1), Term(z, 0x04, x2), Term(z, 0x08, x3),
             Term(z, 0x10, x4), Term(z, 0x20, x5), Term(z, 0x40, x6), Term(z, 0x80, x7));
  }

  lemma TermOfSum(y: Byte, mask: Byte, v: Byte, w: Byte)
    ensures Term(y, mask, Sum2(v, w)) == Sum2(Term(y, mask, v), Term(y, mask, w))
  {
    Self(0);
    hide Sum2;
  }

  /** The product distributes over sums on the left. */
  lemma TimesAddsLeft(x: Byte, w: Byte, y: Byte)
    ensures Times(Sum2(x, w), y) == Sum2(Times(x, y), Times(w, y))
  {
    hide Sum2, Sum8, Term, Xtime;
    var x1, w1 := Xtime(x), Xtime(w);
    var x2, w2 := Xtime(x1), Xtime(w1);
    var x3, w3 := Xtime(x2), Xtime(w2);
    var x4, w4 := Xtime(x3), Xtime(w3);
    var x5, w5 := Xtime(x4), Xtime(w4);
    var x6, w6 := Xtime(x5), Xtime(w5);
    var x7, w7 := Xtime(x6), Xtime(w6);
    XtimeAdds(x, w);
    XtimeAdds(x1, w1);
    XtimeAdds(x2, w2);
    XtimeAdds(x3, w3);
    XtimeAdds(x4, w4);
    XtimeAdds(x5, w5);
    XtimeAdds(x6, w6);
    TermOfSum(y, 0x01, x, w);
    TermOfSum(y, 0x02, x1, w1);
    TermOfSum(y, 0x04, x2, w2);
    TermOfSum(y, 0x08, x3, w3);
    TermOfSum(y, 0x10, x4, w4);
    TermOfSum(y, 0x20, x5, w5);
    TermOfSum(y, 0x40, x6, w6);
    TermOfSum(y, 0x80, x7, w7);
    Sum8Adds(Term(y, 0x01, x), Term(y, 0x02, x1), Term(y, 0x04, x2), Term(y, 0x08, x3),
             Term(y, 0x10, x4), Term(y, 0x20, x5), Term(y, 0x40, x6), Term(y, 0x80, x7),
             Term(y, 0x01, w), Term(y, 0x02, w1), Term(y, 0x04, w2), Term(y, 0x08, w3),
             Term(y, 0x10, w4), Term(y, 0x20, w5), Term(y, 0x40, w6), Term(y, 0x80, w7));
  }

  /** 1 is the unit. */
  lemma TimesOne(x: Byte)
    ensures Times(x, 0x01) == x
  {
    hide Xtime, Sum2;
    Zero(0);
    Zero(x);
  }

  // ---------- multiplication by x ----------

  lemma XtimeZero()
    ensures Xtime(0) == 0
  {
    hide Sum2, Carry, Shift;
    Zero(0);
    XtimeAdds(0, 0);
    Self(Xtime(0));
  }

  lemma XtimeOfTerm(y: Byte, mask: Byte, v: Byte)
    ensures Xtime(Term(y, mask, v)) == Term(y, mask, Xtime(v))
  {
    hide Xtime;
    XtimeZero();
  }

  lemma XtimeOfSum8(a: Byte, b: Byte, c: Byte, d: Byte, e: Byte, f: Byte, g: Byte, h: Byte)
    ensures Xtime(Sum8(a, b, c, d, e, f, g, h)) == Sum8(Xtime(a), Xtime(b), Xtime(c), Xtime(d), Xtime(e), Xtime(f), Xtime(g), Xtime(h))
  {
    hide Sum2, Xtime;
    var g' := Sum2(g, h);
    var f' := Sum2(f, g');
    var e' := Sum2(e, f');
    var d' := Sum2(d, e');
    var c' := Sum2(c, d');
    var b' := Sum2(b, c');
    XtimeAdds(g, h);
    XtimeAdds(f, g');
    XtimeAdds(e, f');
    XtimeAdds(d, e');
    XtimeAdds(c, d');
    XtimeAdds(b, c');
    XtimeAdds(a, b');
  }

  /** Doubling the first factor doubles the product. */
  lemma TimesXtimeLeft(x: Byte, y: Byte)
    ensures Times(Xtime(x), y) == Xtime(Times(x, y))
  {
    hide Xtime, Term, Sum8;
    var x1 := Xtime(x);
    var x2 := Xtime(x1);
    var x3 := Xtime(x2);
    var x4 := Xtime(x3);
    var x5 := Xtime(x4);
    var x6 := Xtime(x5);
    var x7 := Xtime(x6);
    XtimeOfSum8(Term(y, 0x01, x), Term(y, 0x02, x1), Term(y, 0x04, x2), Term(y, 0x08, x3),
                Term(y, 0x10, x4), Term(y, 0x20, x5), Term(y, 0x40, x6), Term(y, 0x80, x7));
    XtimeOfTerm(y, 0x01, x);
    XtimeOfTerm(y, 0x02, x1);
    XtimeOfTerm(y, 0x04, x2);
    XtimeOfTerm(y, 0x08, x3);
    XtimeOfTerm(y, 0x10, x4);
    XtimeOfTerm(y, 0x20, x5);
    XtimeOfTerm(y, 0x40, x6);
    XtimeOfTerm(y, 0x80, x7);
  }

  lemma EighthBits(x: Byte, x1: Byte, x2: Byte, x3: Byte, x4: Byte, x5: Byte, x6: Byte, x7: Byte, x8: Byte)
    requires x1 == (x << 1) ^ (if x & 0x80 != 0 then 0x1b else 0)
    requires x2 == (x1 << 1) ^ (if x1 & 0x80 != 0 then 0x1b else 0)
    requires x3 == (x2 << 1) ^ (if x2 & 0x80 != 0 then 0x1b else 0)
    requires x4 == (x3 << 1) ^ (if x3 & 0x80 != 0 then 0x1b else 0)
    requires x5 == (x4 << 1) ^ (if x4 & 0x80 != 0 then 0x1b else 0)
    requires x6 == (x5 << 1) ^ (if x5 & 0x80 != 0 then 0x1b else 0)
    requires x7 == (x6 << 1) ^ (if x6 & 0x80 != 0 then 0x1b else 0)
    requires x8 == (x7 << 1) ^ (if x7 & 0x80 != 0 then 0x1b else 0)
    ensures x8 == x ^ x1 ^ x3 ^ x4
  {
  }

  lemma Double(x: Byte)
    ensures Xtime(x) == (x << 1) ^ (if x & 0x80 != 0 then 0x1b else 0)
  {
  }

  lemma FourSum(a: Byte, b: Byte, c: Byte, d: Byte)
    ensures Sum4(a, b, c, d) == a ^ b ^ c ^ d
  {
  }

  /** x^8 is x^4 + x^3 + x + 1: the reduction polynomial. */
  lemma EighthPower(x: Byte)
    ensures var x1 := Xtime(x);
      var x4 := Xtime(Xtime(Xtime(x1)));
      Xtime(Xtime(Xtime(Xtime(x4)))) == Sum4(x, x1, Xtime(Xtime(x1)), x4)
  {
    hide Xtime, Sum4;
    var x1 := Xtime(x);
    var x2 := Xtime(x1);
    var x3 := Xtime(x2);
    var x4 := Xtime(x3);
    var x5 := Xtime(x4);
    var x6 := Xtime(x5);
    var x7 := Xtime(x6);
    Double(x);
    Double(x1);
    Double(x2);
    Double(x3);
    Double(x4);
    Double(x5);
    Double(x6);
    Double(x7);
    EighthBits(x, x1, x2, x3, x4, x5, x6, x7, Xtime(x7));
    FourSum(x, x1, x3, x4);
  }

  lemma Times1B(x: Byte)
    ensures Times(x, 0x1b) == Sum4(x, Xtime(x), Xtime(Xtime(Xtime(x))), Xtime(Xtime(Xtime(Xtime(x)))))
  {
    hide Xtime, Sum2;
    var x1 := Xtime(x);
    var x3 := Xtime(Xtime(x1));
    var x4 := Xtime(x3);
    Zero(0);
    Zero(x4);
    ZeroFirst(Sum2(x3, x4));
    Adjacent(x, x1, x3, x4);
    Grouped(x, x1, Sum2(x3, x4));
  }

  lemma ShiftedBits(y: Byte, s: Byte)
    requires s == y << 1
    ensures s & 0x01 == 0
    ensures s & 0x02 != 0 <==> y & 0x01 != 0
    ensures s & 0x04 != 0 <==> y & 0x02 != 0
    ensures s & 0x08 != 0 <==> y & 0x04 != 0
    ensures s & 0x10 != 0 <==> y & 0x08 != 0
    ensures s & 0x20 != 0 <==> y & 0x10 != 0
    ensures s & 0x40 != 0 <==> y & 0x20 != 0
    ensures s & 0x80 != 0 <==> y & 0x40 != 0
  {
  }

  lemma TermShift(y: Byte, v: Byte)
    ensures Term(Shift(y), 0x01, v) == 0
    ensures Term(Shift(y), 0x02, v) == Term(y, 0x01, v)
    ensures Term(Shift(y), 0x04, v) == Term(y, 0x02, v)
    ensures Term(Shift(y), 0x08, v) == Term(y, 0x04, v)
    ensures Term(Shift(y), 0x10, v) == Term(y, 0x08, v)
    ensures Term(Shift(y), 0x20, v) == Term(y, 0x10, v)
    ensures Term(Shift(y), 0x40, v) == Term(y, 0x20, v)
    ensures Term(Shift(y), 0x80, v) == Term(y, 0x40, v)
  {
    ShiftedBits(y, Shift(y));
    hide Shift;
  }

  lemma LastTerm(t1: Byte, t2: Byte, t3: Byte, t4: Byte, t5: Byte, t6: Byte, t7: Byte, t8: Byte)
    ensures Sum2(Sum8(0, t1, t2, t3, t4, t5, t6, t7), t8) == Sum8(t1, t2, t3, t4, t5, t6, t7, t8)
  {
    hide Sum2;
    var s6 := Sum2(t6, t7);
    var s5 := Sum2(t5, s6);
    var s4 := Sum2(t4, s5);
    var s3 := Sum2(t3, s4);
    var s2 := Sum2(t2, s3);
    ZeroFirst(Sum2(t1, s2));
    Grouped(t6, t7, t8);
    Grouped(t5, s6, t8);
    Grouped(t4, s5, t8);
    Grouped(t3, s4, t8);
    Grouped(t2, s3, t8);
    Grouped(t1, s2, t8);
  }

  lemma TimesShift(x: Byte, y: Byte)
    ensures Sum2(Times(x, Shift(y)), Term(y, 0x80, Times(x, 0x1b))) == Xtime(Times(x, y))
  {
    hide Xtime, Term, Sum8, Shift, Sum2;
    var x1 := Xtime(x);
    var x2 := Xtime(x1);
    var x3 := Xtime(x2);
    var x4 := Xtime(x3);
    var x5 := Xtime(x4);
    var x6 := Xtime(x5);
    var x7 := Xtime(x6);
    TermShift(y, x);
    TermShift(y, x1);
    TermShift(y, x2);
    TermShift(y, x3);
    TermShift(y, x4);
    TermShift(y, x5);
    TermShift(y, x6);
    TermShift(y, x7);
    TimesXtimeLeft(x, y);
    Times1B(x);
    EighthPower(x);
    LastTerm(Term(y, 0x01, x1), Term(y, 0x02, x2), Term(y, 0x04, x3), Term(y, 0x08, x4),
             Term(y, 0x10, x5), Term(y, 0x20, x6), Term(y, 0x40, x7), Term(y, 0x80, Xtime(x7)));
  }

  lemma TimesZero(x: Byte)
    ensures Times(x, 0) == 0
  {
    NoTerms(x);
  }

  /** The product commutes with multiplication by x modulo the reduction polynomial. */
  lemma TimesXtime(x: Byte, y: Byte)
    ensures Times(x, Xtime(y)) == Xtime(Times(x, y))
  {
    hide Times, Shift, Sum2;
    assert Xtime(y) == Sum2(Shift(y), Carry(y));
    TimesAddsRight(x, Shift(y), Carry(y));
    TimesShift(x, y);
    TimesZero(x);
  }

  // ---------- no other product has these laws ----------

  ghost predicate IsProduct(p: (Byte, Byte) -> Byte) {
    && (forall a, b, c :: p(a, Sum2(b, c)) == Sum2(p(a, b), p(a, c)))
    && (forall a :: p(a, 0x01) == a)
    && (forall a, b :: p(a, Xtime(b)) == Xtime(p(a, b)))
  }

  lemma DigitBits(y: Byte, t0: Byte, t1: Byte, t2: Byte, t3: Byte, t4: Byte, t5: Byte, t6: Byte, t7: Byte,
                  s1: Byte, s2: Byte, s3: Byte, s4: Byte, s5: Byte, s6: Byte)
    requires t0 == if y & 0x01 != 0 then 0x01 else 0
    requires t1 == if y & 0x02 != 0 then 0x02 else 0
    requires t2 == if y & 0x04 != 0 then 0x04 else 0
    requires t3 == if y & 0x08 != 0 then 0x08 else 0
    requires t4 == if y & 0x10 != 0 then 0x10 else 0
    requires t5 == if y & 0x20 != 0 then 0x20 else 0
    requires t6 == if y & 0x40 != 0 then 0x40 else 0
    requires t7 == if y & 0x80 != 0 then 0x80 else 0
    requires s6 == t6 ^ t7 && s5 == t5 ^ s6 && s4 == t4 ^ s5 && s3 == t3 ^ s4 && s2 == t2 ^ s3 && s1 == t1 ^ s2
    ensures t0 ^ s1 == y
  {
  }

  /** A byte is the sum of its powers of x. */
  lemma Digits(y: Byte)
    ensures Sum8(Term(y, 0x01, 0x01), Term(y, 0x02, 0x02), Term(y, 0x04, 0x04), Term(y, 0x08, 0x08),
                 Term(y, 0x10, 0x10), Term(y, 0x20, 0x20), Term(y, 0x40, 0x40), Term(y, 0x80, 0x80)) == y
  {
    var t0, t1, t2, t3 := Term(y, 0x01, 0x01), Term(y, 0x02, 0x02), Term(y, 0x04, 0x04), Term(y, 0x08, 0x08);
    var t4, t5, t6, t7 := Term(y, 0x10, 0x10), Term(y, 0x20, 0x20), Term(y, 0x40, 0x40), Term(y, 0x80, 0x80);
    var s6 := Sum2(t6, t7);
    var s5 := Sum2(t5, s6);
    var s4 := Sum2(t4, s5);
    var s3 := Sum2(t3, s4);
    var s2 := Sum2(t2, s3);
    var s1 := Sum2(t1, s2);
    DigitBits(y, t0, t1, t2, t3, t4, t5, t6, t7, s1, s2, s3, s4, s5, s6);
  }

  lemma Powers()
    ensures Xtime(0x01) == 0x02 && Xtime(0x02) == 0x04 && Xtime(0x04) == 0x08 && Xtime(0x08) == 0x10
    ensures Xtime(0x10) == 0x20 && Xtime(0x20) == 0x40 && Xtime(0x40) == 0x80
  {
  }

  lemma ProductOfTerm(p: (Byte, Byte) -> Byte, x: Byte, y: Byte, mask: Byte)
    requires IsProduct(p)
    ensures p(x, Term(y, mask, mask)) == Term(y, mask, p(x, mask))
  {
    hide Sum2, Xtime;
    Zero(0);
    assert p(x, Sum2(0, 0)) == Sum2(p(x, 0), p(x, 0));
    Self(p(x, 0));
  }

  /** A product with these laws is `Times`. */
  lemma OnlyProduct(p: (Byte, Byte) -> Byte, x: Byte, y: Byte)
    requires IsProduct(p)
    ensures p(x, y) == Times(x, y)
  {
    hide Sum2, Xtime, Term;
    Powers();
    ProductOfTerm(p, x, y, 0x01);
    ProductOfTerm(p, x, y, 0x02);
    ProductOfTerm(p, x, y, 0x04);
    ProductOfTerm(p, x, y, 0x08);
    ProductOfTerm(p, x, y, 0x10);
    ProductOfTerm(p, x, y, 0x20);
    ProductOfTerm(p, x, y, 0x40);
    ProductOfTerm(p, x, y, 0x80);
    assert p(x, 0x02) == Xtime(x);
    assert p(x, 0x04) == Xtime(Xtime(x));
    assert p(x, 0x08) == Xtime(Xtime(Xtime(x)));
    assert p(x, 0x10) == Xtime(Xtime(Xtime(Xtime(x))));
    assert p(x, 0x20) == Xtime(Xtime(Xtime(Xtime(Xtime(x)))));
    assert p(x, 0x40) == Xtime(Xtime(Xtime(Xtime(Xtime(Xtime(x))))));
    assert p(x, 0x80) == Xtime(Xtime(Xtime(Xtime(Xtime(Xtime(Xtime(x)))))));
    Digits(y);
  }

  /** And `Times` has them. */
  lemma TimesIsProduct()
    ensures IsProduct(Times)
  {
    hide Times, Sum2, Xtime;
    forall a, b, c ensures Times(a, Sum2(b, c)) == Sum2(Times(a, b), Times(a, c)) {
      TimesAddsRight(a, b, c);
    }
    forall a ensures Times(a, 0x01) == a {
      TimesOne(a);
    }
    forall a, b ensures Times(a, Xtime(b)) == Xtime(Times(a, b)) {
      TimesXtime(a, b);
    }
  }
}
