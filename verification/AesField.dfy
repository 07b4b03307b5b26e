/**
 Bytes as the polynomials of section 4.2 of FIPS 197.  Only the lemmas of the first section
 look at bits; from there on sums obey the laws of a group in which every element is its own
 inverse.
 */
module AesField {
  import opened Wrappers

  function Sum2(a: Byte, b: Byte): Byte { a ^ b }

  function Shift(x: Byte): Byte { x << 1 }

  predicate Top(x: Byte) { x & 0x80 != 0 }

  lemma Commutes(a: Byte, b: Byte)
    ensures Sum2(a, b) == Sum2(b, a)
  {
  }

  lemma Grouped(a: Byte, b: Byte, c: Byte)
    ensures Sum2(Sum2(a, b), c) == Sum2(a, Sum2(b, c))
  {
  }

  lemma Zero(a: Byte)
    ensures Sum2(a, 0) == a
  {
  }

  lemma Self(a: Byte)
    ensures Sum2(a, a) == 0
  {
  }

  lemma ShiftBits(a: Byte, b: Byte, c: Byte)
    requires c == a ^ b
    ensures c << 1 == (a << 1) ^ (b << 1)
  {
  }

  lemma ShiftAdds(a: Byte, b: Byte)
    ensures Shift(Sum2(a, b)) == Sum2(Shift(a), Shift(b))
  {
    ShiftBits(a, b, Sum2(a, b));
  }

  lemma TopBits(a: Byte, b: Byte, c: Byte)
    requires c == a ^ b
    ensures (c & 0x80 != 0) == ((a & 0x80 != 0) != (b & 0x80 != 0))
  {
  }

  lemma TopAdds(a: Byte, b: Byte)
    ensures Top(Sum2(a, b)) == (Top(a) != Top(b))
  {
    TopBits(a, b, Sum2(a, b));
  }

  // ---------- sums ----------

  function Sum3(a: Byte, b: Byte, c: Byte): Byte { Sum2(Sum2(a, b), c) }

  function Sum4(a: Byte, b: Byte, c: Byte, d: Byte): Byte { Sum2(Sum3(a, b, c), d) }

  lemma ZeroFirst(a: Byte)
    ensures Sum2(0, a) == a
  {
    hide Sum2;
    Commutes(0, a);
    Zero(a);
  }

  /** Adding the same twice changes nothing. */
  lemma Twice(a: Byte, b: Byte)
    ensures Sum2(Sum2(a, b), b) == a
  {
    hide Sum2;
    Grouped(a, b, b);
    Self(b);
    Zero(a);
  }

  lemma Chained(a: Byte, b: Byte, c: Byte)
    ensures Sum2(Sum2(a, b), Sum2(b, c)) == Sum2(a, c)
  {
    hide Sum2;
    Grouped(Sum2(a, b), b, c);
    Twice(a, b);
  }

  lemma Rearranged(a: Byte, b: Byte, c: Byte)
    ensures Sum2(Sum2(a, c), b) == Sum2(Sum2(a, b), c)
  {
    hide Sum2;
    Grouped(a, c, b);
    Commutes(c, b);
    Grouped(a, b, c);
  }

  lemma Exchange(a: Byte, b: Byte, p: Byte, q: Byte)
    ensures Sum2(Sum2(a, p), Sum2(b, q)) == Sum2(Sum2(a, b), Sum2(p, q))
  {
    hide Sum2;
    Grouped(Sum2(a, p), b, q);
    Rearranged(a, b, p);
    Grouped(Sum2(a, b), p, q);
  }

  lemma Shared(a: Byte, b: Byte, c: Byte)
    ensures Sum2(Sum2(a, c), Sum2(b, c)) == Sum2(a, b)
  {
    hide Sum2;
    Exchange(a, b, c, c);
    Self(c);
    Zero(Sum2(a, b));
  }

  lemma Adjacent(a: Byte, b: Byte, c: Byte, d: Byte)
    ensures Sum4(a, b, c, d) == Sum2(Sum2(a, b), Sum2(c, d))
  {
    hide Sum2;
    Grouped(Sum2(a, b), c, d);
  }

  lemma Opposite(a: Byte, b: Byte, c: Byte, d: Byte)
    ensures Sum4(a, b, c, d) == Sum2(Sum2(a, c), Sum2(b, d))
  {
    hide Sum2, Sum4;
    Adjacent(a, b, c, d);
    Exchange(a, c, b, d);
  }

  lemma Rotated(a: Byte, b: Byte, c: Byte, d: Byte)
    ensures Sum4(b, c, d, a) == Sum4(a, b, c, d)
  {
    hide Sum2, Sum4;
    Opposite(b, c, d, a);
    Opposite(a, b, c, d);
    Commutes(c, a);
    Commutes(Sum2(b, d), Sum2(a, c));
  }

  // ---------- doubling ----------

  function Carry(x: Byte): Byte { if Top(x) then 0x1b else 0 }

  /** `aes_xtime`. */
  function Xtime(x: Byte): Byte { Sum2(Shift(x), Carry(x)) }

  lemma CarryAdds(a: Byte, b: Byte)
    ensures Carry(Sum2(a, b)) == Sum2(Carry(a), Carry(b))
  {
    hide Sum2, Top;
    TopAdds(a, b);
    Self(0x1b);
    Self(0);
    Zero(0x1b);
    ZeroFirst(0x1b);
  }

  /** Doubling is additive. */
  lemma XtimeAdds(a: Byte, b: Byte)
    ensures Xtime(Sum2(a, b)) == Sum2(Xtime(a), Xtime(b))
  {
    hide Sum2, Shift, Carry;
    ShiftAdds(a, b);
    CarryAdds(a, b);
    Exchange(Shift(a), Shift(b), Carry(a), Carry(b));
  }

  // ---------- products ----------

  function Term(y: Byte, mask: Byte, v: Byte): Byte { if y & mask != 0 then v else 0 }

  function Sum8(a: Byte, b: Byte, c: Byte, d: Byte, e: Byte, f: Byte, g: Byte, h: Byte): Byte {
    Sum2(a, Sum2(b, Sum2(c, Sum2(d, Sum2(e, Sum2(f, Sum2(g, h)))))))
  }

  /** The product by repeated doubling, section 4.2.1. */
  function Times(x: Byte, y: Byte): Byte {
    var x1 := Xtime(x);
    var x2 := Xtime(x1);
    var x3 := Xtime(x2);
    var x4 := Xtime(x3);
    var x5 := Xtime(x4);
    var x6 := Xtime(x5);
    var x7 := Xtime(x6);
    Sum8(Term(y, 0x01, x), Term(y, 0x02, x1), Term(y, 0x04, x2), Term(y, 0x08, x3),
         Term(y, 0x10, x4), Term(y, 0x20, x5), Term(y, 0x40, x6), Term(y, 0x80, x7))
  }

  function Half(y: Byte): Byte { y >> 1 }

  lemma HalfBits(y: Byte, h: Byte)
    requires h == y >> 1
    ensures h & 0x01 != 0 <==> y & 0x02 != 0
    ensures h & 0x02 != 0 <==> y & 0x04 != 0
    ensures h & 0x04 != 0 <==> y & 0x08 != 0
    ensures h & 0x08 != 0 <==> y & 0x10 != 0
    ensures h & 0x10 != 0 <==> y & 0x20 != 0
    ensures h & 0x20 != 0 <==> y & 0x40 != 0
    ensures h & 0x40 != 0 <==> y & 0x80 != 0
    ensures h & 0x80 == 0
    ensures y != 0 ==> h < y
  {
  }

  lemma TermHalf(y: Byte, v: Byte)
    ensures Term(Half(y), 0x01, v) == Term(y, 0x02, v)
    ensures Term(Half(y), 0x02, v) == Term(y, 0x04, v)
    ensures Term(Half(y), 0x04, v) == Term(y, 0x08, v)
    ensures Term(Half(y), 0x08, v) == Term(y, 0x10, v)
    ensures Term(Half(y), 0x10, v) == Term(y, 0x20, v)
    ensures Term(Half(y), 0x20, v) == Term(y, 0x40, v)
    ensures Term(Half(y), 0x40, v) == Term(y, 0x80, v)
    ensures Term(Half(y), 0x80, v) == 0
  {
    HalfBits(y, Half(y));
    hide Half;
  }

  /** One round of the loop moves the lowest term into the sum. */
  lemma TimesStep(r: Byte, x: Byte, y: Byte)
    ensures Sum2(Sum2(r, Term(y, 0x01, x)), Times(Xtime(x), Half(y))) == Sum2(r, Times(x, y))
  {
    hide Xtime, Term, Half, Sum2;
    var x1 := Xtime(x);
    var x2 := Xtime(x1);
    var x3 := Xtime(x2);
    var x4 := Xtime(x3);
    var x5 := Xtime(x4);
    var x6 := Xtime(x5);
    var x7 := Xtime(x6);
    TermHalf(y, x1);
    TermHalf(y, x2);
    TermHalf(y, x3);
    TermHalf(y, x4);
    TermHalf(y, x5);
    TermHalf(y, x6);
    TermHalf(y, x7);
    TermHalf(y, Xtime(x7));
    Zero(Term(y, 0x80, x7));
    Grouped(r, Term(y, 0x01, x), Times(x1, Half(y)));
  }

  lemma NoTerms(x: Byte)
    ensures Times(x, 0) == 0
  {
    hide Xtime, Sum2;
    Zero(0);
  }

  lemma HalfDecreases(y: Byte)
    requires y != 0
    ensures Half(y) < y
  {
    HalfBits(y, Half(y));
  }

  /** `aes_mul`. */
  method Mul(x: Byte, y: Byte) returns (r: Byte)
    ensures r == Times(x, y)
  {
    hide Times, Xtime, Sum2, Half;
    r := 0;
    var a, b := x, y;
    ZeroFirst(Times(x, y));
    while b != 0
      invariant Sum2(r, Times(a, b)) == Times(x, y)
    {
      TimesStep(r, a, b);
      Zero(r);
      HalfDecreases(b);
      if b & 1 != 0 {
        r := Sum2(r, a);
      }
      a := Xtime(a);
      b := Half(b);
    }
    NoTerms(a);
    Zero(r);
  }
}
