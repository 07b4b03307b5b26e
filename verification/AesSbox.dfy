/**
 The substitution table of the kernel is the one that section 5.1.1 of FIPS 197 describes:
 each byte goes to its inverse in the field, zero to itself, and then through an affine map.
 The inverse is unique, since the product of the field is commutative and associative.
 */
module AesSbox {
  import opened AesField
  import opened AesProduct
  import opened AesTables
  import opened Wrappers

  // ---------- the product is commutative and associative ----------

  lemma TimesOneLeft(y: Byte)
    ensures Times(0x01, y) == y
  {
    hide Sum2, Xtime, Term;
    Powers();
    Digits(y);
  }

  lemma TimesCommutes(x: Byte, y: Byte)
    ensures Times(x, y) == Times(y, x)
  {
    hide Times, Sum2, Xtime;
    var p := (a: Byte, b: Byte) => Times(b, a);
    forall a, b, c ensures p(a, Sum2(b, c)) == Sum2(p(a, b), p(a, c)) {
      TimesAddsLeft(b, c, a);
    }
    forall a ensures p(a, 0x01) == a {
      TimesOneLeft(a);
    }
    forall a, b ensures p(a, Xtime(b)) == Xtime(p(a, b)) {
      TimesXtimeLeft(b, a);
    }
    OnlyProduct(p, x, y);
  }

  ghost predicate Respects(f: Byte -> Byte) {
    && (forall b, c :: f(Sum2(b, c)) == Sum2(f(b), f(c)))
    && (forall b :: f(Xtime(b)) == Xtime(f(b)))
  }

  lemma Respected(f: Byte -> Byte, b: Byte, c: Byte)
    requires Respects(f)
    ensures f(Sum2(b, c)) == Sum2(f(b), f(c)) && f(Xtime(b)) == Xtime(f(b))
  {
    hide Sum2, Xtime;
  }

  /** A map that respects sums and doubling multiplies by its value at 1. */
  lemma OnlyMultiples(f: Byte -> Byte, y: Byte)
    requires Respects(f)
    ensures f(y) == Times(f(0x01), y)
  {
    hide Times, Sum2, Xtime, Respects;
    var p := (a: Byte, b: Byte) => if a == f(0x01) then f(b) else Times(a, b);
    forall a, b, c ensures p(a, Sum2(b, c)) == Sum2(p(a, b), p(a, c)) {
      TimesAddsRight(a, b, c);
      Respected(f, b, c);
    }
    forall a ensures p(a, 0x01) == a {
      TimesOne(a);
    }
    forall a, b ensures p(a, Xtime(b)) == Xtime(p(a, b)) {
      TimesXtime(a, b);
      Respected(f, b, b);
    }
    OnlyProduct(p, f(0x01), y);
  }

  /** Multiplying by one byte and then by another respects sums and doubling. */
  lemma TimesAssociates(x: Byte, y: Byte, z: Byte)
    ensures Times(x, Times(y, z)) == Times(Times(x, y), z)
  {
    hide Times, Sum2, Xtime;
    var f := (b: Byte) => Times(x, Times(y, b));
    forall b, c ensures f(Sum2(b, c)) == Sum2(f(b), f(c)) {
      TimesAddsRight(y, b, c);
      TimesAddsRight(x, Times(y, b), Times(y, c));
    }
    forall b ensures f(Xtime(b)) == Xtime(f(b)) {
      TimesXtime(y, b);
      TimesXtime(x, Times(y, b));
    }
    OnlyMultiples(f, z);
    TimesOne(y);
  }

  /** A byte has at most one inverse. */
  lemma OnlyInverse(x: Byte, y: Byte, z: Byte)
    requires Times(x, y) == 0x01 && Times(x, z) == 0x01
    ensures y == z
  {
    hide Times;
    TimesOne(y);
    TimesAssociates(y, x, z);
    TimesCommutes(x, y);
    TimesOneLeft(z);
  }

  // ---------- the affine map ----------

  /** Bit i of the image is the sum of bits i, i+4, i+5, i+6 and i+7, going round, and of bit i of 0x63. */
  function Affine(b: Byte): Byte {
    b ^ ((b << 4) | (b >> 4)) ^ ((b << 3) | (b >> 5)) ^ ((b << 2) | (b >> 6)) ^ ((b << 1) | (b >> 7)) ^ 0x63
  }

  function Back(s: Byte): Byte {
    ((s << 1) | (s >> 7)) ^ ((s << 3) | (s >> 5)) ^ ((s << 6) | (s >> 2)) ^ 0x05
  }

  lemma BackBits(s: Byte, b: Byte)
    requires b == ((s << 1) | (s >> 7)) ^ ((s << 3) | (s >> 5)) ^ ((s << 6) | (s >> 2)) ^ 0x05
    ensures b ^ ((b << 4) | (b >> 4)) ^ ((b << 3) | (b >> 5)) ^ ((b << 2) | (b >> 6)) ^ ((b << 1) | (b >> 7)) ^ 0x63 == s
  {
  }

  lemma AffineBack(s: Byte)
    ensures Affine(Back(s)) == s
  {
    BackBits(s, Back(s));
  }

  // ---------- the products of the table ----------

  // The same product in few steps, for the many values below.

  function Doubled(x: Byte): Byte { (x << 1) ^ (if x & 0x80 != 0 then 0x1b else 0) }

  function Eight(a: Byte, b: Byte, c: Byte, d: Byte, e: Byte, f: Byte, g: Byte, h: Byte): Byte {
    a ^ (b ^ (c ^ (d ^ (e ^ (f ^ (g ^ h))))))
  }

  function Product(x: Byte, y: Byte): Byte {
    var x1 := Doubled(x);
    var x2 := Doubled(x1);
    var x3 := Doubled(x2);
    var x4 := Doubled(x3);
    var x5 := Doubled(x4);
    var x6 := Doubled(x5);
    var x7 := Doubled(x6);
    Eight(Term(y, 0x01, x), Term(y, 0x02, x1), Term(y, 0x04, x2), Term(y, 0x08, x3),
          Term(y, 0x10, x4), Term(y, 0x20, x5), Term(y, 0x40, x6), Term(y, 0x80, x7))
  }

  lemma DoubledIs(x: Byte)
    ensures Doubled(x) == Xtime(x)
  {
    Double(x);
  }

  lemma EightIs(a: Byte, b: Byte, c: Byte, d: Byte, e: Byte, f: Byte, g: Byte, h: Byte)
    ensures Eight(a, b, c, d, e, f, g, h) == Sum8(a, b, c, d, e, f, g, h)
  {
  }

  lemma ProductIs(x: Byte, y: Byte)
    ensures Product(x, y) == Times(x, y)
  {
    hide Doubled, Xtime, Eight, Sum8, Term;
    var x1 := Xtime(x);
    var x2 := Xtime(x1);
    var x3 := Xtime(x2);
    var x4 := Xtime(x3);
    var x5 := Xtime(x4);
    var x6 := Xtime(x5);
    DoubledIs(x);
    DoubledIs(x1);
    DoubledIs(x2);
    DoubledIs(x3);
    DoubledIs(x4);
    DoubledIs(x5);
    DoubledIs(x6);
    EightIs(Term(y, 0x01, x), Term(y, 0x02, x1), Term(y, 0x04, x2), Term(y, 0x08, x3),
            Term(y, 0x10, x4), Term(y, 0x20, x5), Term(y, 0x40, x6), Term(y, 0x80, Xtime(x6)));
  }

  lemma Row00(x: Byte)
    requires 0x00 <= x < 0x10 && x != 0
    ensures Product(x, Back(Sbox(x))) == 0x01
  {
    match x
    case 0x01 => assert Sbox(0x01) == 0x7c; case 0x02 => assert Sbox(0x02) == 0x77; case 0x03 => assert Sbox(0x03) == 0x7b; case 0x04 => assert Sbox(0x04) == 0xf2;
    case 0x05 => assert Sbox(0x05) == 0x6b; case 0x06 => assert Sbox(0x06) == 0x6f; case 0x07 => assert Sbox(0x07) == 0xc5; case 0x08 => assert Sbox(0x08) == 0x30;
    case 0x09 => assert Sbox(0x09) == 0x01; case 0x0a => assert Sbox(0x0a) == 0x67; case 0x0b => assert Sbox(0x0b) == 0x2b; case 0x0c => assert Sbox(0x0c) == 0xfe;
    case 0x0d => assert Sbox(0x0d) == 0xd7; case 0x0e => assert Sbox(0x0e) == 0xab; case _ => assert Sbox(0x0f) == 0x76;
  }

  lemma Row10(x: Byte)
    requires 0x10 <= x < 0x20
    ensures Product(x, Back(Sbox(x))) == 0x01
  {
    match x
    case 0x10 => assert Sbox(0x10) == 0xca; case 0x11 => assert Sbox(0x11) == 0x82; case 0x12 => assert Sbox(0x12) == 0xc9; case 0x13 => assert Sbox(0x13) == 0x7d;
    case 0x14 => assert Sbox(0x14) == 0xfa; case 0x15 => assert Sbox(0x15) == 0x59; case 0x16 => assert Sbox(0x16) == 0x47; case 0x17 => assert Sbox(0x17) == 0xf0;
    case 0x18 => assert Sbox(0x18) == 0xad; case 0x19 => assert Sbox(0x19) == 0xd4; case 0x1a => assert Sbox(0x1a) == 0xa2; case 0x1b => assert Sbox(0x1b) == 0xaf;
    case 0x1c => assert Sbox(0x1c) == 0x9c; case 0x1d => assert Sbox(0x1d) == 0xa4; case 0x1e => assert Sbox(0x1e) == 0x72; case _ => assert Sbox(0x1f) == 0xc0;
  }

  lemma Row20(x: Byte)
    requires 0x20 <= x < 0x30
    ensures Product(x, Back(Sbox(x))) == 0x01
  {
    match x
    case 0x20 => assert Sbox(0x20) == 0xb7; case 0x21 => assert Sbox(0x21) == 0xfd; case 0x22 => assert Sbox(0x22) == 0x93; case 0x23 => assert Sbox(0x23) == 0x26;
    case 0x24 => assert Sbox(0x24) == 0x36; case 0x25 => assert Sbox(0x25) == 0x3f; case 0x26 => assert Sbox(0x26) == 0xf7; case 0x27 => assert Sbox(0x27) == 0xcc;
    case 0x28 => assert Sbox(0x28) == 0x34; case 0x29 => assert Sbox(0x29) == 0xa5; case 0x2a => assert Sbox(0x2a) == 0xe5; case 0x2b => assert Sbox(0x2b) == 0xf1;
    case 0x2c => assert Sbox(0x2c) == 0x71; case 0x2d => assert Sbox(0x2d) == 0xd8; case 0x2e => assert Sbox(0x2e) == 0x31; case _ => assert Sbox(0x2f) == 0x15;
  }

  lemma Row30(x: Byte)
    requires 0x30 <= x < 0x40
    ensures Product(x, Back(Sbox(x))) == 0x01
  {
    match x
    case 0x30 => assert Sbox(0x30) == 0x04; case 0x31 => assert Sbox(0x31) == 0xc7; case 0x32 => assert Sbox(0x32) == 0x23; case 0x33 => assert Sbox(0x33) == 0xc3;
    case 0x34 => assert Sbox(0x34) == 0x18; case 0x35 => assert Sbox(0x35) == 0x96; case 0x36 => assert Sbox(0x36) == 0x05; case 0x37 => assert Sbox(0x37) == 0x9a;
    case 0x38 => assert Sbox(0x38) == 0x07; case 0x39 => assert Sbox(0x39) == 0x12; case 0x3a => assert Sbox(0x3a) == 0x80; case 0x3b => assert Sbox(0x3b) == 0xe2;
    case 0x3c => assert Sbox(0x3c) == 0xeb; case 0x3d => assert Sbox(0x3d) == 0x27; case 0x3e => assert Sbox(0x3e) == 0xb2; case _ => assert Sbox(0x3f) == 0x75;
  }

  lemma Row40(x: Byte)
    requires 0x40 <= x < 0x50
    ensures Product(x, Back(Sbox(x))) == 0x01
  {
    match x
    case 0x40 => assert Sbox(0x40) == 0x09; case 0x41 => assert Sbox(0x41) == 0x83; case 0x42 => assert Sbox(0x42) == 0x2c; case 0x43 => assert Sbox(0x43) == 0x1a;
    case 0x44 => assert Sbox(0x44) == 0x1b; case 0x45 => assert Sbox(0x45) == 0x6e; case 0x46 => assert Sbox(0x46) == 0x5a; case 0x47 => assert Sbox(0x47) == 0xa0;
    case 0x48 => assert Sbox(0x48) == 0x52; case 0x49 => assert Sbox(0x49) == 0x3b; case 0x4a => assert Sbox(0x4a) == 0xd6; case 0x4b => assert Sbox(0x4b) == 0xb3;
    case 0x4c => assert Sbox(0x4c) == 0x29; case 0x4d => assert Sbox(0x4d) == 0xe3; case 0x4e => assert Sbox(0x4e) == 0x2f; case _ => assert Sbox(0x4f) == 0x84;
  }

  lemma Row50(x: Byte)
    requires 0x50 <= x < 0x60
    ensures Product(x, Back(Sbox(x))) == 0x01
  {
    match x
    case 0x50 => assert Sbox(0x50) == 0x53; case 0x51 => assert Sbox(0x51) == 0xd1; case 0x52 => assert Sbox(0x52) == 0x00; case 0x53 => assert Sbox(0x53) == 0xed;
    case 0x54 => assert Sbox(0x54) == 0x20; case 0x55 => assert Sbox(0x55) == 0xfc; case 0x56 => assert Sbox(0x56) == 0xb1; case 0x57 => assert Sbox(0x57) == 0x5b;
    case 0x58 => assert Sbox(0x58) == 0x6a; case 0x59 => assert Sbox(0x59) == 0xcb; case 0x5a => assert Sbox(0x5a) == 0xbe; case 0x5b => assert Sbox(0x5b) == 0x39;
    case 0x5c => assert Sbox(0x5c) == 0x4a; case 0x5d => assert Sbox(0x5d) == 0x4c; case 0x5e => assert Sbox(0x5e) == 0x58; case _ => assert Sbox(0x5f) == 0xcf;
  }

  lemma Row60(x: Byte)
    requires 0x60 <= x < 0x70
    ensures Product(x, Back(Sbox(x))) == 0x01
  {
    match x
    case 0x60 => assert Sbox(0x60) == 0xd0; case 0x61 => assert Sbox(0x61) == 0xef; case 0x62 => assert Sbox(0x62) == 0xaa; case 0x63 => assert Sbox(0x63) == 0xfb;
    case 0x64 => assert Sbox(0x64) == 0x43; case 0x65 => assert Sbox(0x65) == 0x4d; case 0x66 => assert Sbox(0x66) == 0x33; case 0x67 => assert Sbox(0x67) == 0x85;
    case 0x68 => assert Sbox(0x68) == 0x45; case 0x69 => assert Sbox(0x69) == 0xf9; case 0x6a => assert Sbox(0x6a) == 0x02; case 0x6b => assert Sbox(0x6b) == 0x7f;
    case 0x6c => assert Sbox(0x6c) == 0x50; case 0x6d => assert Sbox(0x6d) == 0x3c; case 0x6e => assert Sbox(0x6e) == 0x9f; case _ => assert Sbox(0x6f) == 0xa8;
  }

  lemma Row70(x: Byte)
    requires 0x70 <= x < 0x80
    ensures Product(x, Back(Sbox(x))) == 0x01
  {
    match x
    case 0x70 => assert Sbox(0x70) == 0x51; case 0x71 => assert Sbox(0x71) == 0xa3; case 0x72 => assert Sbox(0x72) == 0x40; case 0x73 => assert Sbox(0x73) == 0x8f;
    case 0x74 => assert Sbox(0x74) == 0x92; case 0x75 => assert Sbox(0x75) == 0x9d; case 0x76 => assert Sbox(0x76) == 0x38; case 0x77 => assert Sbox(0x77) == 0xf5;
    case 0x78 => assert Sbox(0x78) == 0xbc; case 0x79 => assert Sbox(0x79) == 0xb6; case 0x7a => assert Sbox(0x7a) == 0xda; case 0x7b => assert Sbox(0x7b) == 0x21;
    case 0x7c => assert Sbox(0x7c) == 0x10; case 0x7d => assert Sbox(0x7d) == 0xff; case 0x7e => assert Sbox(0x7e) == 0xf3; case _ => assert Sbox(0x7f) == 0xd2;
  }

  lemma Row80(x: Byte)
    requires 0x80 <= x < 0x90
    ensures Product(x, Back(Sbox(x))) == 0x01
  {
    match x
    case 0x80 => assert Sbox(0x80) == 0xcd; case 0x81 => assert Sbox(0x81) == 0x0c; case 0x82 => assert Sbox(0x82) == 0x13; case 0x83 => assert Sbox(0x83) == 0xec;
    case 0x84 => assert Sbox(0x84) == 0x5f; case 0x85 => assert Sbox(0x85) == 0x97; case 0x86 => assert Sbox(0x86) == 0x44; case 0x87 => assert Sbox(0x87) == 0x17;
    case 0x88 => assert Sbox(0x88) == 0xc4; case 0x89 => assert Sbox(0x89) == 0xa7; case 0x8a => assert Sbox(0x8a) == 0x7e; case 0x8b => assert Sbox(0x8b) == 0x3d;
    case 0x8c => assert Sbox(0x8c) == 0x64; case 0x8d => assert Sbox(0x8d) == 0x5d; case 0x8e => assert Sbox(0x8e) == 0x19; case _ => assert Sbox(0x8f) == 0x73;
  }

  lemma Row90(x: Byte)
    requires 0x90 <= x < 0xa0
    ensures Product(x, Back(Sbox(x))) == 0x01
  {
    match x
    case 0x90 => assert Sbox(0x90) == 0x60; case 0x91 => assert Sbox(0x91) == 0x81; case 0x92 => assert Sbox(0x92) == 0x4f; case 0x93 => assert Sbox(0x93) == 0xdc;
    case 0x94 => assert Sbox(0x94) == 0x22; case 0x95 => assert Sbox(0x95) == 0x2a; case 0x96 => assert Sbox(0x96) == 0x90; case 0x97 => assert Sbox(0x97) == 0x88;
    case 0x98 => assert Sbox(0x98) == 0x46; case 0x99 => assert Sbox(0x99) == 0xee; case 0x9a => assert Sbox(0x9a) == 0xb8; case 0x9b => assert Sbox(0x9b) == 0x14;
    case 0x9c => assert Sbox(0x9c) == 0xde; case 0x9d => assert Sbox(0x9d) == 0x5e; case 0x9e => assert Sbox(0x9e) == 0x0b; case _ => assert Sbox(0x9f) == 0xdb;
  }

  lemma RowA0(x: Byte)
    requires 0xa0 <= x < 0xb0
    ensures Product(x, Back(Sbox(x))) == 0x01
  {
    match x
    case 0xa0 => assert Sbox(0xa0) == 0xe0; case 0xa1 => assert Sbox(0xa1) == 0x32; case 0xa2 => assert Sbox(0xa2) == 0x3a; case 0xa3 => assert Sbox(0xa3) == 0x0a;
    case 0xa4 => assert Sbox(0xa4) == 0x49; case 0xa5 => assert Sbox(0xa5) == 0x06; case 0xa6 => assert Sbox(0xa6) == 0x24; case 0xa7 => assert Sbox(0xa7) == 0x5c;
    case 0xa8 => assert Sbox(0xa8) == 0xc2; case 0xa9 => assert Sbox(0xa9) == 0xd3; case 0xaa => assert Sbox(0xaa) == 0xac; case 0xab => assert Sbox(0xab) == 0x62;
    case 0xac => assert Sbox(0xac) == 0x91; case 0xad => assert Sbox(0xad) == 0x95; case 0xae => assert Sbox(0xae) == 0xe4; case _ => assert Sbox(0xaf) == 0x79;
  }

  lemma RowB0(x: Byte)
    requires 0xb0 <= x < 0xc0
    ensures Product(x, Back(Sbox(x))) == 0x01
  {
    match x
    case 0xb0 => assert Sbox(0xb0) == 0xe7; case 0xb1 => assert Sbox(0xb1) == 0xc8; case 0xb2 => assert Sbox(0xb2) == 0x37; case 0xb3 => assert Sbox(0xb3) == 0x6d;
    case 0xb4 => assert Sbox(0xb4) == 0x8d; case 0xb5 => assert Sbox(0xb5) == 0xd5; case 0xb6 => assert Sbox(0xb6) == 0x4e; case 0xb7 => assert Sbox(0xb7) == 0xa9;
    case 0xb8 => assert Sbox(0xb8) == 0x6c; case 0xb9 => assert Sbox(0xb9) == 0x56; case 0xba => assert Sbox(0xba) == 0xf4; case 0xbb => assert Sbox(0xbb) == 0xea;
    case 0xbc => assert Sbox(0xbc) == 0x65; case 0xbd => assert Sbox(0xbd) == 0x7a; case 0xbe => assert Sbox(0xbe) == 0xae; case _ => assert Sbox(0xbf) == 0x08;
  }

  lemma RowC0(x: Byte)
    requires 0xc0 <= x < 0xd0
    ensures Product(x, Back(Sbox(x))) == 0x01
  {
    match x
    case 0xc0 => assert Sbox(0xc0) == 0xba; case 0xc1 => assert Sbox(0xc1) == 0x78; case 0xc2 => assert Sbox(0xc2) == 0x25; case 0xc3 => assert Sbox(0xc3) == 0x2e;
    case 0xc4 => assert Sbox(0xc4) == 0x1c; case 0xc5 => assert Sbox(0xc5) == 0xa6; case 0xc6 => assert Sbox(0xc6) == 0xb4; case 0xc7 => assert Sbox(0xc7) == 0xc6;
    case 0xc8 => assert Sbox(0xc8) == 0xe8; case 0xc9 => assert Sbox(0xc9) == 0xdd; case 0xca => assert Sbox(0xca) == 0x74; case 0xcb => assert Sbox(0xcb) == 0x1f;
    case 0xcc => assert Sbox(0xcc) == 0x4b; case 0xcd => assert Sbox(0xcd) == 0xbd; case 0xce => assert Sbox(0xce) == 0x8b; case _ => assert Sbox(0xcf) == 0x8a;
  }

  lemma RowD0(x: Byte)
    requires 0xd0 <= x < 0xe0
    ensures Product(x, Back(Sbox(x))) == 0x01
  {
    match x
    case 0xd0 => assert Sbox(0xd0) == 0x70; case 0xd1 => assert Sbox(0xd1) == 0x3e; case 0xd2 => assert Sbox(0xd2) == 0xb5; case 0xd3 => assert Sbox(0xd3) == 0x66;
    case 0xd4 => assert Sbox(0xd4) == 0x48; case 0xd5 => assert Sbox(0xd5) == 0x03; case 0xd6 => assert Sbox(0xd6) == 0xf6; case 0xd7 => assert Sbox(0xd7) == 0x0e;
    case 0xd8 => assert Sbox(0xd8) == 0x61; case 0xd9 => assert Sbox(0xd9) == 0x35; case 0xda => assert Sbox(0xda) == 0x57; case 0xdb => assert Sbox(0xdb) == 0xb9;
    case 0xdc => assert Sbox(0xdc) == 0x86; case 0xdd => assert Sbox(0xdd) == 0xc1; case 0xde => assert Sbox(0xde) == 0x1d; case _ => assert Sbox(0xdf) == 0x9e;
  }

  lemma RowE0(x: Byte)
    requires 0xe0 <= x < 0xf0
    ensures Product(x, Back(Sbox(x))) == 0x01
  {
    match x
    case 0xe0 => assert Sbox(0xe0) == 0xe1; case 0xe1 => assert Sbox(0xe1) == 0xf8; case 0xe2 => assert Sbox(0xe2) == 0x98; case 0xe3 => assert Sbox(0xe3) == 0x11;
    case 0xe4 => assert Sbox(0xe4) == 0x69; case 0xe5 => assert Sbox(0xe5) == 0xd9; case 0xe6 => assert Sbox(0xe6) == 0x8e; case 0xe7 => assert Sbox(0xe7) == 0x94;
    case 0xe8 => assert Sbox(0xe8) == 0x9b; case 0xe9 => assert Sbox(0xe9) == 0x1e; case 0xea => assert Sbox(0xea) == 0x87; case 0xeb => assert Sbox(0xeb) == 0xe9;
    case 0xec => assert Sbox(0xec) == 0xce; case 0xed => assert Sbox(0xed) == 0x55; case 0xee => assert Sbox(0xee) == 0x28; case _ => assert Sbox(0xef) == 0xdf;
  }

  lemma RowF0(x: Byte)
    requires 0xf0 <= x
    ensures Product(x, Back(Sbox(x))) == 0x01
  {
    match x
    case 0xf0 => assert Sbox(0xf0) == 0x8c; case 0xf1 => assert Sbox(0xf1) == 0xa1; case 0xf2 => assert Sbox(0xf2) == 0x89; case 0xf3 => assert Sbox(0xf3) == 0x0d;
    case 0xf4 => assert Sbox(0xf4) == 0xbf; case 0xf5 => assert Sbox(0xf5) == 0xe6; case 0xf6 => assert Sbox(0xf6) == 0x42; case 0xf7 => assert Sbox(0xf7) == 0x68;
    case 0xf8 => assert Sbox(0xf8) == 0x41; case 0xf9 => assert Sbox(0xf9) == 0x99; case 0xfa => assert Sbox(0xfa) == 0x2d; case 0xfb => assert Sbox(0xfb) == 0x0f;
    case 0xfc => assert Sbox(0xfc) == 0xb0; case 0xfd => assert Sbox(0xfd) == 0x54; case 0xfe => assert Sbox(0xfe) == 0xbb; case _ => assert Sbox(0xff) == 0x16;
  }

  /** The table entry of every byte is the affine image of its inverse in the field, and that of zero the image of zero. */
  lemma SboxIsAffineInverse(x: Byte) returns (y: Byte)
    ensures Sbox(x) == Affine(y)
    ensures if x == 0 then y == 0 else Times(x, y) == 0x01 && forall z :: Times(x, z) == 0x01 ==> z == y
  {
    y := Back(Sbox(x));
    AffineBack(Sbox(x));
    if x == 0 {
      ZeroImage();
    } else {
      Inverses(x);
      ProductIs(x, y);
      hide Times, Sbox, Back, Affine, Product;
      forall z | Times(x, z) == 0x01 ensures z == y {
        OnlyInverse(x, y, z);
      }
    }
  }

  lemma ZeroImage()
    ensures Back(Sbox(0)) == 0
  {
    assert Sbox(0) == 0x63;
  }

  lemma Inverses(x: Byte)
    requires x != 0
    ensures Product(x, Back(Sbox(x))) == 0x01
  {
    hide Sbox, Back, Product;
    if x < 0x10 {
      Row00(x);
    } else if x < 0x20 {
      Row10(x);
    } else if x < 0x30 {
      Row20(x);
    } else if x < 0x40 {
      Row30(x);
    } else if x < 0x50 {
      Row40(x);
    } else if x < 0x60 {
      Row50(x);
    } else if x < 0x70 {
      Row60(x);
    } else if x < 0x80 {
      Row70(x);
    } else if x < 0x90 {
      Row80(x);
    } else if x < 0xa0 {
      Row90(x);
    } else if x < 0xb0 {
      RowA0(x);
    } else if x < 0xc0 {
      RowB0(x);
    } else if x < 0xd0 {
      RowC0(x);
    } else if x < 0xe0 {
      RowD0(x);
    } else if x < 0xf0 {
      RowE0(x);
    } else {
      RowF0(x);
    }
  }
}
