/**
 The example of FIPS 197: the key schedule of appendix A.1 and the encryption of appendix B.  It
 fixes the rotation and the constants of the schedule, the direction of the row shifts, the
 coefficients of the columns, and the number and order of the layers.
 */
module AesVector {
  import opened Wrappers
  import opened AesTables
  import opened AesField
  import opened AesMix
  import opened AesProduct
  import opened AesSpec

  // ---------- in terms of bytes, section 5.2 ----------

  /** Every fourth word: the word before it turned round and substituted, a power of two, and the word four places back. */
  lemma TurnedWord(key: Key, r: nat, j: nat)
    requires r >= 1 && j < 4
    ensures W(key, 4 * r)[j] ==
            Sum2(W(key, 4 * r - 4)[j], Sum2(Sbox(W(key, 4 * r - 1)[(j + 1) % 4]), if j == 0 then Power(r - 1) else 0))
  {
    hide Sum2, Sbox, Power, AddWords, SubRotWord;
    var last, back := W(key, 4 * r - 1), W(key, 4 * r - 4);
    assert W(key, 4 * r) == AddWords(back, SubRotWord(last, Power(r - 1)));
    hide W;
    TurnedBytes(back, last, Power(r - 1), j);
  }

  lemma TurnedBytes(back: KeyWord, last: KeyWord, rcon: Byte, j: nat)
    requires j < 4
    ensures AddWords(back, SubRotWord(last, rcon))[j] == Sum2(back[j], Sum2(Sbox(last[(j + 1) % 4]), if j == 0 then rcon else 0))
  {
    hide Sum2, Sbox;
    Zero(Sbox(last[(j + 1) % 4]));
  }

  /** The words between: the word before and the word four places back. */
  lemma PlainWord(key: Key, i: nat, j: nat)
    requires i >= 4 && i % 4 != 0 && j < 4
    ensures W(key, i)[j] == Sum2(W(key, i - 4)[j], W(key, i - 1)[j])
  {
    hide Sum2, Sbox, Power;
  }

  lemma FirstWords(key: Key, i: nat, j: nat)
    requires i < 4 && j < 4
    ensures W(key, i)[j] == key[4 * i + j]
  {
  }

  // ---------- in terms of bytes, sections 5.1.1 to 5.1.4 ----------

  /** Row x of the column that the row shift brings to column c. */
  function Cell(c: nat, x: nat): (j: nat)
    requires c < 4 && x < 4
    ensures j < 16
  {
    4 * (if c + x < 4 then c + x else c + x - 4) + x
  }

  lemma Shifted(s: State, c: nat, x: nat)
    requires c < 4 && x < 4
    ensures ShiftRows(SubBytes(s))[4 * c + x] == Sbox(s[Cell(c, x)])
  {
    CellIs(c, x);
    hide Sbox, ShiftIndex, Cell;
    var t := SubBytes(s);
    hide SubBytes;
    assert ShiftRows(t)[4 * c + x] == t[ShiftIndex(4 * c + x)];
    Substituted(s, Cell(c, x));
  }

  lemma Substituted(s: State, j: nat)
    requires j < 16
    ensures SubBytes(s)[j] == Sbox(s[j])
  {
    hide Sbox;
  }

  lemma CellIs(c: nat, x: nat)
    requires c < 4 && x < 4
    ensures ShiftIndex(4 * c + x) == Cell(c, x)
  {
    assert c == 0 || c == 1 || c == 2 || c == 3;
    assert x == 0 || x == 1 || x == 2 || x == 3;
  }

  /** One full round: twice row r, three times the next one and the other two, each substituted, and the round key. */
  lemma RoundByte(s: State, key: State, c: nat, r: nat)
    requires c < 4 && r < 4
    ensures AddRoundKey(MixColumns(ShiftRows(SubBytes(s))), key)[4 * c + r] ==
            Sum2(Sum4(Times(Sbox(s[Cell(c, r)]), 0x02), Times(Sbox(s[Cell(c, (r + 1) % 4)]), 0x03),
                      Sbox(s[Cell(c, (r + 2) % 4)]), Sbox(s[Cell(c, (r + 3) % 4)])),
                 key[4 * c + r])
  {
    hide Sum2, Sum4, Sbox, Times, ShiftRows, SubBytes, MixColumns, AddRoundKey, Cell;
    var u := ShiftRows(SubBytes(s));
    Shifted(s, c, r);
    Shifted(s, c, (r + 1) % 4);
    Shifted(s, c, (r + 2) % 4);
    Shifted(s, c, (r + 3) % 4);
    MixedByte(u, c, r);
    Keyed(MixColumns(u), key, 4 * c + r);
  }

  lemma MixedByte(u: State, c: nat, r: nat)
    requires c < 4 && r < 4
    ensures MixColumns(u)[4 * c + r] ==
            Sum4(Times(u[4 * c + r], 0x02), Times(u[4 * c + (r + 1) % 4], 0x03), u[4 * c + (r + 2) % 4], u[4 * c + (r + 3) % 4])
  {
    hide Sum4, Times, MixColumns, InvMixColumns, InvMixAt;
    ColumnByte(u, c, r);
    assert r == 0 || r == 1 || r == 2 || r == 3;
  }

  lemma Keyed(s: State, key: State, j: nat)
    requires j < 16
    ensures AddRoundKey(s, key)[j] == Sum2(s[j], key[j])
  {
    hide Sum2;
  }

  // ---------- the example ----------

  /** What a round makes of four substituted bytes and a byte of the round key, in raw bits. */
  function Fast(p: Byte, q: Byte, r: Byte, s: Byte, k: Byte): Byte {
    ((p << 1) ^ (if p & 0x80 != 0 then 0x1b else 0)) ^ ((q << 1) ^ (if q & 0x80 != 0 then 0x1b else 0)) ^ q ^ r ^ s ^ k
  }

  lemma Reordered(a: Byte, b: Byte, q: Byte, r: Byte, s: Byte, k: Byte, t: Byte, u: Byte)
    requires t == b ^ q && u == a ^ t ^ r ^ s
    ensures u ^ k == a ^ b ^ q ^ r ^ s ^ k
  {
  }

  lemma RawSum(a: Byte, b: Byte)
    ensures Sum2(a, b) == a ^ b
  {
  }

  lemma FastIs(p: Byte, q: Byte, r: Byte, s: Byte, k: Byte)
    ensures Fast(p, q, r, s, k) == Sum2(Sum4(Times(p, 0x02), Times(q, 0x03), r, s), k)
  {
    Times02(p);
    Times03(q);
    Double(p);
    Double(q);
    hide Times, Xtime, Sum2, Sum4;
    var a, b, t := Xtime(p), Xtime(q), Times(q, 0x03);
    Commutes(q, b);
    RawSum(b, q);
    FourSum(a, t, r, s);
    var u := Sum4(a, t, r, s);
    RawSum(u, k);
    Reordered(a, b, q, r, s, k, t, u);
  }

  /** One column of a round: `a` to `d` are the bytes on its diagonal. */
  predicate Column(a: Byte, b: Byte, c: Byte, d: Byte, k0: Byte, k1: Byte, k2: Byte, k3: Byte, t0: Byte, t1: Byte, t2: Byte, t3: Byte) {
    var p, q, r, s := Sbox(a), Sbox(b), Sbox(c), Sbox(d);
    t0 == Fast(p, q, r, s, k0) && t1 == Fast(q, r, s, p, k1) && t2 == Fast(r, s, p, q, k2) && t3 == Fast(s, p, q, r, k3)
  }

  lemma OneResult(a: Byte, b: Byte, c: Byte, d: Byte, k0: Byte, k1: Byte, k2: Byte, k3: Byte, t0: Byte, t1: Byte, t2: Byte, t3: Byte,
                  u0: Byte, u1: Byte, u2: Byte, u3: Byte)
    requires Column(a, b, c, d, k0, k1, k2, k3, t0, t1, t2, t3) && Column(a, b, c, d, k0, k1, k2, k3, u0, u1, u2, u3)
    ensures t0 == u0 && t1 == u1 && t2 == u2 && t3 == u3
  {
    hide Sbox, Fast;
  }

  function Round(s: State, k: State): State { AddRoundKey(MixColumns(ShiftRows(SubBytes(s))), k) }

  lemma RoundColumn(s: State, k: State, c: nat)
    requires c < 4
    ensures Column(s[Cell(c, 0)], s[Cell(c, 1)], s[Cell(c, 2)], s[Cell(c, 3)], k[4 * c], k[4 * c + 1], k[4 * c + 2], k[4 * c + 3],
                   Round(s, k)[4 * c], Round(s, k)[4 * c + 1], Round(s, k)[4 * c + 2], Round(s, k)[4 * c + 3])
  {
    hide Sbox, Fast, Cell, SubBytes, ShiftRows, MixColumns, AddRoundKey, Times, Sum4, Sum2;
    var p, q, r, t := Sbox(s[Cell(c, 0)]), Sbox(s[Cell(c, 1)]), Sbox(s[Cell(c, 2)]), Sbox(s[Cell(c, 3)]);
    RoundByte(s, k, c, 0);
    RoundByte(s, k, c, 1);
    RoundByte(s, k, c, 2);
    RoundByte(s, k, c, 3);
    FastIs(p, q, r, t, k[4 * c]);
    FastIs(q, r, t, p, k[4 * c + 1]);
    FastIs(r, t, p, q, k[4 * c + 2]);
    FastIs(t, p, q, r, k[4 * c + 3]);
  }

  /** Column c of a round, known in advance. */
  lemma ColumnGives(s: State, k: State, c: nat, a: Byte, b: Byte, d: Byte, e: Byte, t0: Byte, t1: Byte, t2: Byte, t3: Byte)
    requires c < 4 && a == s[Cell(c, 0)] && b == s[Cell(c, 1)] && d == s[Cell(c, 2)] && e == s[Cell(c, 3)]
    requires Column(a, b, d, e, k[4 * c], k[4 * c + 1], k[4 * c + 2], k[4 * c + 3], t0, t1, t2, t3)
    ensures Round(s, k)[4 * c] == t0 && Round(s, k)[4 * c + 1] == t1 && Round(s, k)[4 * c + 2] == t2 && Round(s, k)[4 * c + 3] == t3
  {
    hide Column, Round, Cell;
    RoundColumn(s, k, c);
    var u := Round(s, k);
    OneResult(a, b, d, e, k[4 * c], k[4 * c + 1], k[4 * c + 2], k[4 * c + 3], t0, t1, t2, t3, u[4 * c], u[4 * c + 1], u[4 * c + 2], u[4 * c + 3]);
  }

  /** The bytes of a block, one by one. */
  predicate Spelled(s: State, b0: Byte, b1: Byte, b2: Byte, b3: Byte, b4: Byte, b5: Byte, b6: Byte, b7: Byte, b8: Byte, b9: Byte, b10: Byte, b11: Byte, b12: Byte, b13: Byte, b14: Byte, b15: Byte) {
    && s[0] == b0 && s[1] == b1 && s[2] == b2 && s[3] == b3 && s[4] == b4 && s[5] == b5 && s[6] == b6 && s[7] == b7
    && s[8] == b8 && s[9] == b9 && s[10] == b10 && s[11] == b11 && s[12] == b12 && s[13] == b13 && s[14] == b14 && s[15] == b15
  }

  lemma LastByte(s: State, k: State, c: nat, r: nat)
    requires c < 4 && r < 4
    ensures AddRoundKey(ShiftRows(SubBytes(s)), k)[4 * c + r] == Sum2(Sbox(s[Cell(c, r)]), k[4 * c + r])
  {
    hide Sum2, Sbox, ShiftRows, SubBytes, AddRoundKey, Cell;
    Shifted(s, c, r);
    Keyed(ShiftRows(SubBytes(s)), k, 4 * c + r);
  }

  /** The bytes of a word of the schedule: with and without the substitution. */
  predicate Turned(k0: Byte, k1: Byte, k2: Byte, k3: Byte, l0: Byte, l1: Byte, l2: Byte, l3: Byte, rcon: Byte,
                   t0: Byte, t1: Byte, t2: Byte, t3: Byte) {
    t0 == k0 ^ Sbox(l1) ^ rcon && t1 == k1 ^ Sbox(l2) && t2 == k2 ^ Sbox(l3) && t3 == k3 ^ Sbox(l0)
  }

  predicate Added(k0: Byte, k1: Byte, k2: Byte, k3: Byte, l0: Byte, l1: Byte, l2: Byte, l3: Byte, t0: Byte, t1: Byte, t2: Byte, t3: Byte) {
    t0 == k0 ^ l0 && t1 == k1 ^ l1 && t2 == k2 ^ l2 && t3 == k3 ^ l3
  }

  lemma RawTurn(k: Byte, l: Byte, rcon: Byte)
    ensures Sum2(k, Sum2(l, rcon)) == k ^ l ^ rcon && Sum2(k, Sum2(l, 0)) == k ^ l
  {
  }

  lemma RoundKeyByte(key: Key, r: nat, c: nat, j: nat)
    requires c < 4 && j < 4
    ensures RoundKey(key, r)[4 * c + j] == W(key, 4 * r + c)[j]
  {
    hide W;
    assert c == 0 || c == 1 || c == 2 || c == 3;
  }

  lemma TurnedGives(key: Key, r: nat, rcon: Byte, t0: Byte, t1: Byte, t2: Byte, t3: Byte)
    requires r >= 1 && Power(r - 1) == rcon
    requires var k := RoundKey(key, r - 1);
      Turned(k[0], k[1], k[2], k[3], k[12], k[13], k[14], k[15], rcon, t0, t1, t2, t3)
    ensures var u := RoundKey(key, r); u[0] == t0 && u[1] == t1 && u[2] == t2 && u[3] == t3
  {
    hide W, Sbox, Power, RoundKey, Sum2;
    var k := RoundKey(key, r - 1);
    forall j | 0 <= j < 4
      ensures RoundKey(key, r)[j] == Sum2(k[j], Sum2(Sbox(k[12 + (j + 1) % 4]), if j == 0 then rcon else 0))
    {
      TurnedWord(key, r, j);
      RoundKeyByte(key, r, 0, j);
      RoundKeyByte(key, r - 1, 0, j);
      RoundKeyByte(key, r - 1, 3, (j + 1) % 4);
    }
    RawTurn(k[0], Sbox(k[13]), rcon);
    RawTurn(k[1], Sbox(k[14]), 0);
    RawTurn(k[2], Sbox(k[15]), 0);
    RawTurn(k[3], Sbox(k[12]), 0);
  }

  lemma AddedByte(key: Key, r: nat, i: nat)
    requires r >= 1 && 4 <= i < 16
    ensures RoundKey(key, r)[i] == Sum2(RoundKey(key, r - 1)[i], RoundKey(key, r)[i - 4])
  {
    hide W, RoundKey, Sum2;
    var c, j := i / 4, i % 4;
    PlainWord(key, 4 * r + c, j);
    RoundKeyByte(key, r, c, j);
    RoundKeyByte(key, r - 1, c, j);
    RoundKeyByte(key, r, c - 1, j);
  }

  lemma AddedGives(key: Key, r: nat, c: nat, t0: Byte, t1: Byte, t2: Byte, t3: Byte)
    requires r >= 1 && 1 <= c < 4
    requires var k, u := RoundKey(key, r - 1), RoundKey(key, r);
      Added(k[4 * c], k[4 * c + 1], k[4 * c + 2], k[4 * c + 3], u[4 * c - 4], u[4 * c - 3], u[4 * c - 2], u[4 * c - 1], t0, t1, t2, t3)
    ensures var u := RoundKey(key, r); u[4 * c] == t0 && u[4 * c + 1] == t1 && u[4 * c + 2] == t2 && u[4 * c + 3] == t3
  {
    hide W, RoundKey, Sum2;
    var k, u := RoundKey(key, r - 1), RoundKey(key, r);
    AddedByte(key, r, 4 * c);
    AddedByte(key, r, 4 * c + 1);
    AddedByte(key, r, 4 * c + 2);
    AddedByte(key, r, 4 * c + 3);
    RawSum(k[4 * c], u[4 * c - 4]);
    RawSum(k[4 * c + 1], u[4 * c - 3]);
    RawSum(k[4 * c + 2], u[4 * c - 2]);
    RawSum(k[4 * c + 3], u[4 * c - 1]);
  }

  lemma Columns1Left()
    ensures Column(0x19, 0xf4, 0x8d, 0x08, 0xa0, 0xfa, 0xfe, 0x17, 0xa4, 0x9c, 0x7f, 0xf2)
    ensures Column(0xa0, 0xc6, 0x48, 0xbe, 0x88, 0x54, 0x2c, 0xb1, 0x68, 0x9f, 0x35, 0x2b)
  {
  }

  lemma Columns1Right()
    ensures Column(0x9a, 0xf8, 0xe3, 0x2b, 0x23, 0xa3, 0x39, 0x39, 0x6b, 0x5b, 0xea, 0x43)
    ensures Column(0xe9, 0x3d, 0xe2, 0x2a, 0x2a, 0x6c, 0x76, 0x05, 0x02, 0x6a, 0x50, 0x49)
  {
  }

  lemma Columns2Left()
    ensures Column(0xa4, 0x9f, 0xea, 0x49, 0xf2, 0xc2, 0x95, 0xf2, 0xaa, 0x8f, 0x5f, 0x03)
    ensures Column(0x68, 0x5b, 0x50, 0xf2, 0x7a, 0x96, 0xb9, 0x43, 0x61, 0xdd, 0xe3, 0xef)
  {
  }

  lemma Columns2Right()
    ensures Column(0x6b, 0x6a, 0x7f, 0x2b, 0x59, 0x35, 0x80, 0x7a, 0x82, 0xd2, 0x4a, 0xd2)
    ensures Column(0x02, 0x9c, 0x35, 0x43, 0x73, 0x59, 0xf6, 0x7f, 0x68, 0x32, 0x46, 0x9a)
  {
  }

  lemma Columns3Left()
    ensures Column(0xaa, 0xdd, 0x4a, 0x9a, 0x3d, 0x80, 0x47, 0x7d, 0x48, 0x6c, 0x4e, 0xee)
    ensures Column(0x61, 0xd2, 0x46, 0x03, 0x47, 0x16, 0xfe, 0x3e, 0x67, 0x1d, 0x9d, 0x0d)
  {
  }

  lemma Columns3Right()
    ensures Column(0x82, 0x32, 0x5f, 0xef, 0x1e, 0x23, 0x7e, 0x44, 0x4d, 0xe3, 0xb1, 0x38)
    ensures Column(0x68, 0x8f, 0xe3, 0xd2, 0x6d, 0x7a, 0x88, 0x3b, 0xd6, 0x5f, 0x58, 0xe7)
  {
  }

  lemma Columns4Left()
    ensures Column(0x48, 0x1d, 0xb1, 0xe7, 0xef, 0x44, 0xa5, 0x41, 0xe0, 0x92, 0x7f, 0xe8)
    ensures Column(0x67, 0xe3, 0x58, 0xee, 0xa8, 0x52, 0x5b, 0x7f, 0xc8, 0x63, 0x63, 0xc0)
  {
  }

  lemma Columns4Right()
    ensures Column(0x4d, 0x5f, 0x4e, 0x0d, 0xb6, 0x71, 0x25, 0x3b, 0xd9, 0xb1, 0x35, 0x50)
    ensures Column(0xd6, 0x6c, 0x9d, 0x38, 0xdb, 0x0b, 0xad, 0x00, 0x85, 0xb8, 0xbe, 0x01)
  {
  }

  lemma Columns5Left()
    ensures Column(0xe0, 0x63, 0x35, 0x01, 0xd4, 0xd1, 0xc6, 0xf8, 0xf1, 0x00, 0x6f, 0x55)
    ensures Column(0xc8, 0xb1, 0xbe, 0xe8, 0x7c, 0x83, 0x9d, 0x87, 0xc1, 0x92, 0x4c, 0xef)
  {
  }

  lemma Columns5Right()
    ensures Column(0xd9, 0xb8, 0x7f, 0xc0, 0xca, 0xf2, 0xb8, 0xbc, 0x7c, 0xc8, 0x8b, 0x32)
    ensures Column(0x85, 0x92, 0x63, 0x50, 0x11, 0xf9, 0x15, 0xbc, 0x5d, 0xb5, 0xd5, 0x0c)
  {
  }

  lemma Columns6Left()
    ensures Column(0xf1, 0x92, 0x8b, 0x0c, 0x6d, 0x88, 0xa3, 0x7a, 0x26, 0x0e, 0x2e, 0x17)
    ensures Column(0xc1, 0xc8, 0xd5, 0x55, 0x11, 0x0b, 0x3e, 0xfd, 0x3d, 0x41, 0xb7, 0x7d)
  {
  }

  lemma Columns6Right()
    ensures Column(0x7c, 0xb5, 0x6f, 0xef, 0xdb, 0xf9, 0x86, 0x41, 0xe8, 0x64, 0x72, 0xa9)
    ensures Column(0x5d, 0x00, 0x4c, 0x32, 0xca, 0x00, 0x93, 0xfd, 0xfd, 0xd2, 0x8b, 0x25)
  {
  }

  lemma Columns7Left()
    ensures Column(0x26, 0x41, 0x72, 0x25, 0x4e, 0x54, 0xf7, 0x0e, 0x5a, 0x41, 0x42, 0xb1)
    ensures Column(0x3d, 0x64, 0x8b, 0x17, 0x5f, 0x5f, 0xc9, 0xf3, 0x19, 0x49, 0xdc, 0x1f)
  {
  }

  lemma Columns7Right()
    ensures Column(0xe8, 0xd2, 0x2e, 0x7d, 0x84, 0xa6, 0x4f, 0xb2, 0xa3, 0xe0, 0x19, 0x65)
    ensures Column(0xfd, 0x0e, 0xb7, 0xa9, 0x4e, 0xa6, 0xdc, 0x4f, 0x7a, 0x8c, 0x04, 0x0c)
  {
  }

  lemma Columns8Left()
    ensures Column(0x5a, 0x49, 0x19, 0x0c, 0xea, 0xd2, 0x73, 0x21, 0xea, 0x83, 0x5c, 0xf0)
    ensures Column(0x19, 0xe0, 0x04, 0xb1, 0xb5, 0x8d, 0xba, 0xd2, 0x04, 0x45, 0x33, 0x2d)
  {
  }

  lemma Columns8Right()
    ensures Column(0xa3, 0x8c, 0x42, 0x1f, 0x31, 0x2b, 0xf5, 0x60, 0x65, 0x5d, 0x98, 0xad)
    ensures Column(0x7a, 0x41, 0xdc, 0x65, 0x7f, 0x8d, 0x29, 0x2f, 0x85, 0x96, 0xb0, 0xc5)
  {
  }

  lemma Columns9Left()
    ensures Column(0xea, 0x45, 0x98, 0xc5, 0xac, 0x77, 0x66, 0xf3, 0xeb, 0x40, 0xf2, 0x1e)
    ensures Column(0x04, 0x5d, 0xb0, 0xf0, 0x19, 0xfa, 0xdc, 0x21, 0x59, 0x2e, 0x38, 0x84)
  {
  }

  lemma Columns9Right()
    ensures Column(0x65, 0x96, 0x5c, 0x2d, 0x28, 0xd1, 0x29, 0x41, 0x8b, 0xa1, 0x13, 0xe7)
    ensures Column(0x85, 0x83, 0x33, 0xad, 0x57, 0x5c, 0x00, 0x6e, 0x1b, 0xc3, 0x42, 0xd2)
  {
  }

  /** Rounds 1 to 3. */
  lemma Rounds1(s: State, k: State, l: State, m: State)
    requires Spelled(s, 0x19, 0x3d, 0xe3, 0xbe, 0xa0, 0xf4, 0xe2, 0x2b, 0x9a, 0xc6, 0x8d, 0x2a, 0xe9, 0xf8, 0x48, 0x08)
    requires Spelled(k, 0xa0, 0xfa, 0xfe, 0x17, 0x88, 0x54, 0x2c, 0xb1, 0x23, 0xa3, 0x39, 0x39, 0x2a, 0x6c, 0x76, 0x05)
    requires Spelled(l, 0xf2, 0xc2, 0x95, 0xf2, 0x7a, 0x96, 0xb9, 0x43, 0x59, 0x35, 0x80, 0x7a, 0x73, 0x59, 0xf6, 0x7f)
    requires Spelled(m, 0x3d, 0x80, 0x47, 0x7d, 0x47, 0x16, 0xfe, 0x3e, 0x1e, 0x23, 0x7e, 0x44, 0x6d, 0x7a, 0x88, 0x3b)
    ensures Spelled(Round(Round(Round(s, k), l), m), 0x48, 0x6c, 0x4e, 0xee, 0x67, 0x1d, 0x9d, 0x0d, 0x4d, 0xe3, 0xb1, 0x38, 0xd6, 0x5f, 0x58, 0xe7)
  {
    hide Column, Round, Sbox, Fast;
    Columns1Left();
    Columns1Right();
    ColumnGives(s, k, 0, 0x19, 0xf4, 0x8d, 0x08, 0xa4, 0x9c, 0x7f, 0xf2);
    ColumnGives(s, k, 1, 0xa0, 0xc6, 0x48, 0xbe, 0x68, 0x9f, 0x35, 0x2b);
    ColumnGives(s, k, 2, 0x9a, 0xf8, 0xe3, 0x2b, 0x6b, 0x5b, 0xea, 0x43);
    ColumnGives(s, k, 3, 0xe9, 0x3d, 0xe2, 0x2a, 0x02, 0x6a, 0x50, 0x49);
    var t := Round(s, k);
    Columns2Left();
    Columns2Right();
    ColumnGives(t, l, 0, 0xa4, 0x9f, 0xea, 0x49, 0xaa, 0x8f, 0x5f, 0x03);
    ColumnGives(t, l, 1, 0x68, 0x5b, 0x50, 0xf2, 0x61, 0xdd, 0xe3, 0xef);
    ColumnGives(t, l, 2, 0x6b, 0x6a, 0x7f, 0x2b, 0x82, 0xd2, 0x4a, 0xd2);
    ColumnGives(t, l, 3, 0x02, 0x9c, 0x35, 0x43, 0x68, 0x32, 0x46, 0x9a);
    var u := Round(t, l);
    Columns3Left();
    Columns3Right();
    ColumnGives(u, m, 0, 0xaa, 0xdd, 0x4a, 0x9a, 0x48, 0x6c, 0x4e, 0xee);
    ColumnGives(u, m, 1, 0x61, 0xd2, 0x46, 0x03, 0x67, 0x1d, 0x9d, 0x0d);
    ColumnGives(u, m, 2, 0x82, 0x32, 0x5f, 0xef, 0x4d, 0xe3, 0xb1, 0x38);
    ColumnGives(u, m, 3, 0x68, 0x8f, 0xe3, 0xd2, 0xd6, 0x5f, 0x58, 0xe7);
  }

  /** Rounds 4 to 6. */
  lemma Rounds4(s: State, k: State, l: State, m: State)
    requires Spelled(s, 0x48, 0x6c, 0x4e, 0xee, 0x67, 0x1d, 0x9d, 0x0d, 0x4d, 0xe3, 0xb1, 0x38, 0xd6, 0x5f, 0x58, 0xe7)
    requires Spelled(k, 0xef, 0x44, 0xa5, 0x41, 0xa8, 0x52, 0x5b, 0x7f, 0xb6, 0x71, 0x25, 0x3b, 0xdb, 0x0b, 0xad, 0x00)
    requires Spelled(l, 0xd4, 0xd1, 0xc6, 0xf8, 0x7c, 0x83, 0x9d, 0x87, 0xca, 0xf2, 0xb8, 0xbc, 0x11, 0xf9, 0x15, 0xbc)
    requires Spelled(m, 0x6d, 0x88, 0xa3, 0x7a, 0x11, 0x0b, 0x3e, 0xfd, 0xdb, 0xf9, 0x86, 0x41, 0xca, 0x00, 0x93, 0xfd)
    ensures Spelled(Round(Round(Round(s, k), l), m), 0x26, 0x0e, 0x2e, 0x17, 0x3d, 0x41, 0xb7, 0x7d, 0xe8, 0x64, 0x72, 0xa9, 0xfd, 0xd2, 0x8b, 0x25)
  {
    hide Column, Round, Sbox, Fast;
    Columns4Left();
    Columns4Right();
    ColumnGives(s, k, 0, 0x48, 0x1d, 0xb1, 0xe7, 0xe0, 0x92, 0x7f, 0xe8);
    ColumnGives(s, k, 1, 0x67, 0xe3, 0x58, 0xee, 0xc8, 0x63, 0x63, 0xc0);
    ColumnGives(s, k, 2, 0x4d, 0x5f, 0x4e, 0x0d, 0xd9, 0xb1, 0x35, 0x50);
    ColumnGives(s, k, 3, 0xd6, 0x6c, 0x9d, 0x38, 0x85, 0xb8, 0xbe, 0x01);
    var t := Round(s, k);
    Columns5Left();
    Columns5Right();
    ColumnGives(t, l, 0, 0xe0, 0x63, 0x35, 0x01, 0xf1, 0x00, 0x6f, 0x55);
    ColumnGives(t, l, 1, 0xc8, 0xb1, 0xbe, 0xe8, 0xc1, 0x92, 0x4c, 0xef);
    ColumnGives(t, l, 2, 0xd9, 0xb8, 0x7f, 0xc0, 0x7c, 0xc8, 0x8b, 0x32);
    ColumnGives(t, l, 3, 0x85, 0x92, 0x63, 0x50, 0x5d, 0xb5, 0xd5, 0x0c);
    var u := Round(t, l);
    Columns6Left();
    Columns6Right();
    ColumnGives(u, m, 0, 0xf1, 0x92, 0x8b, 0x0c, 0x26, 0x0e, 0x2e, 0x17);
    ColumnGives(u, m, 1, 0xc1, 0xc8, 0xd5, 0x55, 0x3d, 0x41, 0xb7, 0x7d);
    ColumnGives(u, m, 2, 0x7c, 0xb5, 0x6f, 0xef, 0xe8, 0x64, 0x72, 0xa9);
    ColumnGives(u, m, 3, 0x5d, 0x00, 0x4c, 0x32, 0xfd, 0xd2, 0x8b, 0x25);
  }

  /** Rounds 7 to 9. */
  lemma Rounds7(s: State, k: State, l: State, m: State)
    requires Spelled(s, 0x26, 0x0e, 0x2e, 0x17, 0x3d, 0x41, 0xb7, 0x7d, 0xe8, 0x64, 0x72, 0xa9, 0xfd, 0xd2, 0x8b, 0x25)
    requires Spelled(k, 0x4e, 0x54, 0xf7, 0x0e, 0x5f, 0x5f, 0xc9, 0xf3, 0x84, 0xa6, 0x4f, 0xb2, 0x4e, 0xa6, 0xdc, 0x4f)
    requires Spelled(l, 0xea, 0xd2, 0x73, 0x21, 0xb5, 0x8d, 0xba, 0xd2, 0x31, 0x2b, 0xf5, 0x60, 0x7f, 0x8d, 0x29, 0x2f)
    requires Spelled(m, 0xac, 0x77, 0x66, 0xf3, 0x19, 0xfa, 0xdc, 0x21, 0x28, 0xd1, 0x29, 0x41, 0x57, 0x5c, 0x00, 0x6e)
    ensures Spelled(Round(Round(Round(s, k), l), m), 0xeb, 0x40, 0xf2, 0x1e, 0x59, 0x2e, 0x38, 0x84, 0x8b, 0xa1, 0x13, 0xe7, 0x1b, 0xc3, 0x42, 0xd2)
  {
    hide Column, Round, Sbox, Fast;
    Columns7Left();
    Columns7Right();
    ColumnGives(s, k, 0, 0x26, 0x41, 0x72, 0x25, 0x5a, 0x41, 0x42, 0xb1);
    ColumnGives(s, k, 1, 0x3d, 0x64, 0x8b, 0x17, 0x19, 0x49, 0xdc, 0x1f);
    ColumnGives(s, k, 2, 0xe8, 0xd2, 0x2e, 0x7d, 0xa3, 0xe0, 0x19, 0x65);
    ColumnGives(s, k, 3, 0xfd, 0x0e, 0xb7, 0xa9, 0x7a, 0x8c, 0x04, 0x0c);
    var t := Round(s, k);
    Columns8Left();
    Columns8Right();
    ColumnGives(t, l, 0, 0x5a, 0x49, 0x19, 0x0c, 0xea, 0x83, 0x5c, 0xf0);
    ColumnGives(t, l, 1, 0x19, 0xe0, 0x04, 0xb1, 0x04, 0x45, 0x33, 0x2d);
    ColumnGives(t, l, 2, 0xa3, 0x8c, 0x42, 0x1f, 0x65, 0x5d, 0x98, 0xad);
    ColumnGives(t, l, 3, 0x7a, 0x41, 0xdc, 0x65, 0x85, 0x96, 0xb0, 0xc5);
    var u := Round(t, l);
    Columns9Left();
    Columns9Right();
    ColumnGives(u, m, 0, 0xea, 0x45, 0x98, 0xc5, 0xeb, 0x40, 0xf2, 0x1e);
    ColumnGives(u, m, 1, 0x04, 0x5d, 0xb0, 0xf0, 0x59, 0x2e, 0x38, 0x84);
    ColumnGives(u, m, 2, 0x65, 0x96, 0x5c, 0x2d, 0x8b, 0xa1, 0x13, 0xe7);
    ColumnGives(u, m, 3, 0x85, 0x83, 0x33, 0xad, 0x1b, 0xc3, 0x42, 0xd2);
  }

  lemma Schedule1()
    ensures Turned(0x2b, 0x7e, 0x15, 0x16, 0x09, 0xcf, 0x4f, 0x3c, 0x01, 0xa0, 0xfa, 0xfe, 0x17)
    ensures Added(0x28, 0xae, 0xd2, 0xa6, 0xa0, 0xfa, 0xfe, 0x17, 0x88, 0x54, 0x2c, 0xb1)
    ensures Added(0xab, 0xf7, 0x15, 0x88, 0x88, 0x54, 0x2c, 0xb1, 0x23, 0xa3, 0x39, 0x39)
    ensures Added(0x09, 0xcf, 0x4f, 0x3c, 0x23, 0xa3, 0x39, 0x39, 0x2a, 0x6c, 0x76, 0x05)
  {
  }

  lemma Schedule2()
    ensures Turned(0xa0, 0xfa, 0xfe, 0x17, 0x2a, 0x6c, 0x76, 0x05, 0x02, 0xf2, 0xc2, 0x95, 0xf2)
    ensures Added(0x88, 0x54, 0x2c, 0xb1, 0xf2, 0xc2, 0x95, 0xf2, 0x7a, 0x96, 0xb9, 0x43)
    ensures Added(0x23, 0xa3, 0x39, 0x39, 0x7a, 0x96, 0xb9, 0x43, 0x59, 0x35, 0x80, 0x7a)
    ensures Added(0x2a, 0x6c, 0x76, 0x05, 0x59, 0x35, 0x80, 0x7a, 0x73, 0x59, 0xf6, 0x7f)
  {
  }

  lemma Schedule3()
    ensures Turned(0xf2, 0xc2, 0x95, 0xf2, 0x73, 0x59, 0xf6, 0x7f, 0x04, 0x3d, 0x80, 0x47, 0x7d)
    ensures Added(0x7a, 0x96, 0xb9, 0x43, 0x3d, 0x80, 0x47, 0x7d, 0x47, 0x16, 0xfe, 0x3e)
    ensures Added(0x59, 0x35, 0x80, 0x7a, 0x47, 0x16, 0xfe, 0x3e, 0x1e, 0x23, 0x7e, 0x44)
    ensures Added(0x73, 0x59, 0xf6, 0x7f, 0x1e, 0x23, 0x7e, 0x44, 0x6d, 0x7a, 0x88, 0x3b)
  {
  }

  lemma Schedule4()
    ensures Turned(0x3d, 0x80, 0x47, 0x7d, 0x6d, 0x7a, 0x88, 0x3b, 0x08, 0xef, 0x44, 0xa5, 0x41)
    ensures Added(0x47, 0x16, 0xfe, 0x3e, 0xef, 0x44, 0xa5, 0x41, 0xa8, 0x52, 0x5b, 0x7f)
    ensures Added(0x1e, 0x23, 0x7e, 0x44, 0xa8, 0x52, 0x5b, 0x7f, 0xb6, 0x71, 0x25, 0x3b)
    ensures Added(0x6d, 0x7a, 0x88, 0x3b, 0xb6, 0x71, 0x25, 0x3b, 0xdb, 0x0b, 0xad, 0x00)
  {
  }

  lemma Schedule5()
    ensures Turned(0xef, 0x44, 0xa5, 0x41, 0xdb, 0x0b, 0xad, 0x00, 0x10, 0xd4, 0xd1, 0xc6, 0xf8)
    ensures Added(0xa8, 0x52, 0x5b, 0x7f, 0xd4, 0xd1, 0xc6, 0xf8, 0x7c, 0x83, 0x9d, 0x87)
    ensures Added(0xb6, 0x71, 0x25, 0x3b, 0x7c, 0x83, 0x9d, 0x87, 0xca, 0xf2, 0xb8, 0xbc)
    ensures Added(0xdb, 0x0b, 0xad, 0x00, 0xca, 0xf2, 0xb8, 0xbc, 0x11, 0xf9, 0x15, 0xbc)
  {
  }

  lemma Schedule6()
    ensures Turned(0xd4, 0xd1, 0xc6, 0xf8, 0x11, 0xf9, 0x15, 0xbc, 0x20, 0x6d, 0x88, 0xa3, 0x7a)
    ensures Added(0x7c, 0x83, 0x9d, 0x87, 0x6d, 0x88, 0xa3, 0x7a, 0x11, 0x0b, 0x3e, 0xfd)
    ensures Added(0xca, 0xf2, 0xb8, 0xbc, 0x11, 0x0b, 0x3e, 0xfd, 0xdb, 0xf9, 0x86, 0x41)
    ensures Added(0x11, 0xf9, 0x15, 0xbc, 0xdb, 0xf9, 0x86, 0x41, 0xca, 0x00, 0x93, 0xfd)
  {
  }

  lemma Schedule7()
    ensures Turned(0x6d, 0x88, 0xa3, 0x7a, 0xca, 0x00, 0x93, 0xfd, 0x40, 0x4e, 0x54, 0xf7, 0x0e)
    ensures Added(0x11, 0x0b, 0x3e, 0xfd, 0x4e, 0x54, 0xf7, 0x0e, 0x5f, 0x5f, 0xc9, 0xf3)
    ensures Added(0xdb, 0xf9, 0x86, 0x41, 0x5f, 0x5f, 0xc9, 0xf3, 0x84, 0xa6, 0x4f, 0xb2)
    ensures Added(0xca, 0x00, 0x93, 0xfd, 0x84, 0xa6, 0x4f, 0xb2, 0x4e, 0xa6, 0xdc, 0x4f)
  {
  }

  lemma Schedule8()
    ensures Turned(0x4e, 0x54, 0xf7, 0x0e, 0x4e, 0xa6, 0xdc, 0x4f, 0x80, 0xea, 0xd2, 0x73, 0x21)
    ensures Added(0x5f, 0x5f, 0xc9, 0xf3, 0xea, 0xd2, 0x73, 0x21, 0xb5, 0x8d, 0xba, 0xd2)
    ensures Added(0x84, 0xa6, 0x4f, 0xb2, 0xb5, 0x8d, 0xba, 0xd2, 0x31, 0x2b, 0xf5, 0x60)
    ensures Added(0x4e, 0xa6, 0xdc, 0x4f, 0x31, 0x2b, 0xf5, 0x60, 0x7f, 0x8d, 0x29, 0x2f)
  {
  }

  lemma Schedule9()
    ensures Turned(0xea, 0xd2, 0x73, 0x21, 0x7f, 0x8d, 0x29, 0x2f, 0x1b, 0xac, 0x77, 0x66, 0xf3)
    ensures Added(0xb5, 0x8d, 0xba, 0xd2, 0xac, 0x77, 0x66, 0xf3, 0x19, 0xfa, 0xdc, 0x21)
    ensures Added(0x31, 0x2b, 0xf5, 0x60, 0x19, 0xfa, 0xdc, 0x21, 0x28, 0xd1, 0x29, 0x41)
    ensures Added(0x7f, 0x8d, 0x29, 0x2f, 0x28, 0xd1, 0x29, 0x41, 0x57, 0x5c, 0x00, 0x6e)
  {
  }

  lemma Schedule10()
    ensures Turned(0xac, 0x77, 0x66, 0xf3, 0x57, 0x5c, 0x00, 0x6e, 0x36, 0xd0, 0x14, 0xf9, 0xa8)
    ensures Added(0x19, 0xfa, 0xdc, 0x21, 0xd0, 0x14, 0xf9, 0xa8, 0xc9, 0xee, 0x25, 0x89)
    ensures Added(0x28, 0xd1, 0x29, 0x41, 0xc9, 0xee, 0x25, 0x89, 0xe1, 0x3f, 0x0c, 0xc8)
    ensures Added(0x57, 0x5c, 0x00, 0x6e, 0xe1, 0x3f, 0x0c, 0xc8, 0xb6, 0x63, 0x0c, 0xa6)
  {
  }

  lemma Powers()
    ensures Power(0) == 0x01 && Power(1) == 0x02 && Power(2) == 0x04 && Power(3) == 0x08 && Power(4) == 0x10
    ensures Power(5) == 0x20 && Power(6) == 0x40 && Power(7) == 0x80 && Power(8) == 0x1b && Power(9) == 0x36
  {
    hide Xtime;
    Doubles();
  }

  lemma Doubles()
    ensures Xtime(0x01) == 0x02 && Xtime(0x02) == 0x04 && Xtime(0x04) == 0x08 && Xtime(0x08) == 0x10 && Xtime(0x10) == 0x20
    ensures Xtime(0x20) == 0x40 && Xtime(0x40) == 0x80 && Xtime(0x80) == 0x1b && Xtime(0x1b) == 0x36
  {
  }

  lemma KeyItself(key: Key)
    ensures RoundKey(key, 0) == key
  {
  }

  lemma Keys1(key: Key)
    requires Spelled(RoundKey(key, 0), 0x2b, 0x7e, 0x15, 0x16, 0x28, 0xae, 0xd2, 0xa6, 0xab, 0xf7, 0x15, 0x88, 0x09, 0xcf, 0x4f, 0x3c)
    ensures Spelled(RoundKey(key, 1), 0xa0, 0xfa, 0xfe, 0x17, 0x88, 0x54, 0x2c, 0xb1, 0x23, 0xa3, 0x39, 0x39, 0x2a, 0x6c, 0x76, 0x05)
    ensures Spelled(RoundKey(key, 2), 0xf2, 0xc2, 0x95, 0xf2, 0x7a, 0x96, 0xb9, 0x43, 0x59, 0x35, 0x80, 0x7a, 0x73, 0x59, 0xf6, 0x7f)
    ensures Spelled(RoundKey(key, 3), 0x3d, 0x80, 0x47, 0x7d, 0x47, 0x16, 0xfe, 0x3e, 0x1e, 0x23, 0x7e, 0x44, 0x6d, 0x7a, 0x88, 0x3b)
    ensures Spelled(RoundKey(key, 4), 0xef, 0x44, 0xa5, 0x41, 0xa8, 0x52, 0x5b, 0x7f, 0xb6, 0x71, 0x25, 0x3b, 0xdb, 0x0b, 0xad, 0x00)
    ensures Spelled(RoundKey(key, 5), 0xd4, 0xd1, 0xc6, 0xf8, 0x7c, 0x83, 0x9d, 0x87, 0xca, 0xf2, 0xb8, 0xbc, 0x11, 0xf9, 0x15, 0xbc)
  {
    hide RoundKey, Power, Turned, Added;
    Powers();
    Schedule1();
    TurnedGives(key, 1, 0x01, 0xa0, 0xfa, 0xfe, 0x17);
    AddedGives(key, 1, 1, 0x88, 0x54, 0x2c, 0xb1);
    AddedGives(key, 1, 2, 0x23, 0xa3, 0x39, 0x39);
    AddedGives(key, 1, 3, 0x2a, 0x6c, 0x76, 0x05);
    Schedule2();
    TurnedGives(key, 2, 0x02, 0xf2, 0xc2, 0x95, 0xf2);
    AddedGives(key, 2, 1, 0x7a, 0x96, 0xb9, 0x43);
    AddedGives(key, 2, 2, 0x59, 0x35, 0x80, 0x7a);
    AddedGives(key, 2, 3, 0x73, 0x59, 0xf6, 0x7f);
    Schedule3();
    TurnedGives(key, 3, 0x04, 0x3d, 0x80, 0x47, 0x7d);
    AddedGives(key, 3, 1, 0x47, 0x16, 0xfe, 0x3e);
    AddedGives(key, 3, 2, 0x1e, 0x23, 0x7e, 0x44);
    AddedGives(key, 3, 3, 0x6d, 0x7a, 0x88, 0x3b);
    Schedule4();
    TurnedGives(key, 4, 0x08, 0xef, 0x44, 0xa5, 0x41);
    AddedGives(key, 4, 1, 0xa8, 0x52, 0x5b, 0x7f);
    AddedGives(key, 4, 2, 0xb6, 0x71, 0x25, 0x3b);
    AddedGives(key, 4, 3, 0xdb, 0x0b, 0xad, 0x00);
    Schedule5();
    TurnedGives(key, 5, 0x10, 0xd4, 0xd1, 0xc6, 0xf8);
    AddedGives(key, 5, 1, 0x7c, 0x83, 0x9d, 0x87);
    AddedGives(key, 5, 2, 0xca, 0xf2, 0xb8, 0xbc);
    AddedGives(key, 5, 3, 0x11, 0xf9, 0x15, 0xbc);
  }

  lemma Keys6(key: Key)
    requires Spelled(RoundKey(key, 5), 0xd4, 0xd1, 0xc6, 0xf8, 0x7c, 0x83, 0x9d, 0x87, 0xca, 0xf2, 0xb8, 0xbc, 0x11, 0xf9, 0x15, 0xbc)
    ensures Spelled(RoundKey(key, 6), 0x6d, 0x88, 0xa3, 0x7a, 0x11, 0x0b, 0x3e, 0xfd, 0xdb, 0xf9, 0x86, 0x41, 0xca, 0x00, 0x93, 0xfd)
    ensures Spelled(RoundKey(key, 7), 0x4e, 0x54, 0xf7, 0x0e, 0x5f, 0x5f, 0xc9, 0xf3, 0x84, 0xa6, 0x4f, 0xb2, 0x4e, 0xa6, 0xdc, 0x4f)
    ensures Spelled(RoundKey(key, 8), 0xea, 0xd2, 0x73, 0x21, 0xb5, 0x8d, 0xba, 0xd2, 0x31, 0x2b, 0xf5, 0x60, 0x7f, 0x8d, 0x29, 0x2f)
    ensures Spelled(RoundKey(key, 9), 0xac, 0x77, 0x66, 0xf3, 0x19, 0xfa, 0xdc, 0x21, 0x28, 0xd1, 0x29, 0x41, 0x57, 0x5c, 0x00, 0x6e)
    ensures Spelled(RoundKey(key, 10), 0xd0, 0x14, 0xf9, 0xa8, 0xc9, 0xee, 0x25, 0x89, 0xe1, 0x3f, 0x0c, 0xc8, 0xb6, 0x63, 0x0c, 0xa6)
  {
    hide RoundKey, Power, Turned, Added;
    Powers();
    Schedule6();
    TurnedGives(key, 6, 0x20, 0x6d, 0x88, 0xa3, 0x7a);
    AddedGives(key, 6, 1, 0x11, 0x0b, 0x3e, 0xfd);
    AddedGives(key, 6, 2, 0xdb, 0xf9, 0x86, 0x41);
    AddedGives(key, 6, 3, 0xca, 0x00, 0x93, 0xfd);
    Schedule7();
    TurnedGives(key, 7, 0x40, 0x4e, 0x54, 0xf7, 0x0e);
    AddedGives(key, 7, 1, 0x5f, 0x5f, 0xc9, 0xf3);
    AddedGives(key, 7, 2, 0x84, 0xa6, 0x4f, 0xb2);
    AddedGives(key, 7, 3, 0x4e, 0xa6, 0xdc, 0x4f);
    Schedule8();
    TurnedGives(key, 8, 0x80, 0xea, 0xd2, 0x73, 0x21);
    AddedGives(key, 8, 1, 0xb5, 0x8d, 0xba, 0xd2);
    AddedGives(key, 8, 2, 0x31, 0x2b, 0xf5, 0x60);
    AddedGives(key, 8, 3, 0x7f, 0x8d, 0x29, 0x2f);
    Schedule9();
    TurnedGives(key, 9, 0x1b, 0xac, 0x77, 0x66, 0xf3);
    AddedGives(key, 9, 1, 0x19, 0xfa, 0xdc, 0x21);
    AddedGives(key, 9, 2, 0x28, 0xd1, 0x29, 0x41);
    AddedGives(key, 9, 3, 0x57, 0x5c, 0x00, 0x6e);
    Schedule10();
    TurnedGives(key, 10, 0x36, 0xd0, 0x14, 0xf9, 0xa8);
    AddedGives(key, 10, 1, 0xc9, 0xee, 0x25, 0x89);
    AddedGives(key, 10, 2, 0xe1, 0x3f, 0x0c, 0xc8);
    AddedGives(key, 10, 3, 0xb6, 0x63, 0x0c, 0xa6);
  }

  /** The eleven round keys of appendix A.1. */
  lemma KeysOfExample(key: Key)
    requires Spelled(key, 0x2b, 0x7e, 0x15, 0x16, 0x28, 0xae, 0xd2, 0xa6, 0xab, 0xf7, 0x15, 0x88, 0x09, 0xcf, 0x4f, 0x3c)
    ensures Spelled(RoundKey(key, 0), 0x2b, 0x7e, 0x15, 0x16, 0x28, 0xae, 0xd2, 0xa6, 0xab, 0xf7, 0x15, 0x88, 0x09, 0xcf, 0x4f, 0x3c)
    ensures Spelled(RoundKey(key, 1), 0xa0, 0xfa, 0xfe, 0x17, 0x88, 0x54, 0x2c, 0xb1, 0x23, 0xa3, 0x39, 0x39, 0x2a, 0x6c, 0x76, 0x05)
    ensures Spelled(RoundKey(key, 2), 0xf2, 0xc2, 0x95, 0xf2, 0x7a, 0x96, 0xb9, 0x43, 0x59, 0x35, 0x80, 0x7a, 0x73, 0x59, 0xf6, 0x7f)
    ensures Spelled(RoundKey(key, 3), 0x3d, 0x80, 0x47, 0x7d, 0x47, 0x16, 0xfe, 0x3e, 0x1e, 0x23, 0x7e, 0x44, 0x6d, 0x7a, 0x88, 0x3b)
    ensures Spelled(RoundKey(key, 4), 0xef, 0x44, 0xa5, 0x41, 0xa8, 0x52, 0x5b, 0x7f, 0xb6, 0x71, 0x25, 0x3b, 0xdb, 0x0b, 0xad, 0x00)
    ensures Spelled(RoundKey(key, 5), 0xd4, 0xd1, 0xc6, 0xf8, 0x7c, 0x83, 0x9d, 0x87, 0xca, 0xf2, 0xb8, 0xbc, 0x11, 0xf9, 0x15, 0xbc)
    ensures Spelled(RoundKey(key, 6), 0x6d, 0x88, 0xa3, 0x7a, 0x11, 0x0b, 0x3e, 0xfd, 0xdb, 0xf9, 0x86, 0x41, 0xca, 0x00, 0x93, 0xfd)
    ensures Spelled(RoundKey(key, 7), 0x4e, 0x54, 0xf7, 0x0e, 0x5f, 0x5f, 0xc9, 0xf3, 0x84, 0xa6, 0x4f, 0xb2, 0x4e, 0xa6, 0xdc, 0x4f)
    ensures Spelled(RoundKey(key, 8), 0xea, 0xd2, 0x73, 0x21, 0xb5, 0x8d, 0xba, 0xd2, 0x31, 0x2b, 0xf5, 0x60, 0x7f, 0x8d, 0x29, 0x2f)
    ensures Spelled(RoundKey(key, 9), 0xac, 0x77, 0x66, 0xf3, 0x19, 0xfa, 0xdc, 0x21, 0x28, 0xd1, 0x29, 0x41, 0x57, 0x5c, 0x00, 0x6e)
    ensures Spelled(RoundKey(key, 10), 0xd0, 0x14, 0xf9, 0xa8, 0xc9, 0xee, 0x25, 0x89, 0xe1, 0x3f, 0x0c, 0xc8, 0xb6, 0x63, 0x0c, 0xa6)
  {
    hide RoundKey;
    KeyItself(key);
    Keys1(key);
    Keys6(key);
  }

  /** The words that appendix A.1 begins with: the first one made is a0fafe17. */
  lemma FirstWordMade(key: Key)
    requires Spelled(key, 0x2b, 0x7e, 0x15, 0x16, 0x28, 0xae, 0xd2, 0xa6, 0xab, 0xf7, 0x15, 0x88, 0x09, 0xcf, 0x4f, 0x3c)
    ensures W(key, 4) == [0xa0, 0xfa, 0xfe, 0x17]
  {
    KeysOfExample(key);
    hide RoundKey, W;
    RoundKeyByte(key, 1, 0, 0);
    RoundKeyByte(key, 1, 0, 1);
    RoundKeyByte(key, 1, 0, 2);
    RoundKeyByte(key, 1, 0, 3);
  }

  lemma Whitened(plain: State, k: State)
    requires Spelled(plain, 0x32, 0x43, 0xf6, 0xa8, 0x88, 0x5a, 0x30, 0x8d, 0x31, 0x31, 0x98, 0xa2, 0xe0, 0x37, 0x07, 0x34)
    requires Spelled(k, 0x2b, 0x7e, 0x15, 0x16, 0x28, 0xae, 0xd2, 0xa6, 0xab, 0xf7, 0x15, 0x88, 0x09, 0xcf, 0x4f, 0x3c)
    ensures Spelled(AddRoundKey(plain, k), 0x19, 0x3d, 0xe3, 0xbe, 0xa0, 0xf4, 0xe2, 0x2b, 0x9a, 0xc6, 0x8d, 0x2a, 0xe9, 0xf8, 0x48, 0x08)
  {
    RawSum(0x32, 0x2b);
    RawSum(0x43, 0x7e);
    RawSum(0xf6, 0x15);
    RawSum(0xa8, 0x16);
    RawSum(0x88, 0x28);
    RawSum(0x5a, 0xae);
    RawSum(0x30, 0xd2);
    RawSum(0x8d, 0xa6);
    RawSum(0x31, 0xab);
    RawSum(0x31, 0xf7);
    RawSum(0x98, 0x15);
    RawSum(0xa2, 0x88);
    RawSum(0xe0, 0x09);
    RawSum(0x37, 0xcf);
    RawSum(0x07, 0x4f);
    RawSum(0x34, 0x3c);
  }

  lemma LastSums()
    ensures && Sum2(Sbox(0xeb), 0xd0) == 0x39 && Sum2(Sbox(0x2e), 0x14) == 0x25 && Sum2(Sbox(0x13), 0xf9) == 0x84 && Sum2(Sbox(0xd2), 0xa8) == 0x1d
            && Sum2(Sbox(0x59), 0xc9) == 0x02 && Sum2(Sbox(0xa1), 0xee) == 0xdc && Sum2(Sbox(0x42), 0x25) == 0x09 && Sum2(Sbox(0x1e), 0x89) == 0xfb
            && Sum2(Sbox(0x8b), 0xe1) == 0xdc && Sum2(Sbox(0xc3), 0x3f) == 0x11 && Sum2(Sbox(0xf2), 0x0c) == 0x85 && Sum2(Sbox(0x84), 0xc8) == 0x97
            && Sum2(Sbox(0x1b), 0xb6) == 0x19 && Sum2(Sbox(0x40), 0x63) == 0x6a && Sum2(Sbox(0x38), 0x0c) == 0x0b && Sum2(Sbox(0xe7), 0xa6) == 0x32
  {
  }

  lemma LastRound(s: State, k: State)
    requires Spelled(s, 0xeb, 0x40, 0xf2, 0x1e, 0x59, 0x2e, 0x38, 0x84, 0x8b, 0xa1, 0x13, 0xe7, 0x1b, 0xc3, 0x42, 0xd2)
    requires Spelled(k, 0xd0, 0x14, 0xf9, 0xa8, 0xc9, 0xee, 0x25, 0x89, 0xe1, 0x3f, 0x0c, 0xc8, 0xb6, 0x63, 0x0c, 0xa6)
    ensures Spelled(AddRoundKey(ShiftRows(SubBytes(s)), k), 0x39, 0x25, 0x84, 0x1d, 0x02, 0xdc, 0x09, 0xfb, 0xdc, 0x11, 0x85, 0x97, 0x19, 0x6a, 0x0b, 0x32)
  {
    hide SubBytes, ShiftRows, AddRoundKey, Sbox, Sum2;
    LastSums();
    LastByte(s, k, 0, 0);
    LastByte(s, k, 0, 1);
    LastByte(s, k, 0, 2);
    LastByte(s, k, 0, 3);
    LastByte(s, k, 1, 0);
    LastByte(s, k, 1, 1);
    LastByte(s, k, 1, 2);
    LastByte(s, k, 1, 3);
    LastByte(s, k, 2, 0);
    LastByte(s, k, 2, 1);
    LastByte(s, k, 2, 2);
    LastByte(s, k, 2, 3);
    LastByte(s, k, 3, 0);
    LastByte(s, k, 3, 1);
    LastByte(s, k, 3, 2);
    LastByte(s, k, 3, 3);
  }

  lemma FirstState(key: Key, plain: State)
    ensures Rounds(key, plain, 0) == AddRoundKey(plain, RoundKey(key, 0))
  {
  }

  lemma NextState(key: Key, plain: State, n: nat)
    requires n >= 1
    ensures Rounds(key, plain, n) == Round(Rounds(key, plain, n - 1), RoundKey(key, n))
  {
    hide RoundKey, SubBytes, ShiftRows, MixColumns, AddRoundKey;
  }

  /** Appendix B: the encryption of 3243f6a8885a308d313198a2e0370734. */
  lemma CipherOfExample(key: Key, plain: State)
    requires Spelled(key, 0x2b, 0x7e, 0x15, 0x16, 0x28, 0xae, 0xd2, 0xa6, 0xab, 0xf7, 0x15, 0x88, 0x09, 0xcf, 0x4f, 0x3c)
    requires Spelled(plain, 0x32, 0x43, 0xf6, 0xa8, 0x88, 0x5a, 0x30, 0x8d, 0x31, 0x31, 0x98, 0xa2, 0xe0, 0x37, 0x07, 0x34)
    ensures Spelled(Cipher(key, plain), 0x39, 0x25, 0x84, 0x1d, 0x02, 0xdc, 0x09, 0xfb, 0xdc, 0x11, 0x85, 0x97, 0x19, 0x6a, 0x0b, 0x32)
  {
    KeysOfExample(key);
    FirstState(key, plain);
    forall n | 1 <= n < 10 ensures Rounds(key, plain, n) == Round(Rounds(key, plain, n - 1), RoundKey(key, n)) {
      NextState(key, plain, n);
    }
    assert Cipher(key, plain) == AddRoundKey(ShiftRows(SubBytes(Rounds(key, plain, 9))), RoundKey(key, 10));
    hide RoundKey, SubBytes, ShiftRows, MixColumns, AddRoundKey, Spelled, Rounds, Round, Cipher;
    Whitened(plain, RoundKey(key, 0));
    Rounds1(Rounds(key, plain, 0), RoundKey(key, 1), RoundKey(key, 2), RoundKey(key, 3));
    Rounds4(Rounds(key, plain, 3), RoundKey(key, 4), RoundKey(key, 5), RoundKey(key, 6));
    Rounds7(Rounds(key, plain, 6), RoundKey(key, 7), RoundKey(key, 8), RoundKey(key, 9));
    LastRound(Rounds(key, plain, 9), RoundKey(key, 10));
  }
}
