/** AES-128 as FIPS 197 defines it, and its inverse cipher. */
module AesSpec {
  import opened AesField
  import opened AesMix
  import opened AesTables
  import opened Wrappers

  type State = s: seq<Byte> | |s| == 16 witness seq(16, _ => 0)

  // ---------- the layers: byte 4 * c + r of the state is row r of column c ----------

  function SubBytes(s: State): State { seq(16, j requires 0 <= j < 16 => Sbox(s[j])) }

  function InvSubBytes(s: State): State { seq(16, j requires 0 <= j < 16 => Rsbox(s[j])) }

  /** Row r of column c comes from column c + r, and back from column c - r. */
  function ShiftIndex(j: nat): (k: nat)
    requires j < 16
    ensures k < 16
  {
    (j + 4 * (j % 4)) % 16
  }

  function InvShiftIndex(j: nat): (k: nat)
    requires j < 16
    ensures k < 16
  {
    (j + 12 * (j % 4)) % 16
  }

  function ShiftRows(s: State): State { seq(16, j requires 0 <= j < 16 => s[ShiftIndex(j)]) }

  function InvShiftRows(s: State): State { seq(16, j requires 0 <= j < 16 => s[InvShiftIndex(j)]) }

  /** Row r of column c after the column transformation. */
  function MixAt(s: State, c: nat, r: nat): Byte
    requires c < 4 && r < 4
  {
    var s0, s1, s2, s3 := s[4 * c], s[4 * c + 1], s[4 * c + 2], s[4 * c + 3];
    if r == 0 then MixByte(s0, s1, s2, s3) else if r == 1 then MixByte(s1, s2, s3, s0)
    else if r == 2 then MixByte(s2, s3, s0, s1) else MixByte(s3, s0, s1, s2)
  }

  function InvMixAt(s: State, c: nat, r: nat): Byte
    requires c < 4 && r < 4
  {
    var s0, s1, s2, s3 := s[4 * c], s[4 * c + 1], s[4 * c + 2], s[4 * c + 3];
    if r == 0 then InvByte(s0, s1, s2, s3) else if r == 1 then InvByte(s1, s2, s3, s0)
    else if r == 2 then InvByte(s2, s3, s0, s1) else InvByte(s3, s0, s1, s2)
  }

  function MixColumns(s: State): State { seq(16, j requires 0 <= j < 16 => MixAt(s, j / 4, j % 4)) }

  function InvMixColumns(s: State): State { seq(16, j requires 0 <= j < 16 => InvMixAt(s, j / 4, j % 4)) }

  function AddRoundKey(s: State, k: State): State { seq(16, j requires 0 <= j < 16 => Sum2(s[j], k[j])) }

  lemma SubBytesInvert(s: State)
    ensures InvSubBytes(SubBytes(s)) == s && SubBytes(InvSubBytes(s)) == s
  {
    hide Sbox, Rsbox;
    forall j | 0 <= j < 16 ensures InvSubBytes(SubBytes(s))[j] == s[j] && SubBytes(InvSubBytes(s))[j] == s[j] {
      TablesInvert(s[j]);
    }
  }

  lemma Turned(j: nat, q: int)
    requires j < 16
    ensures (j + 16 * q) % 16 == j
  {
  }

  lemma SameRow(j: nat, q: int)
    ensures (j + 4 * q) % 4 == j % 4
  {
  }

  lemma ShiftIndexInverts(j: nat)
    requires j < 16
    ensures InvShiftIndex(ShiftIndex(j)) == j && ShiftIndex(InvShiftIndex(j)) == j
  {
    var r, k, m := j % 4, ShiftIndex(j), InvShiftIndex(j);
    var p, q := (j + 4 * r) / 16, (j + 12 * r) / 16;
    assert k == j + 4 * (r - 4 * p) && m == j + 4 * (3 * r - 4 * q);
    SameRow(j, r - 4 * p);
    SameRow(j, 3 * r - 4 * q);
    Turned(j, r - p);
    Turned(j, r - q);
  }

  lemma ShiftRowsInvert(s: State)
    ensures InvShiftRows(ShiftRows(s)) == s && ShiftRows(InvShiftRows(s)) == s
  {
    hide ShiftIndex, InvShiftIndex;
    forall j | 0 <= j < 16 ensures InvShiftRows(ShiftRows(s))[j] == s[j] && ShiftRows(InvShiftRows(s))[j] == s[j] {
      ShiftIndexInverts(j);
    }
  }

  lemma AddRoundKeyInverts(s: State, k: State)
    ensures AddRoundKey(AddRoundKey(s, k), k) == s
  {
    hide Sum2;
    forall j | 0 <= j < 16 ensures AddRoundKey(AddRoundKey(s, k), k)[j] == s[j] {
      Twice(s[j], k[j]);
    }
  }

  lemma InColumn(c: nat, r: nat)
    requires c < 4 && r < 4
    ensures 4 * c + r < 16 && (4 * c + r) / 4 == c && (4 * c + r) % 4 == r
  {
  }

  lemma ColumnByte(s: State, c: nat, r: nat)
    requires c < 4 && r < 4
    ensures 4 * c + r < 16
    ensures MixColumns(s)[4 * c + r] == MixAt(s, c, r) && InvMixColumns(s)[4 * c + r] == InvMixAt(s, c, r)
  {
    hide MixAt, InvMixAt;
    InColumn(c, r);
  }

  /** The four columns one by one. */
  lemma MixColumnsInvert(s: State)
    ensures InvMixColumns(MixColumns(s)) == s && MixColumns(InvMixColumns(s)) == s
  {
    hide MixByte, InvByte, MixColumns, InvMixColumns;
    var t, u := MixColumns(s), InvMixColumns(s);
    forall j | 0 <= j < 16 ensures InvMixColumns(t)[j] == s[j] && MixColumns(u)[j] == s[j] {
      var c, r := j / 4, j % 4;
      assert j == 4 * c + r;
      ColumnByte(t, c, r);
      ColumnByte(u, c, r);
      ColumnByte(s, c, 0);
      ColumnByte(s, c, 1);
      ColumnByte(s, c, 2);
      ColumnByte(s, c, 3);
      var s0, s1, s2, s3 := s[4 * c], s[4 * c + 1], s[4 * c + 2], s[4 * c + 3];
      assert t[4 * c] == MixByte(s0, s1, s2, s3) && u[4 * c] == InvByte(s0, s1, s2, s3);
      assert t[4 * c + 1] == MixByte(s1, s2, s3, s0) && u[4 * c + 1] == InvByte(s1, s2, s3, s0);
      assert t[4 * c + 2] == MixByte(s2, s3, s0, s1) && u[4 * c + 2] == InvByte(s2, s3, s0, s1);
      assert t[4 * c + 3] == MixByte(s3, s0, s1, s2) && u[4 * c + 3] == InvByte(s3, s0, s1, s2);
      if r == 0 {
        InvAfterMix(s0, s1, s2, s3);
        MixAfterInv(s0, s1, s2, s3);
      } else if r == 1 {
        InvAfterMix(s1, s2, s3, s0);
        MixAfterInv(s1, s2, s3, s0);
      } else if r == 2 {
        InvAfterMix(s2, s3, s0, s1);
        MixAfterInv(s2, s3, s0, s1);
      } else {
        InvAfterMix(s3, s0, s1, s2);
        MixAfterInv(s3, s0, s1, s2);
      }
    }
  }

  // ---------- the key schedule, section 5.2 ----------

  type Key = s: seq<Byte> | |s| == 16 witness seq(16, _ => 0)
  type KeyWord = s: seq<Byte> | |s| == 4 witness seq(4, _ => 0)

  /** The powers of two in the field: the round constants. */
  function Power(k: nat): Byte {
    if k == 0 then 1 else Xtime(Power(k - 1))
  }

  function AddWords(a: KeyWord, b: KeyWord): KeyWord {
    [Sum2(a[0], b[0]), Sum2(a[1], b[1]), Sum2(a[2], b[2]), Sum2(a[3], b[3])]
  }

  function SubRotWord(w: KeyWord, rcon: Byte): KeyWord {
    [Sum2(Sbox(w[1]), rcon), Sbox(w[2]), Sbox(w[3]), Sbox(w[0])]
  }

  ghost function W(key: Key, i: nat): KeyWord {
    if i < 4 then key[4 * i..4 * i + 4]
    else AddWords(W(key, i - 4), if i % 4 == 0 then SubRotWord(W(key, i - 1), Power(i / 4 - 1)) else W(key, i - 1))
  }

  ghost function RoundKey(key: Key, round: nat): State {
    W(key, 4 * round) + W(key, 4 * round + 1) + W(key, 4 * round + 2) + W(key, 4 * round + 3)
  }

  // ---------- the cipher, section 5.1, and its inverse, section 5.3 ----------

  /** The state after the given number of full rounds. */
  ghost function Rounds(key: Key, plain: State, n: nat): State {
    if n == 0 then AddRoundKey(plain, RoundKey(key, 0))
    else AddRoundKey(MixColumns(ShiftRows(SubBytes(Rounds(key, plain, n - 1)))), RoundKey(key, n))
  }

  ghost function Cipher(key: Key, plain: State): State {
    AddRoundKey(ShiftRows(SubBytes(Rounds(key, plain, 9))), RoundKey(key, 10))
  }

  /** The state before the inverse rounds below `round` are run. */
  ghost function InvRounds(key: Key, cipher: State, round: nat): State
    requires round <= 10
    decreases 10 - round
  {
    if round == 10 then AddRoundKey(cipher, RoundKey(key, 10))
    else InvMixColumns(AddRoundKey(InvSubBytes(InvShiftRows(InvRounds(key, cipher, round + 1))), RoundKey(key, round)))
  }

  ghost function InvCipher(key: Key, cipher: State): State {
    AddRoundKey(InvSubBytes(InvShiftRows(InvRounds(key, cipher, 1))), RoundKey(key, 0))
  }

  lemma {:induction false} RoundsUndone(key: Key, plain: State, round: nat)
    requires 1 <= round <= 10
    ensures InvRounds(key, Cipher(key, plain), round) == ShiftRows(SubBytes(Rounds(key, plain, round - 1)))
    decreases 10 - round
  {
    hide SubBytes, InvSubBytes, ShiftRows, InvShiftRows, MixColumns, InvMixColumns, AddRoundKey, RoundKey;
    if round == 10 {
      AddRoundKeyInverts(ShiftRows(SubBytes(Rounds(key, plain, 9))), RoundKey(key, 10));
    } else {
      RoundsUndone(key, plain, round + 1);
      var s := Rounds(key, plain, round);
      ShiftRowsInvert(SubBytes(s));
      SubBytesInvert(s);
      var mixed := MixColumns(ShiftRows(SubBytes(Rounds(key, plain, round - 1))));
      AddRoundKeyInverts(mixed, RoundKey(key, round));
      MixColumnsInvert(ShiftRows(SubBytes(Rounds(key, plain, round - 1))));
    }
  }

  lemma {:induction false} RoundsRedone(key: Key, cipher: State, round: nat)
    requires round <= 9
    ensures Rounds(key, InvCipher(key, cipher), round) == InvSubBytes(InvShiftRows(InvRounds(key, cipher, round + 1)))
  {
    hide SubBytes, InvSubBytes, ShiftRows, InvShiftRows, MixColumns, InvMixColumns, AddRoundKey, RoundKey;
    if round == 0 {
      AddRoundKeyInverts(InvSubBytes(InvShiftRows(InvRounds(key, cipher, 1))), RoundKey(key, 0));
    } else {
      RoundsRedone(key, cipher, round - 1);
      var s := InvRounds(key, cipher, round);
      SubBytesInvert(InvShiftRows(s));
      ShiftRowsInvert(s);
      var keyed := AddRoundKey(InvSubBytes(InvShiftRows(InvRounds(key, cipher, round + 1))), RoundKey(key, round));
      MixColumnsInvert(keyed);
      AddRoundKeyInverts(InvSubBytes(InvShiftRows(InvRounds(key, cipher, round + 1))), RoundKey(key, round));
    }
  }

  /** The inverse cipher undoes the cipher, and the cipher undoes it, for every key and block. */
  lemma CipherInverts(key: Key, block: State)
    ensures InvCipher(key, Cipher(key, block)) == block
    ensures Cipher(key, InvCipher(key, block)) == block
  {
    hide SubBytes, InvSubBytes, ShiftRows, InvShiftRows, MixColumns, InvMixColumns, AddRoundKey, RoundKey;
    RoundsUndone(key, block, 1);
    var s := Rounds(key, block, 0);
    ShiftRowsInvert(SubBytes(s));
    SubBytesInvert(s);
    AddRoundKeyInverts(block, RoundKey(key, 0));
    RoundsRedone(key, block, 9);
    var t := InvRounds(key, block, 10);
    SubBytesInvert(InvShiftRows(t));
    ShiftRowsInvert(t);
    AddRoundKeyInverts(block, RoundKey(key, 10));
  }
}
