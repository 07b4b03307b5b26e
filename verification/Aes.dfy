/** The kernel's AES-128 block decryption, which works in place on its sixteen bytes. */
module Aes {
  import opened AesTables
  import opened AesField
  import opened AesMix
  import opened AesSpec
  import opened Wrappers

  const RCON: seq<Byte> := [0x01, 0x02, 0x04, 0x08, 0x10, 0x20, 0x40, 0x80, 0x1b, 0x36]

  lemma RoundConstants(r: nat)
    requires r < 10
    ensures RCON[r] == Power(r)
  {
    if r > 0 {
      RoundConstants(r - 1);
    }
  }

  function WordOf(rk: seq<Byte>, i: nat): KeyWord
    requires 4 * i + 4 <= |rk|
  {
    [rk[4 * i], rk[4 * i + 1], rk[4 * i + 2], rk[4 * i + 3]]
  }

  /** The first `n` words of the buffer are those of the key schedule. */
  ghost predicate Expanded(rk: seq<Byte>, key: Key, n: nat) {
    |rk| == 176 && n <= 44 && forall i :: 0 <= i < n ==> WordOf(rk, i) == W(key, i)
  }

  lemma FirstWords(key: Key, rk: seq<Byte>)
    requires |rk| == 176 && rk[..16] == key
    ensures Expanded(rk, key, 4)
  {
    forall i | 0 <= i < 4 ensures WordOf(rk, i) == W(key, i) {
      assert WordOf(rk, i) == rk[..16][4 * i..4 * i + 4];
    }
  }

  lemma SameWord(before: seq<Byte>, after: seq<Byte>, i: nat, k: nat)
    requires |before| == |after| == 176 && k < i <= 44 && after[..4 * i] == before[..4 * i]
    ensures WordOf(after, k) == WordOf(before, k)
  {
    var same := before[..4 * i];
    assert WordOf(before, k) == [same[4 * k], same[4 * k + 1], same[4 * k + 2], same[4 * k + 3]];
  }

  lemma ScheduledWord(key: Key, i: nat, w: KeyWord)
    requires i >= 4
    requires w == if i % 4 == 0 then SubRotWord(W(key, i - 1), Power(i / 4 - 1)) else W(key, i - 1)
    ensures W(key, i) == AddWords(W(key, i - 4), w)
  {
    hide AddWords, SubRotWord, Power;
  }

  lemma NextWord(before: seq<Byte>, after: seq<Byte>, key: Key, i: nat, w: KeyWord)
    requires 4 <= i < 44 && Expanded(before, key, i) && |after| == 176 && after[..4 * i] == before[..4 * i]
    requires WordOf(after, i) == AddWords(WordOf(before, i - 4), w)
    requires w == if i % 4 == 0 then SubRotWord(WordOf(before, i - 1), Power(i / 4 - 1)) else WordOf(before, i - 1)
    ensures Expanded(after, key, i + 1)
  {
    hide AddWords, SubRotWord, Power, WordOf, W;
    ScheduledWord(key, i, w);
    forall k | 0 <= k < i ensures WordOf(after, k) == W(key, k) {
      SameWord(before, after, i, k);
    }
  }

  /** The part of `aes128_key_expand` that makes the word to add; `r` counts round constants. */
  method ScheduleWord(t: array<Byte>, bytes: nat, r: nat) returns (r': nat)
    requires t.Length == 4 && (bytes % 16 == 0 ==> r < 10)
    modifies t
    ensures t[..] == if bytes % 16 == 0 then SubRotWord(old(t[..]), RCON[r]) else old(t[..])
    ensures r' == if bytes % 16 == 0 then r + 1 else r
  {
    hide Sbox, Sum2;
    r' := r;
    if bytes % 16 == 0 {
      var tmp := t[0];
      t[0] := Sum2(Sbox(t[1]), RCON[r']);
      r' := r' + 1;
      t[1] := Sbox(t[2]);
      t[2] := Sbox(t[3]);
      t[3] := Sbox(tmp);
    }
  }

  method AddWord(roundKey: array<Byte>, bytes: nat, ghost i: nat, t: seq<Byte>)
    requires roundKey.Length == 176 && bytes == 4 * i && 4 <= i < 44 && |t| == 4
    modifies roundKey
    ensures roundKey[..bytes] == old(roundKey[..bytes])
    ensures WordOf(roundKey[..], i) == AddWords(WordOf(old(roundKey[..]), i - 4), t)
  {
    hide Sum2;
    for k := 0 to 4
      invariant roundKey[..bytes] == old(roundKey[..bytes])
      invariant forall j :: 0 <= j < k ==> roundKey[bytes + j] == Sum2(old(roundKey[bytes - 16 + j]), t[j])
    {
      roundKey[bytes + k] := Sum2(roundKey[bytes - 16 + k], t[k]);
    }
  }

  lemma ConstantIndex(i: nat)
    requires 4 <= i < 44
    ensures 4 * i % 16 == 0 <==> i % 4 == 0
    ensures (i - 1) / 4 == (if i % 4 == 0 then i / 4 - 1 else i / 4) < 11
    ensures i % 4 == 0 ==> i / 4 <= 10
  {
  }

  /** One round of the loop of `aes128_key_expand`. */
  method ExpandWord(roundKey: array<Byte>, bytes: nat, r: nat, ghost i: nat, ghost key: Key) returns (r': nat)
    requires roundKey.Length == 176 && bytes == 4 * i && 4 <= i < 44 && r == (i - 1) / 4
    requires Expanded(roundKey[..], key, i)
    modifies roundKey
    ensures Expanded(roundKey[..], key, i + 1) && r' == i / 4
  {
    hide Power, W, AddWords, SubRotWord;
    ConstantIndex(i);
    ghost var before := roundKey[..];
    var t := new Byte[4](k requires 0 <= k < 4 reads roundKey => roundKey[bytes - 4 + k]);
    assert t[..] == WordOf(before, i - 1);
    hide WordOf, Expanded;
    if bytes % 16 == 0 {
      RoundConstants(r);
    }
    r' := ScheduleWord(t, bytes, r);
    AddWord(roundKey, bytes, i, t[..]);
    NextWord(before, roundKey[..], key, i, t[..]);
  }

  /** `aes128_key_expand`: the buffer gets the key schedule of section 5.2. */
  method KeyExpand(key: seq<Byte>, roundKey: array<Byte>)
    requires |key| == 16 && roundKey.Length == 176
    modifies roundKey
    ensures Expanded(roundKey[..], key, 44)
  {
    forall k | 0 <= k < 16 {
      roundKey[k] := key[k];
    }
    hide Expanded;
    assert roundKey[..16] == key;
    FirstWords(key, roundKey[..]);
    var bytes, r := 16, 0;
    ghost var i := 4;
    while bytes < 176
      invariant bytes == 4 * i && 4 <= i <= 44 && r == (i - 1) / 4
      invariant Expanded(roundKey[..], key, i)
    {
      r := ExpandWord(roundKey, bytes, r, i, key);
      bytes := bytes + 4;
      i := i + 1;
    }
  }

  lemma RoundKeyBytes(rk: seq<Byte>, key: Key, round: nat)
    requires Expanded(rk, key, 44) && round <= 10
    ensures rk[16 * round..16 * round + 16] == RoundKey(key, round)
  {
    hide W;
    var k := 4 * round;
    assert WordOf(rk, k) == W(key, k) && WordOf(rk, k + 1) == W(key, k + 1);
    assert WordOf(rk, k + 2) == W(key, k + 2) && WordOf(rk, k + 3) == W(key, k + 3);
    hide Expanded;
    assert rk[16 * round..16 * round + 16] == WordOf(rk, k) + WordOf(rk, k + 1) + WordOf(rk, k + 2) + WordOf(rk, k + 3);
  }

  /** `aes_add_round_key`. */
  method AddKey(s: array<Byte>, rk: seq<Byte>)
    requires s.Length == 16 && |rk| == 16
    modifies s
    ensures s[..] == AddRoundKey(old(s[..]), rk)
  {
    hide Sum2;
    for i := 0 to 16
      invariant forall j :: 0 <= j < i ==> s[j] == Sum2(old(s[j]), rk[j])
      invariant forall j :: i <= j < 16 ==> s[j] == old(s[j])
    {
      s[i] := Sum2(s[i], rk[i]);
    }
  }

  method InvShiftRow1(s: array<Byte>)
    requires s.Length == 16
    modifies s
    ensures s[1] == old(s[13]) && s[5] == old(s[1])
    ensures s[9] == old(s[5]) && s[13] == old(s[9])
    ensures forall j :: 0 <= j < 16 && j % 4 != 1 ==> s[j] == old(s[j])
  {
    var t := s[13];
    s[13] := s[9];
    s[9] := s[5];
    s[5] := s[1];
    s[1] := t;
  }

  method InvShiftRow2(s: array<Byte>)
    requires s.Length == 16
    modifies s
    ensures s[2] == old(s[10]) && s[6] == old(s[14])
    ensures s[10] == old(s[2]) && s[14] == old(s[6])
    ensures forall j :: 0 <= j < 16 && j % 4 != 2 ==> s[j] == old(s[j])
  {
    var t := s[2];
    s[2] := s[10];
    s[10] := t;
    t := s[6];
    s[6] := s[14];
    s[14] := t;
  }

  method InvShiftRow3(s: array<Byte>)
    requires s.Length == 16
    modifies s
    ensures s[3] == old(s[7]) && s[7] == old(s[11])
    ensures s[11] == old(s[15]) && s[15] == old(s[3])
    ensures forall j :: 0 <= j < 16 && j % 4 != 3 ==> s[j] == old(s[j])
  {
    var t := s[3];
    s[3] := s[7];
    s[7] := s[11];
    s[11] := s[15];
    s[15] := t;
  }

  lemma InvShifted(o: State, s: State)
    requires s[0] == o[0] && s[4] == o[4] && s[8] == o[8] && s[12] == o[12]
    requires s[1] == o[13] && s[5] == o[1] && s[9] == o[5] && s[13] == o[9]
    requires s[2] == o[10] && s[6] == o[14] && s[10] == o[2] && s[14] == o[6]
    requires s[3] == o[7] && s[7] == o[11] && s[11] == o[15] && s[15] == o[3]
    ensures s == InvShiftRows(o)
  {
    hide InvShiftIndex;
    InvShiftIndices();
    forall j | 0 <= j < 16 ensures s[j] == o[InvShiftIndex(j)] {
      assert j == 0 || j == 1 || j == 2 || j == 3 || j == 4 || j == 5 || j == 6 || j == 7
        || j == 8 || j == 9 || j == 10 || j == 11 || j == 12 || j == 13 || j == 14 || j == 15;
    }
  }

  lemma InvShiftIndices()
    ensures InvShiftIndex(0) == 0 && InvShiftIndex(1) == 13 && InvShiftIndex(2) == 10 && InvShiftIndex(3) == 7
    ensures InvShiftIndex(4) == 4 && InvShiftIndex(5) == 1 && InvShiftIndex(6) == 14 && InvShiftIndex(7) == 11
    ensures InvShiftIndex(8) == 8 && InvShiftIndex(9) == 5 && InvShiftIndex(10) == 2 && InvShiftIndex(11) == 15
    ensures InvShiftIndex(12) == 12 && InvShiftIndex(13) == 9 && InvShiftIndex(14) == 6 && InvShiftIndex(15) == 3
  {
  }

  /** `aes_inv_shift_rows`: row 1 turns right by one, row 2 by two, row 3 left by one. */
  method InvShift(s: array<Byte>)
    requires s.Length == 16
    modifies s
    ensures s[..] == InvShiftRows(old(s[..]))
  {
    InvShiftRow1(s);
    InvShiftRow2(s);
    InvShiftRow3(s);
    InvShifted(old(s[..]), s[..]);
    hide InvShiftRows;
  }

  /** `aes_inv_sub_bytes`. */
  method InvSub(s: array<Byte>)
    requires s.Length == 16
    modifies s
    ensures s[..] == InvSubBytes(old(s[..]))
  {
    hide Rsbox;
    for i := 0 to 16
      invariant forall j :: 0 <= j < i ==> s[j] == Rsbox(old(s[j]))
      invariant forall j :: i <= j < 16 ==> s[j] == old(s[j])
    {
      s[i] := Rsbox(s[i]);
    }
  }

  /** One byte of a column of `aes_inv_mix_columns`. */
  method InvMixByte(a0: Byte, a1: Byte, a2: Byte, a3: Byte) returns (b: Byte)
    ensures b == InvByte(a0, a1, a2, a3)
  {
    hide Times, Sum4;
    var m0 := Mul(a0, 0x0e);
    var m1 := Mul(a1, 0x0b);
    var m2 := Mul(a2, 0x0d);
    var m3 := Mul(a3, 0x09);
    b := Sum4(m0, m1, m2, m3);
  }

  lemma SameColumn(s: State, t: State, c: nat)
    requires c < 4
    requires s[4 * c] == t[4 * c] && s[4 * c + 1] == t[4 * c + 1] && s[4 * c + 2] == t[4 * c + 2] && s[4 * c + 3] == t[4 * c + 3]
    ensures forall r :: 0 <= r < 4 ==> InvMixAt(s, c, r) == InvMixAt(t, c, r)
  {
    hide InvByte;
  }

  /** One round of the loop of `aes_inv_mix_columns`. */
  method InvMixColumn(s: array<Byte>, c: nat)
    requires s.Length == 16 && c < 4
    modifies s
    ensures s[..4 * c] == old(s[..4 * c]) && s[4 * c + 4..] == old(s[4 * c + 4..])
    ensures s[4 * c] == InvMixAt(old(s[..]), c, 0) && s[4 * c + 1] == InvMixAt(old(s[..]), c, 1)
    ensures s[4 * c + 2] == InvMixAt(old(s[..]), c, 2) && s[4 * c + 3] == InvMixAt(old(s[..]), c, 3)
  {
    hide InvByte;
    var a0, a1, a2, a3 := s[4 * c], s[4 * c + 1], s[4 * c + 2], s[4 * c + 3];
    s[4 * c] := InvMixByte(a0, a1, a2, a3);
    s[4 * c + 1] := InvMixByte(a1, a2, a3, a0);
    s[4 * c + 2] := InvMixByte(a2, a3, a0, a1);
    s[4 * c + 3] := InvMixByte(a3, a0, a1, a2);
  }

  /** The columns below `c` are transformed, the others are still as they were. */
  ghost predicate Unmixed(before: seq<Byte>, s: seq<Byte>, c: nat) {
    && |before| == |s| == 16 && c <= 4 && s[4 * c..] == before[4 * c..]
    && forall d, r :: 0 <= d < c && 0 <= r < 4 ==> s[4 * d + r] == InvMixAt(before, d, r)
  }

  lemma UnmixedMore(before: State, s: State, t: State, c: nat)
    requires c < 4 && Unmixed(before, s, c) && t[..4 * c] == s[..4 * c] && t[4 * c + 4..] == s[4 * c + 4..]
    requires t[4 * c] == InvMixAt(s, c, 0) && t[4 * c + 1] == InvMixAt(s, c, 1)
    requires t[4 * c + 2] == InvMixAt(s, c, 2) && t[4 * c + 3] == InvMixAt(s, c, 3)
    ensures Unmixed(before, t, c + 1)
  {
    hide InvMixAt;
    var rest := s[4 * c..];
    assert rest == before[4 * c..];
    assert s[4 * c] == rest[0] == before[4 * c] && s[4 * c + 1] == rest[1] == before[4 * c + 1];
    assert s[4 * c + 2] == rest[2] == before[4 * c + 2] && s[4 * c + 3] == rest[3] == before[4 * c + 3];
    SameColumn(s, before, c);
    assert t[4 * c + 4..] == s[4 * c..][4..] == before[4 * c + 4..];
    forall d, r | 0 <= d < c + 1 && 0 <= r < 4 ensures t[4 * d + r] == InvMixAt(before, d, r) {
      if d < c {
        assert t[4 * d + r] == t[..4 * c][4 * d + r] == s[4 * d + r];
      } else {
        assert r == 0 || r == 1 || r == 2 || r == 3;
      }
    }
  }

  lemma AllUnmixed(before: State, s: State)
    requires Unmixed(before, s, 4)
    ensures s == InvMixColumns(before)
  {
    hide InvMixAt;
    forall j | 0 <= j < 16 ensures s[j] == InvMixAt(before, j / 4, j % 4) {
      assert s[4 * (j / 4) + j % 4] == InvMixAt(before, j / 4, j % 4);
    }
  }

  /** `aes_inv_mix_columns`. */
  method InvMix(s: array<Byte>)
    requires s.Length == 16
    modifies s
    ensures s[..] == InvMixColumns(old(s[..]))
  {
    hide InvMixAt;
    for c := 0 to 4
      invariant Unmixed(old(s[..]), s[..], c)
    {
      ghost var before := s[..];
      InvMixColumn(s, c);
      hide Unmixed;
      UnmixedMore(old(s[..]), before, s[..], c);
    }
    AllUnmixed(old(s[..]), s[..]);
  }

  /** `aes128_decrypt_block` computes the inverse cipher. */
  method DecryptBlock(key: seq<Byte>, input: seq<Byte>) returns (output: seq<Byte>)
    requires |key| == 16 && |input| == 16
    ensures |output| == 16 && output == InvCipher(key, input)
  {
    hide AddRoundKey, InvShiftRows, InvSubBytes, InvMixColumns, Expanded, RoundKey;
    var rk := new Byte[176];
    KeyExpand(key, rk);
    var s := new Byte[16](i requires 0 <= i < 16 => input[i]);
    assert s[..] == input;
    RoundKeyBytes(rk[..], key, 10);
    AddKey(s, rk[160..176]);
    var round := 9;
    while round >= 1
      invariant 0 <= round <= 9 && s[..] == InvRounds(key, input, round + 1)
      invariant Expanded(rk[..], key, 44)
    {
      RoundKeyBytes(rk[..], key, round);
      InvShift(s);
      InvSub(s);
      AddKey(s, rk[round * 16..round * 16 + 16]);
      InvMix(s);
      round := round - 1;
    }
    RoundKeyBytes(rk[..], key, 0);
    InvShift(s);
    InvSub(s);
    AddKey(s, rk[..16]);
    output := s[..];
  }
}
