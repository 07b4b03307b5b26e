/**
 The kernel's SHA-1: the compression works in a circular schedule of sixteen words and
 renames its registers instead of moving them (section 6.1.3 of FIPS 180-4), and the
 context hashes a message that arrives in pieces.
 */
module Sha1 {
  import opened Sha1Spec
  import opened Wrappers

  /** A word as a little-endian machine loads it. */
  function LittleEndian(b0: Byte, b1: Byte, b2: Byte, b3: Byte): Word {
    ((b3 as Word) << 24) | ((b2 as Word) << 16) | ((b1 as Word) << 8) | (b0 as Word)
  }

  function Swap(x: Word): Word {
    (((x << 24) | (x >> 8)) & 0xFF00FF00) | (((x << 8) | (x >> 24)) & 0x00FF00FF)
  }

  lemma SwapLoads(b0: Byte, b1: Byte, b2: Byte, b3: Byte)
    ensures Swap(LittleEndian(b0, b1, b2, b3)) == BigEndian(b0, b1, b2, b3)
  {
  }

  function FastCh(w: Word, x: Word, y: Word): Word { (w & (x ^ y)) ^ y }

  function FastMaj(w: Word, x: Word, y: Word): Word { ((w | x) & y) | (w & x) }

  function FastSum(z: Word, f: Word, w: Word, k: Word, r: Word): Word { z + (f + w + k + r) }

  lemma ChoiceBits(w: Word, x: Word, y: Word)
    ensures (w & (x ^ y)) ^ y == (w & x) ^ (!w & y)
  {
  }

  lemma FastChoice(w: Word, x: Word, y: Word)
    ensures FastCh(w, x, y) == Ch(w, x, y)
  {
    ChoiceBits(w, x, y);
  }

  lemma MajorityBits(w: Word, x: Word, y: Word)
    ensures ((w | x) & y) | (w & x) == (w & x) ^ (w & y) ^ (x & y)
  {
  }

  lemma FastMajority(w: Word, x: Word, y: Word)
    ensures FastMaj(w, x, y) == Maj(w, x, y)
  {
    MajorityBits(w, x, y);
  }

  lemma SumOrder(z: Word, f: Word, w: Word, k: Word, r: Word)
    ensures FastSum(z, f, w, k, r) == Sum(r, f, z, k, w)
  {
  }

  /** The last round before round `i` that wrote slot `s`. */
  function Latest(i: nat, s: nat): (t: nat)
    requires s < i
    ensures t < i && i <= t + 16 && t % 16 == s % 16
  {
    i - 1 - (i - 1 - s) % 16
  }

  lemma LatestIs(i: nat, s: nat, t: nat)
    requires s < i && t < i && i <= t + 16 && t % 16 == s % 16
    ensures Latest(i, s) == t
  {
  }

  ghost function SlotWord(m: seq<Byte>, i: nat, s: nat): Word
    requires |m| == 64 && s < 16
  {
    if s < i then W(m, Latest(i, s)) else LittleEndian(m[4 * s], m[4 * s + 1], m[4 * s + 2], m[4 * s + 3])
  }

  /** After `i` rounds each slot holds the latest schedule word of its residue, or is still as loaded. */
  ghost predicate Window(block: seq<Word>, m: seq<Byte>, i: nat) {
    |m| == 64 && |block| == 16 && forall s :: 0 <= s < 16 ==> block[s] == SlotWord(m, i, s)
  }

  lemma SlotIs(m: seq<Byte>, i: nat, s: nat, t: nat)
    requires |m| == 64 && s < 16 && t < i && i <= t + 16 && t % 16 == s
    ensures SlotWord(m, i, s) == W(m, t)
  {
    hide W, LittleEndian;
    LatestIs(i, s, t);
  }

  lemma SlotStays(m: seq<Byte>, i: nat, s: nat)
    requires |m| == 64 && s < 16 && s != i % 16
    ensures SlotWord(m, i + 1, s) == SlotWord(m, i, s)
  {
    hide W, LittleEndian;
    if s < i {
      var t := Latest(i, s);
      assert t + 16 != i;
      hide Latest;
      LatestIs(i + 1, s, t);
    }
  }

  /** Writing the word of round `i` into its slot moves the window on. */
  lemma WindowMoves(block: seq<Word>, m: seq<Byte>, i: nat, x: Word)
    requires Window(block, m, i) && x == W(m, i)
    ensures Window(block[i % 16 := x], m, i + 1)
  {
    hide W, SlotWord;
    var next := block[i % 16 := x];
    forall s | 0 <= s < 16 ensures next[s] == SlotWord(m, i + 1, s) {
      if s == i % 16 {
        SlotIs(m, i + 1, s, i);
      } else {
        SlotStays(m, i, s);
      }
    }
  }

  lemma LoadedWord(m: seq<Byte>, i: nat)
    requires |m| == 64 && i < 16
    ensures W(m, i) == BigEndian(m[4 * i], m[4 * i + 1], m[4 * i + 2], m[4 * i + 3])
  {
    hide BigEndian, RotL1, Xor4;
  }

  lemma ScheduledWord(m: seq<Byte>, i: nat)
    requires |m| == 64 && i >= 16
    ensures W(m, i) == RotL1(Xor4(W(m, i - 3), W(m, i - 8), W(m, i - 14), W(m, i - 16)))
  {
    hide BigEndian, RotL1, Xor4;
  }

  /** The macro `blk0`. */
  method Blk0(block: array<Word>, i: nat, ghost m: seq<Byte>) returns (x: Word)
    requires i < 16 && block.Length == 16 && Window(block[..], m, i)
    modifies block
    ensures Window(block[..], m, i + 1) && x == W(m, i)
  {
    hide Swap, LittleEndian, BigEndian, W;
    ghost var was := block[..];
    SwapLoads(m[4 * i], m[4 * i + 1], m[4 * i + 2], m[4 * i + 3]);
    LoadedWord(m, i);
    assert was[i] == SlotWord(m, i, i);
    block[i] := Swap(block[i]);
    x := block[i];
    WindowMoves(was, m, i, x);
    assert block[..] == was[i % 16 := x];
  }

  lemma SlotsBehind(i: nat)
    requires i >= 16
    ensures (i + 13) % 16 == (i - 3) % 16 && (i + 8) % 16 == (i - 8) % 16
    ensures (i + 2) % 16 == (i - 14) % 16 && i % 16 == (i - 16) % 16
  {
  }

  /** The macro `blk`. */
  method Blk(block: array<Word>, i: nat, ghost m: seq<Byte>) returns (x: Word)
    requires 16 <= i < 80 && block.Length == 16 && Window(block[..], m, i)
    modifies block
    ensures Window(block[..], m, i + 1) && x == W(m, i)
  {
    hide LittleEndian, BigEndian, RotL1, Xor4, W, SlotWord;
    ghost var was := block[..];
    SlotsBehind(i);
    SlotIs(m, i, (i + 13) % 16, i - 3);
    SlotIs(m, i, (i + 8) % 16, i - 8);
    SlotIs(m, i, (i + 2) % 16, i - 14);
    SlotIs(m, i, i % 16, i - 16);
    ScheduledWord(m, i);
    block[i % 16] := RotL1(Xor4(block[(i + 13) % 16], block[(i + 8) % 16], block[(i + 2) % 16], block[i % 16]));
    x := block[i % 16];
    WindowMoves(was, m, i, x);
    assert block[..] == was[i % 16 := x];
  }

  /** What one macro call must achieve: the roles `z, v, w, x, y` are those of the next call. */
  ghost predicate After(z: Word, v: Word, w: Word, x: Word, y: Word, h: Regs, m: seq<Byte>, i: nat) {
    |m| == 64 && Regs(z, v, w, x, y) == Turns(h, m, i)
  }

  /** The macro `r0`. */
  method R0(v: Word, w: Word, x: Word, y: Word, z: Word, i: nat, block: array<Word>, ghost h: Regs, ghost m: seq<Byte>)
    returns (z': Word, w': Word)
    requires i < 16 && block.Length == 16 && Window(block[..], m, i) && After(v, w, x, y, z, h, m, i)
    modifies block
    ensures Window(block[..], m, i + 1) && After(z', v, w', x, y, h, m, i + 1)
  {
    hide Window, W, RotL5, RotL30, FastSum, Sum, Ch, FastCh;
    var u := Blk0(block, i, m);
    z' := FastSum(z, FastCh(w, x, y), u, 0x5A827999, RotL5(v));
    w' := RotL30(w);
    FastChoice(w, x, y);
    SumOrder(z, FastCh(w, x, y), u, 0x5A827999, RotL5(v));
  }

  /** The macro `r1`. */
  method R1(v: Word, w: Word, x: Word, y: Word, z: Word, i: nat, block: array<Word>, ghost h: Regs, ghost m: seq<Byte>)
    returns (z': Word, w': Word)
    requires 16 <= i < 20 && block.Length == 16 && Window(block[..], m, i) && After(v, w, x, y, z, h, m, i)
    modifies block
    ensures Window(block[..], m, i + 1) && After(z', v, w', x, y, h, m, i + 1)
  {
    hide Window, W, RotL5, RotL30, FastSum, Sum, Ch, FastCh;
    var u := Blk(block, i, m);
    z' := FastSum(z, FastCh(w, x, y), u, 0x5A827999, RotL5(v));
    w' := RotL30(w);
    FastChoice(w, x, y);
    SumOrder(z, FastCh(w, x, y), u, 0x5A827999, RotL5(v));
  }

  /** The macro `r2`. */
  method R2(v: Word, w: Word, x: Word, y: Word, z: Word, i: nat, block: array<Word>, ghost h: Regs, ghost m: seq<Byte>)
    returns (z': Word, w': Word)
    requires 20 <= i < 40 && block.Length == 16 && Window(block[..], m, i) && After(v, w, x, y, z, h, m, i)
    modifies block
    ensures Window(block[..], m, i + 1) && After(z', v, w', x, y, h, m, i + 1)
  {
    hide Window, W, RotL5, RotL30, FastSum, Sum, Parity;
    var u := Blk(block, i, m);
    z' := FastSum(z, Parity(w, x, y), u, 0x6ED9EBA1, RotL5(v));
    w' := RotL30(w);
    SumOrder(z, Parity(w, x, y), u, 0x6ED9EBA1, RotL5(v));
  }

  /** The macro `r3`. */
  method R3(v: Word, w: Word, x: Word, y: Word, z: Word, i: nat, block: array<Word>, ghost h: Regs, ghost m: seq<Byte>)
    returns (z': Word, w': Word)
    requires 40 <= i < 60 && block.Length == 16 && Window(block[..], m, i) && After(v, w, x, y, z, h, m, i)
    modifies block
    ensures Window(block[..], m, i + 1) && After(z', v, w', x, y, h, m, i + 1)
  {
    hide Window, W, RotL5, RotL30, FastSum, Sum, Maj, FastMaj;
    var u := Blk(block, i, m);
    z' := FastSum(z, FastMaj(w, x, y), u, 0x8F1BBCDC, RotL5(v));
    w' := RotL30(w);
    FastMajority(w, x, y);
    SumOrder(z, FastMaj(w, x, y), u, 0x8F1BBCDC, RotL5(v));
  }

  /** The macro `r4`. */
  method R4(v: Word, w: Word, x: Word, y: Word, z: Word, i: nat, block: array<Word>, ghost h: Regs, ghost m: seq<Byte>)
    returns (z': Word, w': Word)
    requires 60 <= i < 80 && block.Length == 16 && Window(block[..], m, i) && After(v, w, x, y, z, h, m, i)
    modifies block
    ensures Window(block[..], m, i + 1) && After(z', v, w', x, y, h, m, i + 1)
  {
    hide Window, W, RotL5, RotL30, FastSum, Sum, Parity;
    var u := Blk(block, i, m);
    z' := FastSum(z, Parity(w, x, y), u, 0xCA62C1D6, RotL5(v));
    w' := RotL30(w);
    SumOrder(z, Parity(w, x, y), u, 0xCA62C1D6, RotL5(v));
  }

  /** The macro calls 0 to 19. */
  method Rounds0(a0: Word, b0: Word, c0: Word, d0: Word, e0: Word, block: array<Word>, ghost h: Regs, ghost m: seq<Byte>)
    returns (a: Word, b: Word, c: Word, d: Word, e: Word)
    requires block.Length == 16 && Window(block[..], m, 0) && After(a0, b0, c0, d0, e0, h, m, 0)
    modifies block
    ensures Window(block[..], m, 20) && After(a, b, c, d, e, h, m, 20)
  {
    hide Window, After;
    a, b, c, d, e := a0, b0, c0, d0, e0;
    e, b := R0(a, b, c, d, e, 0, block, h, m);
    d, a := R0(e, a, b, c, d, 1, block, h, m);
    c, e := R0(d, e, a, b, c, 2, block, h, m);
    b, d := R0(c, d, e, a, b, 3, block, h, m);
    a, c := R0(b, c, d, e, a, 4, block, h, m);
    e, b := R0(a, b, c, d, e, 5, block, h, m);
    d, a := R0(e, a, b, c, d, 6, block, h, m);
    c, e := R0(d, e, a, b, c, 7, block, h, m);
    b, d := R0(c, d, e, a, b, 8, block, h, m);
    a, c := R0(b, c, d, e, a, 9, block, h, m);
    e, b := R0(a, b, c, d, e, 10, block, h, m);
    d, a := R0(e, a, b, c, d, 11, block, h, m);
    c, e := R0(d, e, a, b, c, 12, block, h, m);
    b, d := R0(c, d, e, a, b, 13, block, h, m);
    a, c := R0(b, c, d, e, a, 14, block, h, m);
    e, b := R0(a, b, c, d, e, 15, block, h, m);
    d, a := R1(e, a, b, c, d, 16, block, h, m);
    c, e := R1(d, e, a, b, c, 17, block, h, m);
    b, d := R1(c, d, e, a, b, 18, block, h, m);
    a, c := R1(b, c, d, e, a, 19, block, h, m);
  }

  /** The macro calls 20 to 39. */
  method Rounds20(a0: Word, b0: Word, c0: Word, d0: Word, e0: Word, block: array<Word>, ghost h: Regs, ghost m: seq<Byte>)
    returns (a: Word, b: Word, c: Word, d: Word, e: Word)
    requires block.Length == 16 && Window(block[..], m, 20) && After(a0, b0, c0, d0, e0, h, m, 20)
    modifies block
    ensures Window(block[..], m, 40) && After(a, b, c, d, e, h, m, 40)
  {
    hide Window, After;
    a, b, c, d, e := a0, b0, c0, d0, e0;
    e, b := R2(a, b, c, d, e, 20, block, h, m);
    d, a := R2(e, a, b, c, d, 21, block, h, m);
    c, e := R2(d, e, a, b, c, 22, block, h, m);
    b, d := R2(c, d, e, a, b, 23, block, h, m);
    a, c := R2(b, c, d, e, a, 24, block, h, m);
    e, b := R2(a, b, c, d, e, 25, block, h, m);
    d, a := R2(e, a, b, c, d, 26, block, h, m);
    c, e := R2(d, e, a, b, c, 27, block, h, m);
    b, d := R2(c, d, e, a, b, 28, block, h, m);
    a, c := R2(b, c, d, e, a, 29, block, h, m);
    e, b := R2(a, b, c, d, e, 30, block, h, m);
    d, a := R2(e, a, b, c, d, 31, block, h, m);
    c, e := R2(d, e, a, b, c, 32, block, h, m);
    b, d := R2(c, d, e, a, b, 33, block, h, m);
    a, c := R2(b, c, d, e, a, 34, block, h, m);
    e, b := R2(a, b, c, d, e, 35, block, h, m);
    d, a := R2(e, a, b, c, d, 36, block, h, m);
    c, e := R2(d, e, a, b, c, 37, block, h, m);
    b, d := R2(c, d, e, a, b, 38, block, h, m);
    a, c := R2(b, c, d, e, a, 39, block, h, m);
  }

  /** The macro calls 40 to 59. */
  method Rounds40(a0: Word, b0: Word, c0: Word, d0: Word, e0: Word, block: array<Word>, ghost h: Regs, ghost m: seq<Byte>)
    returns (a: Word, b: Word, c: Word, d: Word, e: Word)
    requires block.Length == 16 && Window(block[..], m, 40) && After(a0, b0, c0, d0, e0, h, m, 40)
    modifies block
    ensures Window(block[..], m, 60) && After(a, b, c, d, e, h, m, 60)
  {
    hide Window, After;
    a, b, c, d, e := a0, b0, c0, d0, e0;
    e, b := R3(a, b, c, d, e, 40, block, h, m);
    d, a := R3(e, a, b, c, d, 41, block, h, m);
    c, e := R3(d, e, a, b, c, 42, block, h, m);
    b, d := R3(c, d, e, a, b, 43, block, h, m);
    a, c := R3(b, c, d, e, a, 44, block, h, m);
    e, b := R3(a, b, c, d, e, 45, block, h, m);
    d, a := R3(e, a, b, c, d, 46, block, h, m);
    c, e := R3(d, e, a, b, c, 47, block, h, m);
    b, d := R3(c, d, e, a, b, 48, block, h, m);
    a, c := R3(b, c, d, e, a, 49, block, h, m);
    e, b := R3(a, b, c, d, e, 50, block, h, m);
    d, a := R3(e, a, b, c, d, 51, block, h, m);
    c, e := R3(d, e, a, b, c, 52, block, h, m);
    b, d := R3(c, d, e, a, b, 53, block, h, m);
    a, c := R3(b, c, d, e, a, 54, block, h, m);
    e, b := R3(a, b, c, d, e, 55, block, h, m);
    d, a := R3(e, a, b, c, d, 56, block, h, m);
    c, e := R3(d, e, a, b, c, 57, block, h, m);
    b, d := R3(c, d, e, a, b, 58, block, h, m);
    a, c := R3(b, c, d, e, a, 59, block, h, m);
  }

  /** The macro calls 60 to 79. */
  method Rounds60(a0: Word, b0: Word, c0: Word, d0: Word, e0: Word, block: array<Word>, ghost h: Regs, ghost m: seq<Byte>)
    returns (a: Word, b: Word, c: Word, d: Word, e: Word)
    requires block.Length == 16 && Window(block[..], m, 60) && After(a0, b0, c0, d0, e0, h, m, 60)
    modifies block
    ensures Window(block[..], m, 80) && After(a, b, c, d, e, h, m, 80)
  {
    hide Window, After;
    a, b, c, d, e := a0, b0, c0, d0, e0;
    e, b := R4(a, b, c, d, e, 60, block, h, m);
    d, a := R4(e, a, b, c, d, 61, block, h, m);
    c, e := R4(d, e, a, b, c, 62, block, h, m);
    b, d := R4(c, d, e, a, b, 63, block, h, m);
    a, c := R4(b, c, d, e, a, 64, block, h, m);
    e, b := R4(a, b, c, d, e, 65, block, h, m);
    d, a := R4(e, a, b, c, d, 66, block, h, m);
    c, e := R4(d, e, a, b, c, 67, block, h, m);
    b, d := R4(c, d, e, a, b, 68, block, h, m);
    a, c := R4(b, c, d, e, a, 69, block, h, m);
    e, b := R4(a, b, c, d, e, 70, block, h, m);
    d, a := R4(e, a, b, c, d, 71, block, h, m);
    c, e := R4(d, e, a, b, c, 72, block, h, m);
    b, d := R4(c, d, e, a, b, 73, block, h, m);
    a, c := R4(b, c, d, e, a, 74, block, h, m);
    e, b := R4(a, b, c, d, e, 75, block, h, m);
    d, a := R4(e, a, b, c, d, 76, block, h, m);
    c, e := R4(d, e, a, b, c, 77, block, h, m);
    b, d := R4(c, d, e, a, b, 78, block, h, m);
    a, c := R4(b, c, d, e, a, 79, block, h, m);
  }

  ghost function RegsOf(state: seq<Word>): Regs
    requires |state| == 5
  {
    Regs(state[0], state[1], state[2], state[3], state[4])
  }

  /** `kern_sha1_transform` computes the compression function of section 6.1.2. */
  method Transform(state: array<Word>, buffer: seq<Byte>)
    requires state.Length == 5 && |buffer| == 64
    modifies state
    ensures RegsOf(state[..]) == Compress(old(RegsOf(state[..])), buffer)
  {
    hide LittleEndian, W, Turns, Plus;
    var block := new Word[16](i requires 0 <= i < 16 =>
      LittleEndian(buffer[4 * i], buffer[4 * i + 1], buffer[4 * i + 2], buffer[4 * i + 3]));
    ghost var h := RegsOf(state[..]);
    var a, b, c, d, e := state[0], state[1], state[2], state[3], state[4];
    FirstTurn(a, b, c, d, e, buffer);
    hide After;
    a, b, c, d, e := Rounds0(a, b, c, d, e, block, h, buffer);
    a, b, c, d, e := Rounds20(a, b, c, d, e, block, h, buffer);
    a, b, c, d, e := Rounds40(a, b, c, d, e, block, h, buffer);
    a, b, c, d, e := Rounds60(a, b, c, d, e, block, h, buffer);
    hide Window;
    state[0] := Plus(state[0], a);
    state[1] := Plus(state[1], b);
    state[2] := Plus(state[2], c);
    state[3] := Plus(state[3], d);
    state[4] := Plus(state[4], e);
    assert RegsOf(state[..]) == Add(h, Regs(a, b, c, d, e));
    LastTurn(a, b, c, d, e, h, buffer);
  }

  lemma FirstTurn(a: Word, b: Word, c: Word, d: Word, e: Word, m: seq<Byte>)
    requires |m| == 64
    ensures After(a, b, c, d, e, Regs(a, b, c, d, e), m, 0)
  {
  }

  lemma LastTurn(a: Word, b: Word, c: Word, d: Word, e: Word, h: Regs, m: seq<Byte>)
    requires After(a, b, c, d, e, h, m, 80)
    ensures Add(h, Regs(a, b, c, d, e)) == Compress(h, m)
  {
    hide Add, Turns;
  }
}
