/** SHA-1 as sections 4 to 6 of FIPS 180-4 define it. */
module Sha1Spec {
  import opened Wrappers

  type Word = bv32

  datatype Regs = Regs(a: Word, b: Word, c: Word, d: Word, e: Word)

  const INITIAL := Regs(0x67452301, 0xEFCDAB89, 0x98BADCFE, 0x10325476, 0xC3D2E1F0)

  function RotL1(x: Word): Word { (x << 1) | (x >> 31) }

  function RotL5(x: Word): Word { (x << 5) | (x >> 27) }

  function RotL30(x: Word): Word { (x << 30) | (x >> 2) }

  /** Four bytes as a word, most significant byte first. */
  function BigEndian(b0: Byte, b1: Byte, b2: Byte, b3: Byte): Word {
    ((b0 as Word) << 24) | ((b1 as Word) << 16) | ((b2 as Word) << 8) | (b3 as Word)
  }

  function Ch(x: Word, y: Word, z: Word): Word { (x & y) ^ (!x & z) }

  function Parity(x: Word, y: Word, z: Word): Word { x ^ y ^ z }

  function Maj(x: Word, y: Word, z: Word): Word { (x & y) ^ (x & z) ^ (y & z) }

  /** The functions and constants of sections 4.1.1 and 4.2.1. */
  function F(t: nat, x: Word, y: Word, z: Word): Word {
    if t < 20 then Ch(x, y, z) else if 40 <= t < 60 then Maj(x, y, z) else Parity(x, y, z)
  }

  function K(t: nat): Word {
    if t < 20 then 0x5A827999 else if t < 40 then 0x6ED9EBA1 else if t < 60 then 0x8F1BBCDC else 0xCA62C1D6
  }

  function Xor4(a: Word, b: Word, c: Word, d: Word): Word { a ^ b ^ c ^ d }

  /** The message schedule, section 6.1.2 step 1. */
  ghost function W(m: seq<Byte>, t: nat): Word
    requires |m| == 64
  {
    if t < 16 then BigEndian(m[4 * t], m[4 * t + 1], m[4 * t + 2], m[4 * t + 3])
    else RotL1(Xor4(W(m, t - 3), W(m, t - 8), W(m, t - 14), W(m, t - 16)))
  }

  function Sum(a: Word, f: Word, e: Word, k: Word, w: Word): Word { a + f + e + k + w }

  /** One turn of the loop, section 6.1.2 step 3. */
  function Turn(r: Regs, t: nat, w: Word): Regs {
    Regs(Sum(RotL5(r.a), F(t, r.b, r.c, r.d), r.e, K(t), w), r.a, RotL30(r.b), r.c, r.d)
  }

  ghost function Turns(r: Regs, m: seq<Byte>, t: nat): Regs
    requires |m| == 64
  {
    if t == 0 then r else Turn(Turns(r, m, t - 1), t - 1, W(m, t - 1))
  }

  function Plus(x: Word, y: Word): Word { x + y }

  function Add(r: Regs, s: Regs): Regs {
    Regs(Plus(r.a, s.a), Plus(r.b, s.b), Plus(r.c, s.c), Plus(r.d, s.d), Plus(r.e, s.e))
  }

  ghost function Compress(h: Regs, m: seq<Byte>): Regs
    requires |m| == 64
  {
    Add(h, Turns(h, m, 80))
  }

  /** The hash value after all blocks of a message of whole blocks. */
  ghost function Fold(h: Regs, m: seq<Byte>): Regs
    requires |m| % 64 == 0
  {
    if |m| == 0 then h else Compress(Fold(h, m[..|m| - 64]), m[|m| - 64..])
  }

  function Zeros(n: nat): (z: seq<Byte>)
    ensures |z| == n
  {
    seq(n, _ => 0)
  }

  function PadZeros(n: nat): nat { (119 - n % 64) % 64 }

  /** Padding to whole blocks, section 5.1.1: a one bit, as few zeros as possible, the length in bits. */
  function Pad(m: seq<Byte>): (p: seq<Byte>)
    ensures |p| % 64 == 0
  {
    m + [0x80] + Zeros(PadZeros(|m|)) + BytesOf(8 * |m|, 8)
  }

  /** No fewer zeros would fill the last block. */
  lemma PadZerosLeast(n: nat, z: nat)
    requires (n + 1 + z + 8) % 64 == 0
    ensures z >= PadZeros(n) && (n + 1 + PadZeros(n) + 8) % 64 == 0
  {
  }

  /** The blocks are taken in order, each on the value that the ones before it left. */
  lemma {:induction false} FoldInOrder(h: Regs, a: seq<Byte>, b: seq<Byte>)
    requires |a| % 64 == 0 && |b| % 64 == 0
    ensures Fold(h, a + b) == Fold(Fold(h, a), b)
    decreases |b|
  {
    hide Compress;
    if |b| == 0 {
      assert a + b == a;
    } else {
      var m := a + b;
      FoldInOrder(h, a, b[..|b| - 64]);
      assert m[..|m| - 64] == a + b[..|b| - 64] && m[|m| - 64..] == b[|b| - 64..];
    }
  }

  /** Byte `i` of a word, most significant first. */
  function WordByte(w: Word, i: nat): Byte {
    if i == 0 then ((w >> 24) & 0xff) as Byte
    else if i == 1 then ((w >> 16) & 0xff) as Byte
    else if i == 2 then ((w >> 8) & 0xff) as Byte
    else (w & 0xff) as Byte
  }

  function Nth(r: Regs, k: nat): Word {
    if k == 0 then r.a else if k == 1 then r.b else if k == 2 then r.c else if k == 3 then r.d else r.e
  }

  /** The five words of the hash value, byte by byte. */
  function Digest(r: Regs): (d: seq<Byte>)
    ensures |d| == 20
  {
    seq(20, i requires 0 <= i < 20 => WordByte(Nth(r, i / 4), i % 4))
  }

  ghost function Hash(m: seq<Byte>): (d: seq<Byte>)
    ensures |d| == 20
  {
    Digest(Fold(INITIAL, Pad(m)))
  }
}
