/** The SHA-1 context: a message that arrives in pieces of any size. */
module Sha1Stream {
  import opened Sha1Spec
  import opened Sha1
  import opened Wrappers

  const TWO29 := 0x2000_0000
  const TWO32 := 0x1_0000_0000
  const TWO64 := 0x1_0000_0000_0000_0000

  /** The part of a message that fills whole blocks, and the rest. */
  function Whole(m: seq<Byte>): (w: seq<Byte>)
    ensures |w| % 64 == 0
  {
    m[..|m| - |m| % 64]
  }

  function Tail(m: seq<Byte>): seq<Byte> { m[|m| - |m| % 64..] }

  lemma {:induction false} FoldMore(h: Regs, m: seq<Byte>, block: seq<Byte>)
    requires |m| % 64 == 0 && |block| == 64
    ensures Fold(h, m + block) == Compress(Fold(h, m), block)
  {
    hide Compress;
    assert (m + block)[..|m + block| - 64] == m;
    assert (m + block)[|m + block| - 64..] == block;
  }

  lemma SplitAt(m: seq<Byte>, k: nat)
    requires k <= |m| < k + 64 && k % 64 == 0
    ensures |m| % 64 == |m| - k && Whole(m) == m[..k] && Tail(m) == m[k..]
  {
  }

  lemma TailGrows(m: seq<Byte>, data: seq<Byte>)
    requires |m| % 64 + |data| < 64
    ensures Whole(m + data) == Whole(m) && Tail(m + data) == Tail(m) + data
    ensures |m + data| % 64 == |m| % 64 + |data|
  {
    var k := |m| - |m| % 64;
    SplitAt(m, k);
    SplitAt(m + data, k);
    assert (m + data)[..k] == m[..k];
    assert (m + data)[k..] == m[k..] + data;
  }

  lemma FirstBlock(m: seq<Byte>, data: seq<Byte>)
    requires |m| % 64 + |data| >= 64
    ensures var i := 64 - |m| % 64;
      && (|m| + i) % 64 == 0
      && |Tail(m) + data[..i]| == 64
      && (m + data)[..|m| + i] == Whole(m) + (Tail(m) + data[..i])
  {
    assert m == Whole(m) + Tail(m);
  }

  lemma NextBlock(m: seq<Byte>, data: seq<Byte>, i: nat)
    requires i + 64 <= |data| && (|m| + i) % 64 == 0
    ensures (|m| + i + 64) % 64 == 0
    ensures Fold(INITIAL, (m + data)[..|m| + i + 64]) == Compress(Fold(INITIAL, (m + data)[..|m| + i]), data[i..i + 64])
  {
    hide Fold, Compress;
    assert (m + data)[..|m| + i + 64] == (m + data)[..|m| + i] + data[i..i + 64];
    FoldMore(INITIAL, (m + data)[..|m| + i], data[i..i + 64]);
  }

  function Low(n: nat): nat { 8 * n % TWO32 }

  function High(n: nat): nat { 8 * n / TWO32 % TWO32 }

  /** The two counter words after `len` more bytes: a 64-bit sum in 32-bit pieces. */
  lemma CountCarries(n: nat, len: nat)
    ensures (Low(n) + Low(len)) % TWO32 == Low(n + len)
    ensures (High(n) + (if Low(n + len) < Low(n) then 1 else 0) + len / TWO29) % TWO32 == High(n + len)
  {
    var n0, n1, l0, l1 := 8 * n % TWO32, 8 * n / TWO32, 8 * len % TWO32, 8 * len / TWO32;
    assert l1 == len / TWO29;
    assert 8 * (n + len) == (n1 + l1) * TWO32 + (n0 + l0);
    var carry := if n0 + l0 < TWO32 then 0 else 1;
    assert 8 * (n + len) / TWO32 == n1 + l1 + carry;
    assert 8 * (n + len) % TWO32 == n0 + l0 - carry * TWO32;
  }

  lemma AddTwice(a: nat, b: nat, c: nat)
    ensures ((a + b) % TWO32 + c) % TWO32 == (a + b + c) % TWO32
  {
  }

  lemma ModMultiple(r: nat, q: nat)
    ensures (r + 64 * q) % 64 == r % 64
  {
  }

  lemma CountIndex(n: nat)
    ensures Low(n) / 8 % 64 == n % 64
  {
    var q, r := n / TWO29, n % TWO29;
    assert 8 * n == 8 * r + q * TWO32;
    assert Low(n) == 8 * r;
    ModMultiple(r, q * 0x80_0000);
  }

  lemma NoWrap(n: nat, len: nat, i: nat)
    requires i <= len && (n + i) % 64 == 0 && n % 64 + len < TWO32
    ensures i + 63 < TWO32
  {
    assert n == 64 * (n / 64) + n % 64;
    ModMultiple(n % 64 + i, n / 64);
  }

  /** The 32-bit test for a full buffer is right exactly if place and length add up to less than 2^32. */
  lemma FullTest(j: nat, len: nat)
    requires j < 64 && len < TWO32
    ensures ((j + len) % TWO32 > 63 <==> j + len > 63) <==> j + len < TWO32
  {
    if j + len >= TWO32 {
      assert (j + len) % TWO32 == j + len - TWO32;
    }
  }

  method CopyInto(dst: array<Byte>, at: nat, src: seq<Byte>)
    requires at + |src| <= dst.Length
    modifies dst
    ensures dst[..] == old(dst[..at]) + src + old(dst[at + |src|..])
  {
    forall k | 0 <= k < |src| {
      dst[at + k] := src[k];
    }
  }

  class Context {
    const state: array<Word>
    const buffer: array<Byte>
    var count0: nat
    var count1: nat

    /** The context has been given exactly the bytes of `m`. */
    ghost predicate Holds(m: seq<Byte>)
      reads this, state, buffer
    {
      && state.Length == 5 && buffer.Length == 64
      && RegsOf(state[..]) == Fold(INITIAL, Whole(m))
      && buffer[..|m| % 64] == Tail(m)
      && Counts(|m|)
    }

    /** The counter words hold the length in bits, modulo 2^64. */
    ghost predicate Counts(n: nat)
      reads this
    {
      count0 == Low(n) && count1 == High(n)
    }

    /** `kern_sha1_update` as far as it counts; `j` is the place in the buffer. */
    method CountMore(len: nat, ghost n: nat) returns (j: nat)
      requires Counts(n)
      modifies this`count0, this`count1
      ensures Counts(n + len) && j == n % 64
    {
      hide High;
      j := count0;
      count0 := (count0 + 8 * len % TWO32) % TWO32;
      if count0 < j {
        count1 := (count1 + 1) % TWO32;
      }
      count1 := (count1 + len / TWO29) % TWO32;
      hide Low;
      CountCarries(n, len);
      AddTwice(High(n), 1, len / TWO29);
      CountIndex(n);
      j := j / 8 % 64;
    }

    /** `kern_sha1_init`. */
    constructor ()
      ensures Holds([]) && fresh(state) && fresh(buffer)
    {
      state := new Word[5][0x67452301, 0xEFCDAB89, 0x98BADCFE, 0x10325476, 0xC3D2E1F0];
      buffer := new Byte[64];
      count0, count1 := 0, 0;
    }

    /** The loop of `kern_sha1_update`: it works off the whole blocks from `start` on. */
    method Blocks(data: seq<Byte>, start: nat, ghost m: seq<Byte>) returns (i: nat)
      requires state.Length == 5 && start <= |data| && (|m| + start) % 64 == 0
      requires |m| % 64 + |data| < TWO32
      requires RegsOf(state[..]) == Fold(INITIAL, (m + data)[..|m| + start])
      modifies state
      ensures i <= |data| < i + 64 && (|m| + i) % 64 == 0
      ensures RegsOf(state[..]) == Fold(INITIAL, (m + data)[..|m| + i])
    {
      hide Fold, Compress, RegsOf;
      i := start;
      NoWrap(|m|, |data|, i);
      while (i + 63) % TWO32 < |data|
        invariant i <= |data| && (|m| + i) % 64 == 0 && i + 63 < TWO32
        invariant RegsOf(state[..]) == Fold(INITIAL, (m + data)[..|m| + i])
      {
        Transform(state, data[i..i + 64]);
        NextBlock(m, data, i);
        i := i + 64;
        NoWrap(|m|, |data|, i);
      }
    }

    /** `kern_sha1_update`, with its indices in 32 bits. */
    method Update(data: seq<Byte>, ghost m: seq<Byte>)
      requires Holds(m) && |m| % 64 + |data| < TWO32
      modifies this, state, buffer
      ensures Holds(m + data)
    {
      hide Fold, Compress, RegsOf, Whole, Tail;
      var len := |data|;
      var j := CountMore(len, |m|);
      hide Counts;
      var i;
      if (j + len) % TWO32 > 63 {
        i := 64 - j;
        FirstBlock(m, data);
        CopyInto(buffer, j, data[..i]);
        assert buffer[..] == Tail(m) + data[..i];
        Transform(state, buffer[..]);
        FoldMore(INITIAL, Whole(m), Tail(m) + data[..i]);
        i := Blocks(data, i, m);
        j := 0;
        SplitAt(m + data, |m| + i);
        assert (m + data)[|m| + i..] == data[i..];
      } else {
        i := 0;
        TailGrows(m, data);
      }
      CopyInto(buffer, j, data[i..]);
    }

    /** One byte of the length field, as `kern_sha1_final` takes it out of the counter. */
    function CountByte(i: nat): Byte
      requires i < 8
      reads this
    {
      ByteOf(ShiftBytes(if i >= 4 then count0 else count1, if i >= 4 then 7 - i else 3 - i))
    }

    /** `kern_sha1_final`: the digest of the message given so far. */
    method Final(ghost m: seq<Byte>) returns (digest: seq<Byte>)
      requires Holds(m) && 8 * |m| < TWO64
      modifies this, state, buffer
      ensures digest == Hash(m)
    {
      hide Fold, RegsOf, Whole, Tail, ByteOf, ShiftBytes, WordByte, Nth, PadZeros, High;
      var finalCount := seq(8, i requires 0 <= i < 8 reads this => CountByte(i));
      LengthField(m, finalCount);
      Update([0x80], m);
      ghost var z := 0;
      assert m + [0x80] + Zeros(0) == m + [0x80];
      assert count0 == Low(|m| + 1 + z);
      while count0 % 512 - count0 % 8 != 448
        invariant z <= PadZeros(|m|)
        invariant Holds(m + [0x80] + Zeros(z))
        invariant count0 == Low(|m| + 1 + z)
        decreases PadZeros(|m|) - z
      {
        LastZero(|m|, z);
        Update([0], m + [0x80] + Zeros(z));
        assert m + [0x80] + Zeros(z) + [0] == m + [0x80] + Zeros(z + 1);
        z := z + 1;
      }
      LastZero(|m|, z);
      Update(finalCount, m + [0x80] + Zeros(z));
      assert m + [0x80] + Zeros(z) + finalCount == Pad(m);
      SplitAt(Pad(m), |Pad(m)|);
      assert Pad(m)[..|Pad(m)|] == Pad(m);
      digest := seq(20, i requires 0 <= i < 20 reads state => WordByte(state[i / 4], i % 4));
      StateWords(state[..]);
      assert digest == Digest(RegsOf(state[..]));
    }

    lemma LengthField(m: seq<Byte>, field: seq<Byte>)
      requires Counts(|m|) && 8 * |m| < TWO64
      requires |field| == 8 && forall i :: 0 <= i < 8 ==> field[i] == CountByte(i)
      ensures field == BytesOf(8 * |m|, 8)
    {
      hide ByteOf;
      forall i | 0 <= i < 8 ensures field[i] == BytesOf(8 * |m|, 8)[i] {
        CountBytes(|m|, i);
      }
    }
  }

  lemma ShiftThrice(n: nat, i: nat)
    requires i < 4
    ensures ShiftBytes(n, i) == if i == 0 then n else if i == 1 then n / 256 else if i == 2 then n / 256 / 256 else n / 256 / 256 / 256
  {
    if i == 3 {
      assert ShiftBytes(n, 3) == ShiftBytes(n / 256, 2);
    }
  }

  lemma Mod256(r: nat, q: nat)
    ensures (r + 256 * q) % 256 == r % 256 && (r + 256 * q) / 256 == r / 256 + q
  {
  }

  lemma LowShift(n: nat, i: nat)
    requires i < 4
    ensures ShiftBytes(n, i) % 256 == ShiftBytes(n % TWO32, i) % 256
  {
    var q, r := n / TWO32, n % TWO32;
    ShiftThrice(n, i);
    ShiftThrice(r, i);
    hide ShiftBytes;
    assert n == r + 256 * (q * 0x100_0000);
    Mod256(r, q * 0x100_0000);
    Mod256(r / 256, q * 0x1_0000);
    Mod256(r / 256 / 256, q * 0x100);
    Mod256(r / 256 / 256 / 256, q);
  }

  lemma HighShift(n: nat, i: nat)
    ensures ShiftBytes(n, i + 4) == ShiftBytes(n / TWO32, i)
  {
    var q := n / 256 / 256 / 256 / 256;
    assert n / TWO32 == q;
    assert ShiftBytes(n, i + 4) == ShiftBytes(n / 256, i + 3);
    assert ShiftBytes(n, i + 4) == ShiftBytes(n / 256 / 256, i + 2);
    assert ShiftBytes(n, i + 4) == ShiftBytes(n / 256 / 256 / 256, i + 1);
  }

  /** Below 2^64 the counter words spell the length byte by byte. */
  lemma CountBytes(n: nat, i: nat)
    requires 8 * n < TWO64 && i < 8
    ensures ByteOf(ShiftBytes(if i >= 4 then Low(n) else High(n), if i >= 4 then 7 - i else 3 - i)) == ByteOf(ShiftBytes(8 * n, 7 - i))
  {
    if i >= 4 {
      LowShift(8 * n, 7 - i);
    } else {
      assert 8 * n / TWO32 < TWO32;
      HighShift(8 * n, 3 - i);
    }
  }

  lemma LowBlock(n: nat)
    ensures Low(n) % 512 - Low(n) % 8 == 8 * (n % 64)
  {
    var q, r := n / TWO29, n % TWO29;
    assert 8 * n == 8 * r + q * TWO32;
    assert Low(n) == 8 * r;
    ModMultiple(r, q * 0x80_0000);
    assert r == 64 * (r / 64) + r % 64;
    assert 8 * r == 512 * (r / 64) + 8 * (r % 64);
  }

  lemma StateWords(state: seq<Word>)
    requires |state| == 5
    ensures forall k :: 0 <= k < 5 ==> Nth(RegsOf(state), k) == state[k]
  {
  }

  lemma PadMod(n: nat, z: nat)
    requires z <= PadZeros(n)
    ensures (n + 1 + z) % 64 == 56 <==> z == PadZeros(n)
  {
    var k := n % 64;
    assert n + 1 + z == 64 * (n / 64) + (k + 1 + z);
    assert PadZeros(n) == if k <= 55 then 55 - k else 119 - k;
  }

  /** The loop of `kern_sha1_final` stops exactly when the padding has its length. */
  lemma LastZero(n: nat, z: nat)
    requires z <= PadZeros(n)
    ensures Low(n + 1 + z) % 512 - Low(n + 1 + z) % 8 == 448 <==> z == PadZeros(n)
  {
    LowBlock(n + 1 + z);
    PadMod(n, z);
  }
}
