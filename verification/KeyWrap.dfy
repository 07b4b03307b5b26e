/** AES key wrap: the kernel's unwrapping against the wrapping of section 2.2.1 of RFC 3394. */
module KeyWrap {
  import opened Wrappers
  import opened AesField
  import opened AesSpec
  import opened Aes

  type Half = s: seq<Byte> | |s| == 8 witness seq(8, _ => 0)

  function IV(): Half { [0xa6, 0xa6, 0xa6, 0xa6, 0xa6, 0xa6, 0xa6, 0xa6] }

  /** The register A and the blocks R. */
  datatype Regs = Regs(a: Half, r: seq<Half>)

  /** A exclusive-or the counter as a 64-bit number, most significant byte first. */
  function AddCounter(a: Half, t: nat): Half {
    seq(8, k requires 0 <= k < 8 => Sum2(a[k], BytesOf(t, 8)[k]))
  }

  function Join(a: Half, b: Half): State { a + b }

  /** Step k of the wrapping loops, counted from 0: block k % n, counter k + 1. */
  ghost function WrapStep(kek: Key, s: Regs, k: nat): Regs
    requires s.r != []
  {
    var i := k % |s.r|;
    var b := Cipher(kek, Join(s.a, s.r[i]));
    Regs(AddCounter(b[..8], k + 1), s.r[i := b[8..]])
  }

  ghost function UnwrapStep(kek: Key, s: Regs, k: nat): Regs
    requires s.r != []
  {
    hide AddCounter, InvCipher;
    var i := k % |s.r|;
    var b := InvCipher(kek, Join(AddCounter(s.a, k + 1), s.r[i]));
    Regs(b[..8], s.r[i := b[8..]])
  }

  lemma AddCounterTwice(a: Half, t: nat)
    ensures AddCounter(AddCounter(a, t), t) == a
  {
    hide Sum2, BytesOf;
    forall k | 0 <= k < 8 ensures AddCounter(AddCounter(a, t), t)[k] == a[k] {
      Twice(a[k], BytesOf(t, 8)[k]);
    }
  }

  lemma StepsInvert(kek: Key, s: Regs, k: nat)
    requires s.r != []
    ensures UnwrapStep(kek, WrapStep(kek, s, k), k) == s
    ensures WrapStep(kek, UnwrapStep(kek, s, k), k) == s
  {
    hide Cipher, InvCipher, AddCounter;
    var i := k % |s.r|;
    var b := Cipher(kek, Join(s.a, s.r[i]));
    AddCounterTwice(b[..8], k + 1);
    assert b[..8] + b[8..] == b;
    CipherInverts(kek, Join(s.a, s.r[i]));
    var c := InvCipher(kek, Join(AddCounter(s.a, k + 1), s.r[i]));
    assert c[..8] + c[8..] == c;
    CipherInverts(kek, Join(AddCounter(s.a, k + 1), s.r[i]));
    AddCounterTwice(s.a, k + 1);
  }

  /** The state after the first k steps of wrapping. */
  ghost function Wrapped(kek: Key, s: Regs, k: nat): (w: Regs)
    requires s.r != []
    ensures |w.r| == |s.r|
  {
    if k == 0 then s else WrapStep(kek, Wrapped(kek, s, k - 1), k - 1)
  }

  /** The state after undoing all steps from the last one down to step k. */
  ghost function Unwound(kek: Key, s: Regs, k: nat): (w: Regs)
    requires s.r != [] && k <= 6 * |s.r|
    ensures |w.r| == |s.r|
    decreases 6 * |s.r| - k
  {
    if k == 6 * |s.r| then s else UnwrapStep(kek, Unwound(kek, s, k + 1), k)
  }

  lemma {:induction false} UnwoundWrapped(kek: Key, s: Regs, k: nat)
    requires s.r != [] && k <= 6 * |s.r|
    ensures Unwound(kek, Wrapped(kek, s, 6 * |s.r|), k) == Wrapped(kek, s, k)
    decreases 6 * |s.r| - k
  {
    hide WrapStep, UnwrapStep;
    if k < 6 * |s.r| {
      UnwoundWrapped(kek, s, k + 1);
      StepsInvert(kek, Wrapped(kek, s, k), k);
    }
  }

  lemma {:induction false} WrappedUnwound(kek: Key, s: Regs, k: nat)
    requires s.r != [] && k <= 6 * |s.r|
    ensures Wrapped(kek, Unwound(kek, s, 0), k) == Unwound(kek, s, k)
  {
    hide WrapStep, UnwrapStep;
    if k > 0 {
      WrappedUnwound(kek, s, k - 1);
      StepsInvert(kek, Unwound(kek, s, k), k - 1);
    }
  }

  // ---------- the other form of the standard ----------

  /**
   The wrapping as section 2.2.1 of RFC 3394 states it first: always the first block is taken,
   and the result comes in as the last one while the others move up.
   */
  ghost function Shifted(kek: Key, s: Regs, t: nat): (w: Regs)
    requires s.r != []
    ensures |w.r| == |s.r|
  {
    if t == 0 then s
    else ShiftStep(kek, Shifted(kek, s, t - 1), t)
  }

  ghost function ShiftStep(kek: Key, s: Regs, t: nat): (w: Regs)
    requires s.r != []
    ensures |w.r| == |s.r|
  {
    var b := Cipher(kek, Join(s.a, s.r[0]));
    Regs(AddCounter(b[..8], t), s.r[1..] + [b[8..]])
  }

  /** The block that is next after `t` steps. */
  function Place(t: nat, n: nat): (i: nat)
    requires n > 0
    ensures i < n
  {
    t % n
  }

  function Rotated(r: seq<Half>, j: nat): seq<Half>
    requires j <= |r|
  {
    r[j..] + r[..j]
  }

  lemma RotatedStep(r: seq<Half>, i: nat, x: Half)
    requires i < |r|
    ensures Rotated(r, i)[0] == r[i]
    ensures Rotated(r, i)[1..] + [x] == Rotated(r[i := x], Place(i + 1, |r|))
  {
    var n, r' := |r|, r[i := x];
    var left := Rotated(r, i)[1..] + [x];
    assert |left| == n;
    if i + 1 < n {
      QuotientIs(i + 1, n, 0, i + 1);
      assert left == r'[i + 1..] + r'[..i + 1];
    } else {
      QuotientIs(n, n, 1, 0);
      assert left == r';
      assert Rotated(r', 0) == r';
    }
  }

  lemma AtLeast(n: nat, k: int)
    ensures k >= 1 ==> n * k >= n
    ensures k <= -1 ==> n * k + n <= 0
  {
  }

  lemma QuotientIs(x: nat, n: nat, q: nat, r: nat)
    requires r < n && x == n * q + r
    ensures x % n == r
  {
    var d := q - x / n;
    assert n * d == n * q - n * (x / n);
    AtLeast(n, d);
  }

  lemma NextBlock(t: nat, n: nat)
    requires n > 0
    ensures Place(t + 1, n) == Place(Place(t, n) + 1, n)
  {
    var q, r := t / n, t % n;
    assert t == n * q + r;
    if r + 1 < n {
      QuotientIs(t + 1, n, q, r + 1);
      QuotientIs(r + 1, n, 0, r + 1);
    } else {
      assert n * (q + 1) == n * q + n;
      QuotientIs(t + 1, n, q + 1, 0);
      QuotientIs(n, n, 1, 0);
    }
  }

  /** The indexed loops move no block, and take the same ones. */
  lemma {:induction false} ShiftedIsRotated(kek: Key, s: Regs, t: nat)
    requires s.r != []
    ensures Shifted(kek, s, t) == Regs(Wrapped(kek, s, t).a, Rotated(Wrapped(kek, s, t).r, Place(t, |s.r|)))
  {
    hide Cipher, AddCounter, Rotated, Place, WrapStep, ShiftStep;
    if t == 0 {
      RotatedByNone(s.r);
    } else {
      ShiftedIsRotated(kek, s, t - 1);
      var w, i := Wrapped(kek, s, t - 1), Place(t - 1, |s.r|);
      NextBlock(t - 1, |s.r|);
      assert Wrapped(kek, s, t) == WrapStep(kek, w, t - 1);
      assert Shifted(kek, s, t) == ShiftStep(kek, Shifted(kek, s, t - 1), t);
      hide Wrapped, Shifted;
      StepsAgree(kek, w, t, i);
    }
  }

  lemma StepsAgree(kek: Key, w: Regs, t: nat, i: nat)
    requires w.r != [] && t > 0 && i == Place(t - 1, |w.r|)
    ensures var v := WrapStep(kek, w, t - 1);
      ShiftStep(kek, Regs(w.a, Rotated(w.r, i)), t) == Regs(v.a, Rotated(v.r, Place(i + 1, |w.r|)))
  {
    hide Cipher, AddCounter, Rotated;
    var b := Cipher(kek, Join(w.a, w.r[i]));
    RotatedStep(w.r, i, b[8..]);
  }

  lemma RotatedByNone(r: seq<Half>)
    ensures Rotated(r, 0) == r
    ensures r != [] ==> Place(0, |r|) == 0
  {
  }

  /** After six turns over the blocks both forms are the same: from eight bytes 0xa6, the register and then the blocks. */
  lemma WrapByShifting(kek: Key, plain: seq<Half>)
    requires plain != []
    ensures var w := Shifted(kek, Regs([0xa6, 0xa6, 0xa6, 0xa6, 0xa6, 0xa6, 0xa6, 0xa6], plain), 6 * |plain|);
      Wrap(kek, plain) == w.a + Flat(w.r)
  {
    hide Cipher, AddCounter, Wrapped, Shifted, Flat;
    var s := Regs(IV(), plain);
    ShiftedIsRotated(kek, s, 6 * |plain|);
    QuotientIs(6 * |plain|, |plain|, 6, 0);
    RotatedByNone(Wrapped(kek, s, 6 * |plain|).r);
  }

  /** With at most 32 blocks the counter stays below 256 and is added to the last byte of the register alone. */
  lemma CounterInLastByte(a: Half, t: nat)
    requires t < 256
    ensures AddCounter(a, t) == a[..7] + [a[7] ^ t as Byte]
  {
    var b := BytesOf(t, 8);
    forall k | 0 <= k < 7 ensures b[k] == 0 {
      NoByte(t, 7 - k);
    }
    assert b[7] == ByteOf(ShiftBytes(t, 0)) == t as Byte;
    hide BytesOf;
    var c := AddCounter(a, t);
    forall k | 0 <= k < 7 ensures c[k] == a[k] {
      NothingAdded(a[k], b[k]);
    }
    assert c[7] == Sum2(a[7], b[7]);
    hide AddCounter;
    assert c == c[..7] + [c[7]];
  }

  lemma NothingAdded(a: Byte, b: Byte)
    requires b == 0
    ensures Sum2(a, b) == a
  {
    Zero(a);
  }

  // ---------- byte strings ----------

  function Blocks(s: seq<Byte>): (b: seq<Half>)
    requires |s| % 8 == 0
    ensures |b| == |s| / 8
  {
    if s == [] then [] else [s[..8]] + Blocks(s[8..])
  }

  function Flat(b: seq<Half>): (s: seq<Byte>)
    ensures |s| == 8 * |b|
  {
    if b == [] then [] else b[0] + Flat(b[1..])
  }

  lemma {:induction false} BlocksFlat(b: seq<Half>)
    ensures Blocks(Flat(b)) == b
  {
    if b != [] {
      BlocksFlat(b[1..]);
      assert Flat(b)[..8] == b[0] && Flat(b)[8..] == Flat(b[1..]);
      assert b == [b[0]] + b[1..];
    }
  }

  lemma {:induction false} FlatBlocks(s: seq<Byte>)
    requires |s| % 8 == 0
    ensures Flat(Blocks(s)) == s
    decreases |s|
  {
    if s != [] {
      FlatBlocks(s[8..]);
      assert s == s[..8] + s[8..];
      assert ([s[..8]] + Blocks(s[8..]))[1..] == Blocks(s[8..]);
    }
  }

  /** The registers as a byte string, and back. */
  function Store(w: Regs): (c: seq<Byte>)
    ensures |c| == 8 + 8 * |w.r|
  {
    w.a + Flat(w.r)
  }

  function Load(c: seq<Byte>): (w: Regs)
    requires 16 <= |c| && |c| % 8 == 0
    ensures |w.r| == |c| / 8 - 1
  {
    Regs(c[..8], Blocks(c[8..]))
  }

  lemma LoadStore(w: Regs)
    requires w.r != []
    ensures Load(Store(w)) == w
  {
    hide Flat, Blocks;
    var c := Store(w);
    assert c[..8] == w.a && c[8..] == Flat(w.r);
    BlocksFlat(w.r);
  }

  lemma StoreLoad(c: seq<Byte>)
    requires 16 <= |c| && |c| % 8 == 0
    ensures Store(Load(c)) == c
  {
    hide Flat, Blocks;
    FlatBlocks(c[8..]);
    assert c == c[..8] + c[8..];
  }

  /** The wrapping of section 2.2.1. */
  ghost function Wrap(kek: Key, plain: seq<Half>): seq<Byte>
    requires plain != []
  {
    Store(Wrapped(kek, Regs(IV(), plain), 6 * |plain|))
  }

  /** What unwrapping yields: nothing for a bad length or a wrong initial value. */
  ghost function Unwrap(kek: Key, input: seq<Byte>): Option<seq<Byte>> {
    if |input| < 16 || |input| % 8 != 0 || |input| / 8 - 1 > 32 then None
    else
      var w := Unwound(kek, Load(input), 0);
      if w.a == IV() then Some(Flat(w.r)) else None
  }

  lemma NoSteps(kek: Key, s: Regs)
    requires s.r != []
    ensures Wrapped(kek, s, 0) == s
  {
  }

  /** Unwrapping returns the plaintext of every wrapping of 1 to 32 blocks. */
  lemma UnwrapAfterWrap(kek: Key, plain: seq<Half>)
    requires 1 <= |plain| <= 32
    ensures Unwrap(kek, Wrap(kek, plain)) == Some(Flat(plain))
  {
    hide Wrapped, Unwound, Flat, Load, Store, IV;
    var s := Regs(IV(), plain);
    LoadStore(Wrapped(kek, s, 6 * |plain|));
    UnwoundWrapped(kek, s, 0);
    NoSteps(kek, s);
  }

  /** Whenever unwrapping succeeds, wrapping its output again gives back its input. */
  lemma WrapAfterUnwrap(kek: Key, input: seq<Byte>)
    requires Unwrap(kek, input).Some?
    ensures var out := Unwrap(kek, input).value;
      |out| % 8 == 0 && 8 <= |out| <= 256 && Wrap(kek, Blocks(out)) == input
  {
    hide Wrapped, Unwound, Flat, Blocks, Load, Store, IV;
    var s := Load(input);
    var u := Unwound(kek, s, 0);
    BlocksFlat(u.r);
    WrappedUnwound(kek, s, 6 * |s.r|);
    NotUnwound(kek, s);
    StoreLoad(input);
  }

  // ---------- the kernel's loops ----------

  lemma {:induction false} ShiftMore(t: nat, i: nat)
    ensures ShiftBytes(t, i + 1) == ShiftBytes(t, i) / 256
    decreases i
  {
    if i > 0 {
      ShiftMore(t / 256, i - 1);
    }
  }

  /** The counter loop of `aes_unwrap_128`; it stops early once the rest of the counter is zero. */
  method XorCounter(block: array<Byte>, counter: nat)
    requires block.Length == 16
    modifies block
    ensures block[..8] == AddCounter(old(block[..8]), counter) && block[8..] == old(block[8..])
  {
    hide Sum2, ByteOf, ShiftBytes;
    var k, t := 7, counter;
    assert ShiftBytes(counter, 0) == counter by { ShiftNone(counter); }
    while k >= 0 && t != 0
      invariant -1 <= k <= 7 && t == ShiftBytes(counter, 7 - k)
      invariant forall j :: k < j < 8 ==> block[j] == Sum2(old(block[j]), ByteOf(ShiftBytes(counter, 7 - j)))
      invariant forall j :: 0 <= j <= k ==> block[j] == old(block[j])
      invariant block[8..] == old(block[8..])
    {
      block[k] := Sum2(block[k], ByteOf(t));
      ShiftMore(counter, 7 - k);
      t := t / 256;
      k := k - 1;
    }
    forall j | 0 <= j < 8 ensures block[j] == Sum2(old(block[j]), ByteOf(ShiftBytes(counter, 7 - j))) {
      if j <= k {
        NothingLeft(counter, 7 - k, 7 - j);
        Zero(old(block[j]));
      }
    }
  }

  lemma ShiftNone(t: nat)
    ensures ShiftBytes(t, 0) == t
  {
  }

  lemma {:induction false} NothingLeft(t: nat, i: nat, k: nat)
    requires i <= k && ShiftBytes(t, i) == 0
    ensures ByteOf(ShiftBytes(t, k)) == 0
    decreases k - i
  {
    if i < k {
      ShiftMore(t, i);
      NothingLeft(t, i + 1, k);
    }
  }

  lemma QuotientUnique(n: nat, q: nat, i: nat)
    requires i < n
    ensures (n * q + i) % n == i
  {
    var x := n * q + i;
    var d := q - x / n;
    assert x == n * (x / n) + x % n;
    assert n * d == x % n - i;
    assert d >= 1 ==> n * d >= n;
    assert d <= -1 ==> n * d + n <= 0;
  }

  lemma StepIndex(n: nat, j: nat, i: nat)
    requires i < n && j < 6
    ensures (n * j + i) % n == i && n * j + i < 6 * n
  {
    QuotientUnique(n, j, i);
    assert n * j + n <= 6 * n;
  }

  /** One pass of the inner loop of `aes_unwrap_128`. */
  method UnwrapOnce(kek: seq<Byte>, a: Half, r: array<Half>, n: nat, j: nat, i: nat, ghost s: Regs, ghost k: nat) returns (a': Half)
    requires |kek| == 16 && i < n <= r.Length && j < 6 && |s.r| == n
    requires k == n * j + i && k < 6 * n && k % n == i
    requires Regs(a, r[..n]) == Unwound(kek, s, k + 1)
    modifies r
    ensures Regs(a', r[..n]) == Unwound(kek, s, k)
  {
    hide AddCounter, InvCipher;
    ghost var w := Unwound(kek, s, k + 1);
    assert w.r[i] == r[i];
    var counter := n * j + i + 1;
    var ri := r[i];
    var block := new Byte[16](k requires 0 <= k < 16 => if k < 8 then a[k] else ri[k - 8]);
    assert block[..8] == a && block[8..] == ri;
    XorCounter(block, counter);
    assert block[..] == Join(AddCounter(a, counter), ri);
    var plain := DecryptBlock(kek, block[..]);
    a' := plain[..8];
    r[i] := plain[8..];
    assert r[..n] == w.r[i := plain[8..]];
  }

  /** The two nested loops of `aes_unwrap_128`. */
  method UnwrapLoops(kek: seq<Byte>, a: Half, r: array<Half>, n: nat) returns (a': Half)
    requires |kek| == 16 && 1 <= n <= r.Length
    modifies r
    ensures Regs(a', r[..n]) == Unwound(kek, Regs(a, old(r[..n])), 0)
  {
    hide UnwrapStep, Unwound;
    ghost var s := Regs(a, r[..n]);
    NotUnwound(kek, s);
    a' := a;
    for j := 6 downto 0
      invariant n * j <= 6 * n && Regs(a', r[..n]) == Unwound(kek, s, n * j)
    {
      assert n * j + n == n * (j + 1);
      for i := n downto 0
        invariant n * j + i <= 6 * n && Regs(a', r[..n]) == Unwound(kek, s, n * j + i)
      {
        StepIndex(n, j, i);
        a' := UnwrapOnce(kek, a', r, n, j, i, s, n * j + i);
      }
    }
  }

  method LoadBlocks(input: seq<Byte>, n: nat) returns (r: array<Half>)
    requires |input| == 8 * (n + 1) && n <= 32
    ensures fresh(r) && r.Length == 32 && r[..n] == Blocks(input[8..])
  {
    r := new Half[32];
    for i := 0 to n
      invariant forall k :: 0 <= k < i ==> r[k] == input[8..][8 * k..8 * k + 8]
    {
      r[i] := input[8 + 8 * i..16 + 8 * i];
    }
    BlocksAt(input[8..], r[..n]);
  }

  method StoreBlocks(r: array<Half>, n: nat) returns (out: seq<Byte>)
    requires n <= r.Length
    ensures out == Flat(r[..n])
  {
    hide Flat;
    out := [];
    assert Flat(r[..0]) == [];
    for i := 0 to n
      invariant out == Flat(r[..i])
    {
      FlatMore(r[..i], r[i]);
      assert r[..i + 1] == r[..i] + [r[i]];
      out := out + r[i];
    }
  }

  /** `aes_unwrap_128`. */
  method Unwrap128(kek: seq<Byte>, input: seq<Byte>) returns (result: Option<seq<Byte>>)
    requires |kek| == 16
    ensures result == Unwrap(kek, input)
  {
    hide Unwound, Flat, IV;
    var inLen := |input|;
    if inLen < 16 || inLen % 8 != 0 {
      return None;
    }
    var n := inLen / 8 - 1;
    if n <= 0 || n > 32 {
      return None;
    }
    var a := input[..8];
    var r := LoadBlocks(input, n);
    a := UnwrapLoops(kek, a, r, n);
    if a != IV() {
      return None;
    }
    var out := StoreBlocks(r, n);
    result := Some(out);
  }

  lemma NotUnwound(kek: Key, s: Regs)
    requires s.r != []
    ensures Unwound(kek, s, 6 * |s.r|) == s
  {
  }

  lemma {:induction false} BlocksAt(s: seq<Byte>, b: seq<Half>)
    requires |s| == 8 * |b| && forall k :: 0 <= k < |b| ==> b[k] == s[8 * k..8 * k + 8]
    ensures |s| % 8 == 0 && Blocks(s) == b
    decreases |b|
  {
    if b != [] {
      forall k | 0 <= k < |b| - 1 ensures b[1..][k] == s[8..][8 * k..8 * k + 8] {
        assert b[1..][k] == b[k + 1];
        assert s[8..][8 * k..8 * k + 8] == s[8 * (k + 1)..8 * (k + 1) + 8];
      }
      BlocksAt(s[8..], b[1..]);
    }
  }

  lemma {:induction false} FlatMore(b: seq<Half>, c: Half)
    ensures Flat(b + [c]) == Flat(b) + c
    decreases |b|
  {
    if b == [] {
      assert [c][1..] == [];
      assert b + [c] == [c];
    } else {
      FlatMore(b[1..], c);
      assert (b + [c])[1..] == b[1..] + [c];
    }
  }
}
