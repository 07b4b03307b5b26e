/**
 Keys from a passphrase: HMAC (section 2 of RFC 2104), PBKDF2 (section 5.2 of RFC 8018) and
 the pairwise key expansion of IEEE 802.11, over the kernel's SHA-1 context.
 */
module KeyDerivation {
  import opened Sha1Spec
  import opened Sha1Stream
  import opened Wrappers

  function XorWith(s: seq<Byte>, x: Byte): (r: seq<Byte>)
    ensures |r| == |s|
  {
    seq(|s|, i requires 0 <= i < |s| => s[i] ^ x)
  }

  function XorBytes(s: seq<Byte>, t: seq<Byte>): (r: seq<Byte>)
    requires |s| == |t|
    ensures |r| == |s|
  {
    seq(|s|, i requires 0 <= i < |s| => s[i] ^ t[i])
  }

  ghost function BlockKey(key: seq<Byte>): (k: seq<Byte>)
    ensures |k| == 64
  {
    var short := if |key| > 64 then Hash(key) else key;
    short + Zeros(64 - |short|)
  }

  ghost function Hmac(key: seq<Byte>, data: seq<Byte>): (mac: seq<Byte>)
    ensures |mac| == 20
  {
    Hash(XorWith(BlockKey(key), 0x5c) + Hash(XorWith(BlockKey(key), 0x36) + data))
  }

  /** The two pads byte by byte: the key, or the hash of a long one, under 0x36 inside and 0x5c outside, and those bytes behind it. */
  lemma HmacBytes(key: seq<Byte>, data: seq<Byte>) returns (inner: seq<Byte>, outer: seq<Byte>)
    ensures |inner| == |outer| == 64 && Hmac(key, data) == Hash(outer + Hash(inner + data))
    ensures var k := if |key| > 64 then Hash(key) else key;
      forall i :: 0 <= i < 64 ==> inner[i] == (if i < |k| then k[i] else 0) ^ 0x36 && outer[i] == (if i < |k| then k[i] else 0) ^ 0x5c
  {
    hide Hash;
    inner, outer := XorWith(BlockKey(key), 0x36), XorWith(BlockKey(key), 0x5c);
  }

  /** A message handed over in any pieces, as every caller of the context does. */
  method HashPieces(pieces: seq<seq<Byte>>) returns (digest: seq<Byte>)
    requires forall k :: 0 <= k < |pieces| ==> |Joined(pieces[..k])| % 64 + |pieces[k]| < TWO32
    requires 8 * |Joined(pieces)| < TWO64
    ensures digest == Hash(Joined(pieces))
  {
    hide Hash;
    var ctx := new Context();
    var k := 0;
    assert pieces[..0] == [];
    while k < |pieces|
      invariant k <= |pieces| && ctx.Holds(Joined(pieces[..k]))
      invariant fresh(ctx) && fresh(ctx.state) && fresh(ctx.buffer)
    {
      ctx.Update(pieces[k], Joined(pieces[..k]));
      assert pieces[..k + 1][..k] == pieces[..k];
      k := k + 1;
    }
    assert pieces[..k] == pieces;
    digest := ctx.Final(Joined(pieces));
  }

  function Joined(pieces: seq<seq<Byte>>): seq<Byte> {
    if pieces == [] then [] else Joined(pieces[..|pieces| - 1]) + pieces[|pieces| - 1]
  }

  lemma NothingJoined(pieces: seq<seq<Byte>>)
    ensures Joined(pieces[..0]) == []
  {
  }

  lemma JoinedOne(a: seq<Byte>)
    ensures Joined([a]) == a
  {
    assert [a][..0] == [];
  }

  lemma JoinedTwo(a: seq<Byte>, b: seq<Byte>)
    ensures Joined([a, b]) == a + b
    ensures Joined([a, b][..1]) == a
  {
    assert [a, b][..1] == [a];
    JoinedOne(a);
  }

  /** The loop of `kern_hmac_sha1` over its two pads. */
  method MaskPads(ipad: array<Byte>, opad: array<Byte>)
    requires ipad.Length == 64 && opad.Length == 64 && ipad != opad
    modifies ipad, opad
    ensures ipad[..] == XorWith(old(ipad[..]), 0x36) && opad[..] == XorWith(old(opad[..]), 0x5c)
  {
    for i := 0 to 64
      invariant forall k :: 0 <= k < i ==> ipad[k] == old(ipad[k]) ^ 0x36 && opad[k] == old(opad[k]) ^ 0x5c
      invariant forall k :: i <= k < 64 ==> ipad[k] == old(ipad[k]) && opad[k] == old(opad[k])
    {
      ipad[i] := ipad[i] ^ 0x36;
      opad[i] := opad[i] ^ 0x5c;
    }
  }

  /** `kern_hmac_sha1`. */
  method HmacSha1(key: seq<Byte>, data: seq<Byte>) returns (mac: seq<Byte>)
    requires |key| < TWO32 && |data| < TWO32
    ensures mac == Hmac(key, data)
  {
    hide Hash, XorWith, Joined;
    var short := key;
    if |key| > 64 {
      JoinedOne(key);
      NothingJoined([key]);
      short := HashPieces([key]);
    }
    var ipad, opad := new Byte[64](_ => 0), new Byte[64](_ => 0);
    assert ipad[|short|..] == Zeros(64 - |short|);
    assert opad[|short|..] == Zeros(64 - |short|);
    CopyInto(ipad, 0, short);
    CopyInto(opad, 0, short);
    assert ipad[..] == BlockKey(key) && opad[..] == BlockKey(key);
    hide BlockKey;
    MaskPads(ipad, opad);
    JoinedTwo(ipad[..], data);
    NothingJoined([ipad[..], data]);
    mac := HashPieces([ipad[..], data]);
    JoinedTwo(opad[..], mac);
    NothingJoined([opad[..], mac]);
    mac := HashPieces([opad[..], mac]);
  }

  // ---------- PBKDF2 ----------

  function BlockIndex(block: nat): seq<Byte> { BytesOf(block, 4) }

  ghost function U(pass: seq<Byte>, salt: seq<Byte>, block: nat, j: nat): (u: seq<Byte>)
    requires j > 0
    ensures |u| == 20
  {
    if j == 1 then Hmac(pass, salt + BlockIndex(block)) else Hmac(pass, U(pass, salt, block, j - 1))
  }

  /** The exclusive or of the first `c` iterates. */
  ghost function T(pass: seq<Byte>, salt: seq<Byte>, block: nat, c: nat): (t: seq<Byte>)
    requires c > 0
    ensures |t| == 20
  {
    if c == 1 then U(pass, salt, block, 1) else XorBytes(T(pass, salt, block, c - 1), U(pass, salt, block, c))
  }

  /** PBKDF2-HMAC-SHA1 with 4096 iterations and 32 bytes of output. */
  ghost function Pbkdf2(pass: seq<Byte>, salt: seq<Byte>): (key: seq<Byte>)
    ensures |key| == 32
  {
    T(pass, salt, 1, 4096) + T(pass, salt, 2, 4096)[..12]
  }

  /** The exclusive or of byte `i` of the first `c` of some byte strings. */
  ghost function XorAll(u: nat -> seq<Byte>, i: nat, c: nat): Byte
    requires forall j :: |u(j)| == 20
    requires i < 20
  {
    if c == 0 then 0 else XorAll(u, i, c - 1) ^ u(c)[i]
  }

  lemma {:induction false} TBytes(pass: seq<Byte>, salt: seq<Byte>, block: nat, u: nat -> seq<Byte>, i: nat, c: nat)
    requires forall j :: |u(j)| == 20
    requires u(1) == U(pass, salt, block, 1) && forall j :: 1 <= j < c ==> u(j + 1) == Hmac(pass, u(j))
    requires i < 20 && c > 0
    ensures u(c) == U(pass, salt, block, c)
    ensures T(pass, salt, block, c)[i] == XorAll(u, i, c)
  {
    hide Hmac;
    if c > 1 {
      TBytes(pass, salt, block, u, i, c - 1);
      assert u((c - 1) + 1) == Hmac(pass, u(c - 1));
    } else {
      assert XorAll(u, i, 1) == XorAll(u, i, 0) ^ u(1)[i];
      ZeroXor(u(1)[i]);
    }
  }

  lemma ZeroXor(b: Byte)
    ensures 0 ^ b == b
  {
  }

  lemma BlockNumbers()
    ensures BlockIndex(1) == [0, 0, 0, 1] && BlockIndex(2) == [0, 0, 0, 2]
  {
    forall n, i | 1 <= n <= 2 && 0 <= i < 4 ensures BytesOf(n, 4)[i] == if i == 3 then n as Byte else 0 {
      if i < 3 {
        NoByte(n, 3 - i);
      }
    }
    assert BytesOf(1, 4)[3] == 1 && BytesOf(2, 4)[3] == 2;
  }

  /**
   The key, byte by byte: 20 bytes of block 1 and 12 of block 2, each the exclusive or of 4096
   iterates, of which the first is the HMAC of the salt with the number of the block.
   */
  lemma PmkBytes(pass: seq<Byte>, salt: seq<Byte>, block: nat, u: nat -> seq<Byte>, i: nat)
    requires block == 1 || block == 2
    requires forall j :: |u(j)| == 20
    requires u(1) == Hmac(pass, salt + [0, 0, 0, block as Byte]) && forall j :: 1 <= j < 4096 ==> u(j + 1) == Hmac(pass, u(j))
    requires i < if block == 1 then 20 else 12
    ensures |Pbkdf2(pass, salt)| == 32 && Pbkdf2(pass, salt)[20 * (block - 1) + i] == XorAll(u, i, 4096)
  {
    hide Hmac, T, XorAll, BlockIndex;
    BlockNumbers();
    TBytes(pass, salt, block, u, i, 4096);
  }

  method Pbkdf2Block(pass: seq<Byte>, salt: seq<Byte>, block: nat) returns (t: seq<Byte>)
    requires |pass| < TWO32 && |salt| <= 120
    ensures t == T(pass, salt, block, 4096)
  {
    hide Hmac, BytesOf;
    var u := HmacSha1(pass, salt + BlockIndex(block));
    var acc := new Byte[20](i requires 0 <= i < 20 => u[i]);
    assert acc[..] == u;
    for iter := 1 to 4096
      invariant u == U(pass, salt, block, iter) && acc[..] == T(pass, salt, block, iter)
    {
      u := HmacSha1(pass, u);
      ghost var was := acc[..];
      for i := 0 to 20
        invariant forall k :: 0 <= k < i ==> acc[k] == was[k] ^ u[k]
        invariant forall k :: i <= k < 20 ==> acc[k] == was[k]
      {
        acc[i] := acc[i] ^ u[i];
      }
      assert acc[..] == XorBytes(was, u);
    }
    t := acc[..];
  }

  /** `derivePMK`: the salt is at most the first 120 bytes of the network name. */
  method DerivePmk(pass: seq<Byte>, ssid: seq<Byte>) returns (pmk: seq<Byte>)
    requires |pass| < TWO32
    ensures pmk == Pbkdf2(pass, if |ssid| > 120 then ssid[..120] else ssid)
  {
    hide T;
    var salt := if |ssid| > 120 then ssid[..120] else ssid;
    var t := Pbkdf2Block(pass, salt, 1);
    pmk := t[..20];
    t := Pbkdf2Block(pass, salt, 2);
    pmk := pmk + t[..12];
  }

  // ---------- the pairwise transient key ----------

  /** `memcmp(a, b, n) < 0`. */
  predicate Less(a: seq<Byte>, b: seq<Byte>)
    requires |a| == |b|
  {
    a != [] && (a[0] < b[0] || (a[0] == b[0] && Less(a[1..], b[1..])))
  }

  lemma {:induction false} LessIsTotal(a: seq<Byte>, b: seq<Byte>)
    requires |a| == |b|
    ensures !(Less(a, b) && Less(b, a))
    ensures !Less(a, b) && !Less(b, a) ==> a == b
  {
    if a != [] {
      LessIsTotal(a[1..], b[1..]);
      assert a == [a[0]] + a[1..] && b == [b[0]] + b[1..];
    }
  }

  /** The order is that of the first byte in which the two differ. */
  lemma {:induction false} LessAtDifference(a: seq<Byte>, b: seq<Byte>, k: nat)
    requires |a| == |b| && k <= |a| && a[..k] == b[..k]
    ensures k == |a| ==> !Less(a, b)
    ensures k < |a| && a[k] != b[k] ==> (Less(a, b) <==> a[k] < b[k])
    decreases k
  {
    if k > 0 {
      assert a[0] == a[..k][0] == b[0];
      assert a[1..][..k - 1] == a[..k][1..] == b[1..][..k - 1];
      LessAtDifference(a[1..], b[1..], k - 1);
    }
  }

  /** The characters of a string as bytes. */
  function Chars(text: string): (b: seq<Byte>)
    ensures |b| == |text|
  {
    seq(|text|, i requires 0 <= i < |text| => ByteOf(text[i] as int))
  }

  const LABEL: seq<Byte> := Chars("Pairwise key expansion")

  ghost function PrfBlocks(key: seq<Byte>, data: seq<Byte>, n: nat): (r: seq<Byte>)
    ensures |r| == 20 * n
  {
    if n == 0 then [] else PrfBlocks(key, data, n - 1) + Hmac(key, LABEL + [0] + data + [ByteOf(n - 1)])
  }

  /** The pseudo-random function of IEEE 802.11: as many blocks as needed, cut to 64 bytes. */
  ghost function Prf64(key: seq<Byte>, data: seq<Byte>): (r: seq<Byte>)
    ensures |r| == 64
  {
    PrfBlocks(key, data, 4)[..64]
  }

  function Ordered(a: seq<Byte>, b: seq<Byte>): seq<Byte>
    requires |a| == |b|
  {
    if Less(a, b) then a + b else b + a
  }

  ghost function Ptk(pmk: seq<Byte>, anonce: seq<Byte>, snonce: seq<Byte>, spa: seq<Byte>, aa: seq<Byte>): seq<Byte>
    requires |anonce| == |snonce| && |spa| == |aa|
  {
    Prf64(pmk, Ordered(spa, aa) + Ordered(snonce, anonce))
  }

  /** Both ends of the handshake derive the same key, whoever calls the other the authenticator. */
  lemma BothEndsAgree(pmk: seq<Byte>, anonce: seq<Byte>, snonce: seq<Byte>, spa: seq<Byte>, aa: seq<Byte>)
    requires |anonce| == |snonce| && |spa| == |aa|
    ensures Ptk(pmk, anonce, snonce, spa, aa) == Ptk(pmk, snonce, anonce, aa, spa)
  {
    hide Less, Prf64;
    LessIsTotal(spa, aa);
    LessIsTotal(snonce, anonce);
  }

  /** The bytes that are hashed: the two addresses, the lesser first, and then the two nonces in the same way. */
  lemma PtkData(pmk: seq<Byte>, anonce: seq<Byte>, snonce: seq<Byte>, spa: seq<Byte>, aa: seq<Byte>) returns (d: seq<Byte>)
    requires |anonce| == |snonce| == 32 && |spa| == |aa| == 6
    ensures |d| == 76 && Ptk(pmk, anonce, snonce, spa, aa) == Prf64(pmk, d)
    ensures (d[..6] == spa && d[6..12] == aa) || (d[..6] == aa && d[6..12] == spa)
    ensures (d[12..44] == snonce && d[44..] == anonce) || (d[12..44] == anonce && d[44..] == snonce)
    ensures !Less(d[6..12], d[..6]) && !Less(d[44..], d[12..44])
  {
    hide Less, Prf64;
    d := Ordered(spa, aa) + Ordered(snonce, anonce);
    OrderedParts(spa, aa);
    OrderedParts(snonce, anonce);
    hide Ordered;
    assert d[..6] == Ordered(spa, aa)[..6] && d[6..12] == Ordered(spa, aa)[6..];
    assert d[12..44] == Ordered(snonce, anonce)[..32] && d[44..] == Ordered(snonce, anonce)[32..];
  }

  lemma OrderedParts(a: seq<Byte>, b: seq<Byte>)
    requires |a| == |b|
    ensures var n, o := |a|, Ordered(a, b);
      |o| == 2 * n && ((o[..n] == a && o[n..] == b) || (o[..n] == b && o[n..] == a)) && !Less(o[n..], o[..n])
  {
    hide Less;
    LessIsTotal(a, b);
    LessIsTotal(b, b);
    assert (a + b)[..|a|] == a && (a + b)[|a|..] == b;
    assert (b + a)[..|a|] == b && (b + a)[|a|..] == a;
  }

  /** What the i-th block of the expansion is the HMAC of: the label, a zero, the data, and i. */
  lemma PrfInput(key: seq<Byte>, data: seq<Byte>, i: nat) returns (m: seq<Byte>)
    requires i < 4
    ensures |m| == 24 + |data| && m[22] == 0 && m[23..23 + |data|] == data && m[23 + |data|] == i as Byte
    ensures m[..22] == Chars("Pairwise key expansion")
    ensures Prf64(key, data)[20 * i..if i < 3 then 20 * i + 20 else 64] == Hmac(key, m)[..if i < 3 then 20 else 4]
  {
    hide Hmac;
    m := LABEL + [0] + data + [ByteOf(i)];
    PrfBlockAt(key, data, 4, i);
    hide Chars;
    var all := PrfBlocks(key, data, 4);
    assert all[20 * i..20 * i + 20] == Hmac(key, m);
    if i == 3 {
      assert all[..64][60..64] == all[60..80][..4];
    } else {
      assert all[..64][20 * i..20 * i + 20] == all[20 * i..20 * i + 20];
    }
  }

  lemma {:induction false} PrfBlockAt(key: seq<Byte>, data: seq<Byte>, n: nat, i: nat)
    requires i < n
    ensures PrfBlocks(key, data, n)[20 * i..20 * i + 20] == Hmac(key, LABEL + [0] + data + [ByteOf(i)])
  {
    hide Hmac;
    var before := PrfBlocks(key, data, n - 1);
    if i < n - 1 {
      PrfBlockAt(key, data, n - 1, i);
      assert PrfBlocks(key, data, n)[20 * i..20 * i + 20] == before[20 * i..20 * i + 20];
    }
  }

  /** `derivePTK`. */
  method DerivePtk(pmk: seq<Byte>, anonce: seq<Byte>, snonce: seq<Byte>, spa: seq<Byte>, aa: seq<Byte>)
    returns (ptk: seq<Byte>)
    requires |pmk| == 32 && |anonce| == |snonce| == 32 && |spa| == |aa| == 6
    ensures ptk == Ptk(pmk, anonce, snonce, spa, aa)
  {
    hide Hmac, Less;
    var macs := if Less(spa, aa) then spa + aa else aa + spa;
    var nonces := if Less(snonce, anonce) then snonce + anonce else anonce + snonce;
    var data := LABEL + [0] + (macs + nonces);
    hide ByteOf;
    ptk := [];
    for i := 0 to 4
      invariant ptk == if i < 4 then PrfBlocks(pmk, macs + nonces, i) else PrfBlocks(pmk, macs + nonces, i)[..64]
    {
      var hash := HmacSha1(pmk, data + [ByteOf(i)]);
      ptk := ptk + if i < 3 then hash else hash[..4];
    }
  }
}
