/**
 The example of FIPS 180 for a message of one block: the hash value of "abc".  It fixes every
 constant, rotation, function and byte order of the specification.
 */
module Sha1Vector {
  import opened Wrappers
  import opened Sha1Spec

  const ABC: seq<Byte> := [0x61, 0x62, 0x63]

  ghost predicate FirstWords(m: seq<Byte>) {
    && |m| == 64
    && W(m, 0) == 0x61626380 && W(m, 1) == 0x00000000 && W(m, 2) == 0x00000000 && W(m, 3) == 0x00000000
    && W(m, 4) == 0x00000000 && W(m, 5) == 0x00000000 && W(m, 6) == 0x00000000 && W(m, 7) == 0x00000000
    && W(m, 8) == 0x00000000 && W(m, 9) == 0x00000000 && W(m, 10) == 0x00000000 && W(m, 11) == 0x00000000
    && W(m, 12) == 0x00000000 && W(m, 13) == 0x00000000 && W(m, 14) == 0x00000000 && W(m, 15) == 0x00000018
  }

  lemma Padded()
    ensures FirstWords(Pad(ABC))
  {
    var m := Pad(ABC);
    LengthBytes();
    assert |m| == 64 && m[0] == 0x61 && m[1] == 0x62 && m[2] == 0x63 && m[3] == 0x80;
    assert forall i :: 4 <= i < 63 ==> m[i] == 0;
    assert m[63] == 0x18;
    FirstWord(m, 0, 0x61, 0x62, 0x63, 0x80);
    forall t | 1 <= t < 15 ensures W(m, t) == 0 {
      FirstWord(m, t, 0, 0, 0, 0);
      assert BigEndian(0, 0, 0, 0) == 0;
    }
    FirstWord(m, 15, 0, 0, 0, 0x18);
    hide Pad, W;
    assert BigEndian(0, 0, 0, 0) == 0 && BigEndian(0, 0, 0, 0x18) == 0x18 && BigEndian(0x61, 0x62, 0x63, 0x80) == 0x61626380;
  }

  lemma FirstWord(m: seq<Byte>, t: nat, a: Byte, b: Byte, c: Byte, d: Byte)
    requires |m| == 64 && t < 16
    requires m[4 * t] == a && m[4 * t + 1] == b && m[4 * t + 2] == c && m[4 * t + 3] == d
    ensures W(m, t) == BigEndian(a, b, c, d)
  {
    hide BigEndian;
  }

  lemma LengthBytes()
    ensures BytesOf(24, 8) == [0, 0, 0, 0, 0, 0, 0, 0x18]
  {
    assert ByteOf(0) == 0 && ByteOf(24) == 0x18;
    forall k | 1 <= k < 8 ensures ShiftBytes(24, k) == 0 {
      NoByte(24, k);
    }
    var b := BytesOf(24, 8);
    forall i | 0 <= i < 7 ensures b[i] == 0 {
      assert ShiftBytes(24, 7 - i) == 0;
    }
    assert b[7] == ByteOf(ShiftBytes(24, 0));
  }

  lemma Words16(m: seq<Byte>)
    requires FirstWords(m)
    ensures
      && W(m, 16) == 0xc2c4c700 && W(m, 17) == 0x00000000 && W(m, 18) == 0x00000030 && W(m, 19) == 0x85898e01
      && W(m, 20) == 0x00000000 && W(m, 21) == 0x00000060 && W(m, 22) == 0x0b131c03 && W(m, 23) == 0x00000030
      && W(m, 24) == 0x85898ec1 && W(m, 25) == 0x16263806 && W(m, 26) == 0x00000000 && W(m, 27) == 0x00000180
      && W(m, 28) == 0x2c4c700c && W(m, 29) == 0x000000f0 && W(m, 30) == 0x93afb507 && W(m, 31) == 0x5898e048
  {
  }

  lemma Words32(m: seq<Byte>)
    requires FirstWords(m)
    ensures
      && W(m, 32) == 0x8e9a9202 && W(m, 33) == 0x00000600 && W(m, 34) == 0xb131c0f0 && W(m, 35) == 0x16263bc6
      && W(m, 36) == 0x4ebed41e && W(m, 37) == 0x626380a1 && W(m, 38) == 0x16263806 && W(m, 39) == 0x000018c0
      && W(m, 40) == 0xd2e138c4 && W(m, 41) == 0x00000f00 && W(m, 42) == 0x3afb5079 && W(m, 43) == 0x898e04e5
      && W(m, 44) == 0xe2ba3c2b && W(m, 45) == 0x000060c0 && W(m, 46) == 0x053a37cd && W(m, 47) == 0x74458547
  {
    Words16(m);
  }

  lemma Words48(m: seq<Byte>)
    requires FirstWords(m)
    ensures
      && W(m, 48) == 0xda9415ed && W(m, 49) == 0x26380a16 && W(m, 50) == 0x626383a1 && W(m, 51) == 0x4ebf54de
      && W(m, 52) == 0x3835b44b && W(m, 53) == 0x0000f600 && W(m, 54) == 0x1e84c7a3 && W(m, 55) == 0x98e04d98
      && W(m, 56) == 0x651d16a0 && W(m, 57) == 0x62658ca1 && W(m, 58) == 0x458544d6 && W(m, 59) == 0x44584cb7
      && W(m, 60) == 0x7ba06619 && W(m, 61) == 0x6380aea2 && W(m, 62) == 0x0ae55269 && W(m, 63) == 0x627b49a1
  {
    Words32(m);
  }

  lemma Words64(m: seq<Byte>)
    requires FirstWords(m)
    ensures
      && W(m, 64) == 0x7cd45c9d && W(m, 65) == 0x000f0000 && W(m, 66) == 0xfb50753a && W(m, 67) == 0xec6765e8
      && W(m, 68) == 0xba3c2be2 && W(m, 69) == 0x0060c000 && W(m, 70) == 0x3a37cd05 && W(m, 71) == 0x458546f4
      && W(m, 72) == 0xb8599dd6 && W(m, 73) == 0x380a1a26 && W(m, 74) == 0x01e02203 && W(m, 75) == 0xe7cc3456
      && W(m, 76) == 0xe6e60b69 && W(m, 77) == 0x00f60a00 && W(m, 78) == 0x5795ef4f && W(m, 79) == 0x822e0879
  {
    Words48(m);
  }

  lemma Five(m: seq<Byte>, t: nat)
    requires |m| == 64
    ensures var r := Turns(INITIAL, m, t);
      var s := Turn(Turn(r, t, W(m, t)), t + 1, W(m, t + 1));
      Turns(INITIAL, m, t + 5) == Turn(Turn(Turn(s, t + 2, W(m, t + 2)), t + 3, W(m, t + 3)), t + 4, W(m, t + 4))
  {
    hide Turn, W;
    assert Turns(INITIAL, m, t + 1) == Turn(Turns(INITIAL, m, t), t, W(m, t));
    assert Turns(INITIAL, m, t + 2) == Turn(Turns(INITIAL, m, t + 1), t + 1, W(m, t + 1));
    assert Turns(INITIAL, m, t + 3) == Turn(Turns(INITIAL, m, t + 2), t + 2, W(m, t + 2));
    assert Turns(INITIAL, m, t + 4) == Turn(Turns(INITIAL, m, t + 3), t + 3, W(m, t + 3));
  }

  lemma Turns0(m: seq<Byte>)
    requires FirstWords(m)
    ensures Turns(INITIAL, m, 20) == Regs(0xfd9e1d7d, 0xdc64901d, 0x20aa99ca, 0xd3a49608, 0xc82f758b)
  {
    Words16(m);
    hide W, Turns;
    Five(m, 0);
    assert Turns(INITIAL, m, 5) == Regs(0xcfd499de, 0xcdd8e11b, 0x284e43c2, 0x626414db, 0xc045bf0c);
    Five(m, 5);
    assert Turns(INITIAL, m, 10) == Regs(0x8351f929, 0x4b6ae328, 0x27a301f5, 0x664f8c30, 0x0ff1f290);
    Five(m, 10);
    assert Turns(INITIAL, m, 15) == Regs(0x196bee77, 0x9128f695, 0x1181ed99, 0x18c623f9, 0x7ef6a7a2);
    Five(m, 15);
  }

  lemma Turns20(m: seq<Byte>)
    requires FirstWords(m)
    ensures Turns(INITIAL, m, 40) == Regs(0x32de1cba, 0x4c986405, 0xf718e5cf, 0x03d447f6, 0xf72eec32)
  {
    Turns0(m);
    Words16(m);
    Words32(m);
    hide W, Turns;
    Five(m, 20);
    assert Turns(INITIAL, m, 25) == Regs(0xc7567dc6, 0xd541f12d, 0x884a0d21, 0x0ce88eff, 0x868dec32);
    Five(m, 25);
    assert Turns(INITIAL, m, 30) == Regs(0xc5fbaf5d, 0x8370b52e, 0xd2aa1365, 0x6f8d7ef5, 0x12104ee9);
    Five(m, 30);
    assert Turns(INITIAL, m, 35) == Regs(0x21796ad4, 0x2c0ebc11, 0x811bea82, 0xcee1174c, 0xc499ed01);
    Five(m, 35);
  }

  lemma Turns40(m: seq<Byte>)
    requires FirstWords(m)
    ensures Turns(INITIAL, m, 60) == Regs(0x3f52de5a, 0x09d785fd, 0x3498bfd4, 0xf211824f, 0xd79915ab)
  {
    Turns20(m);
    Words32(m);
    Words48(m);
    hide W, Turns;
    Five(m, 40);
    assert Turns(INITIAL, m, 45) == Regs(0x40f28e09, 0xee1b1aaf, 0x5fc64f71, 0x25c28357, 0xff21f7b7);
    Five(m, 45);
    assert Turns(INITIAL, m, 50) == Regs(0x120731c5, 0xbaf39337, 0xafab40b2, 0x2806e11b, 0x8714787c);
    Five(m, 50);
    assert Turns(INITIAL, m, 55) == Regs(0x7b71f76d, 0x27e9f1d8, 0x792410db, 0x8e11eb59, 0x99076cb3);
    Five(m, 55);
  }

  lemma Turns60(m: seq<Byte>)
    requires FirstWords(m)
    ensures Turns(INITIAL, m, 80) == Regs(0x42541b35, 0x5738d5e1, 0x21834873, 0x681e6df6, 0xd8fdf6ad)
  {
    Turns40(m);
    Words48(m);
    Words64(m);
    hide W, Turns;
    Five(m, 60);
    assert Turns(INITIAL, m, 65) == Regs(0x19dfa7ac, 0x6b61c9e1, 0xed9b0082, 0x9523272c, 0xf5d5b051);
    Five(m, 65);
    assert Turns(INITIAL, m, 70) == Regs(0x3f2588c2, 0x497093c0, 0xde37534a, 0x030f7cad, 0x4405957e);
    Five(m, 70);
    assert Turns(INITIAL, m, 75) == Regs(0x5ee76897, 0x11793f6f, 0x3b6d0b79, 0xce616779, 0xf0667e31);
    Five(m, 75);
  }

  lemma FoldOfAbc()
    ensures Fold(INITIAL, Pad(ABC)) == Regs(0xa9993e36, 0x4706816a, 0xba3e2571, 0x7850c26c, 0x9cd0d89d)
  {
    var m := Pad(ABC);
    Padded();
    hide FirstWords, Pad;
    Turns60(m);
    hide Turns;
    assert |m| == 64 by { FirstIsBlock(m); }
    assert m[..0] == [] && m[0..] == m;
  }

  lemma FirstIsBlock(m: seq<Byte>)
    requires FirstWords(m)
    ensures |m| == 64
  {
  }

  /** The hash value of "abc". */
  lemma HashOfAbc()
    ensures Hash(ABC) == [0xa9, 0x99, 0x3e, 0x36, 0x47, 0x06, 0x81, 0x6a, 0xba, 0x3e,
                          0x25, 0x71, 0x78, 0x50, 0xc2, 0x6c, 0x9c, 0xd0, 0xd8, 0x9d]
  {
    FoldOfAbc();
    hide Fold, Pad;
    var d := Digest(Regs(0xa9993e36, 0x4706816a, 0xba3e2571, 0x7850c26c, 0x9cd0d89d));
    assert d[0] == 0xa9 && d[1] == 0x99 && d[2] == 0x3e && d[3] == 0x36 && d[4] == 0x47;
    assert d[5] == 0x06 && d[6] == 0x81 && d[7] == 0x6a && d[8] == 0xba && d[9] == 0x3e;
    assert d[10] == 0x25 && d[11] == 0x71 && d[12] == 0x78 && d[13] == 0x50 && d[14] == 0xc2;
    assert d[15] == 0x6c && d[16] == 0x9c && d[17] == 0xd0 && d[18] == 0xd8 && d[19] == 0x9d;
  }
}
