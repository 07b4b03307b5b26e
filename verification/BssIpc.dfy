/**
 The list of networks crossing from the kernel to `rtw88ctl`: the serializer of the one side
 and the parser of the other.  Both sides run on the same little-endian machine.
 */
module BssIpc {
  type U8 = x: int | 0 <= x < 256
  type I16 = x: int | -0x8000 <= x < 0x8000
  type U32 = x: int | 0 <= x < 0x1_0000_0000
  type Ssid = s: seq<U8> | |s| < 256
  type Bssid = s: seq<U8> | |s| == 6 witness [0, 0, 0, 0, 0, 0]

  datatype Bss = Bss(ssid: Ssid, bssid: Bssid, rssi: I16, channel: U8, cipher: U32)

  // ---------- numbers as bytes ----------

  function Le32(x: U32): (b: seq<U8>)
    ensures |b| == 4
  {
    [x % 256, x / 256 % 256, x / 0x1_0000 % 256, x / 0x100_0000]
  }

  function FromLe32(b: seq<U8>): U32
    requires |b| == 4
  {
    var b0: int, b1: int, b2: int, b3: int := b[0], b[1], b[2], b[3];
    b0 + 256 * b1 + 0x1_0000 * b2 + 0x100_0000 * b3
  }

  lemma Le32RoundTrip(x: U32)
    ensures FromLe32(Le32(x)) == x
  {
  }

  /** A signed number, high byte first, as its two bytes in two's complement. */
  function Be16(x: I16): (b: seq<U8>)
    ensures |b| == 2
  {
    [x / 256 % 256, x % 256]
  }

  function FromBe16(b: seq<U8>): I16
    requires |b| == 2
  {
    var hi: int, lo: int := b[0], b[1];
    var v := 256 * hi + lo;
    if v < 0x8000 then v else v - 0x1_0000
  }

  lemma Be16RoundTrip(x: I16)
    ensures FromBe16(Be16(x)) == x
  {
  }

  // ---------- one entry ----------

  function Entry(b: Bss): (e: seq<U8>)
    ensures |e| == 14 + |b.ssid|
  {
    [|b.ssid|] + b.ssid + b.bssid + Be16(b.rssi) + [b.channel] + Le32(b.cipher)
  }

  /** The fields that the parser copies out of an entry with a name of `n` bytes. */
  function Decode(e: seq<U8>, n: nat): Bss
    requires n < 256 && |e| == 14 + n
  {
    Bss(e[1..n + 1], e[n + 1..n + 7], FromBe16(e[n + 7..n + 9]), e[n + 9], FromLe32(e[n + 10..n + 14]))
  }

  lemma EntryParts(b: Bss)
    ensures var e, n := Entry(b), |b.ssid|;
      && e[0] == n && e[1..n + 1] == b.ssid && e[n + 1..n + 7] == b.bssid
      && e[n + 7..n + 9] == Be16(b.rssi) && e[n + 9] == b.channel && e[n + 10..n + 14] == Le32(b.cipher)
  {
    hide Be16, Le32;
  }

  function LowFirst(a: int, b: int, c: int, d: int): int { a + 256 * b + 0x1_0000 * c + 0x100_0000 * d }

  function LowLast(a: int, b: int): int { 256 * a + b }

  /** An entry byte by byte: length, name, BSSID, strength with the high byte first, channel, cipher with the low byte first. */
  lemma EntryBytes(b: Bss)
    ensures var e, n := Entry(b), |b.ssid|;
      && |e| == n + 14 && e[0] == n && e[n + 9] == b.channel
      && (forall k :: 0 <= k < n ==> e[1 + k] == b.ssid[k]) && (forall k :: 0 <= k < 6 ==> e[n + 1 + k] == b.bssid[k])
      && LowLast(e[n + 7], e[n + 8]) == (if b.rssi < 0 then b.rssi + 0x1_0000 else b.rssi)
      && LowFirst(e[n + 10], e[n + 11], e[n + 12], e[n + 13]) == b.cipher
  {
    var e, n := Entry(b), |b.ssid|;
    hide Entry, Be16, Le32;
    EntryParts(b);
    forall k | 0 <= k < n ensures e[1 + k] == b.ssid[k] {
      assert e[1..n + 1][k] == b.ssid[k];
    }
    forall k | 0 <= k < 6 ensures e[n + 1 + k] == b.bssid[k] {
      assert e[n + 1..n + 7][k] == b.bssid[k];
    }
    assert e[n + 7] == e[n + 7..n + 9][0] && e[n + 8] == e[n + 7..n + 9][1];
    var c := e[n + 10..n + 14];
    assert e[n + 10] == c[0] && e[n + 11] == c[1] && e[n + 12] == c[2] && e[n + 13] == c[3];
    NumberBytes(b.rssi, b.cipher);
  }

  lemma NumberBytes(x: I16, y: U32)
    ensures LowLast(Be16(x)[0], Be16(x)[1]) == if x < 0 then x + 0x1_0000 else x
    ensures LowFirst(Le32(y)[0], Le32(y)[1], Le32(y)[2], Le32(y)[3]) == y
  {
    Be16RoundTrip(x);
    Le32RoundTrip(y);
  }

  lemma DecodeEntry(b: Bss)
    ensures Decode(Entry(b), |b.ssid|) == b
  {
    hide Be16, Le32, FromBe16, FromLe32, Entry;
    EntryParts(b);
    Be16RoundTrip(b.rssi);
    Le32RoundTrip(b.cipher);
  }

  // ---------- the list ----------

  function Entries(list: seq<Bss>): seq<U8> {
    if list == [] then [] else Entry(list[0]) + Entries(list[1..])
  }

  /** How many leading entries fit into `room` bytes. */
  function Fitting(list: seq<Bss>, room: int): (k: nat)
    ensures k <= |list|
  {
    if list == [] || 14 + |list[0].ssid| > room then 0 else 1 + Fitting(list[1..], room - 14 - |list[0].ssid|)
  }

  /** No longer prefix would fit. */
  lemma {:induction false} FittingIsLongest(list: seq<Bss>, room: nat, k: nat)
    requires k <= |list|
    ensures |Entries(list[..k])| <= room <==> k <= Fitting(list, room)
  {
    hide Entry;
    if k > 0 {
      var size := 14 + |list[0].ssid|;
      assert list[..k][1..] == list[1..][..k - 1];
      if size <= room {
        FittingIsLongest(list[1..], room - size, k - 1);
      }
    }
  }

  const MAX_REPLY := 4095

  /** The reply: its length, then the entries that fit; nothing at all in less than four bytes. */
  function Reply(list: seq<Bss>, len: nat): (r: seq<U8>)
    ensures |r| <= len && |r| <= MAX_REPLY
  {
    var max := if len > MAX_REPLY then MAX_REPLY else len;
    if max < 4 then []
    else
      var k := Fitting(list, max - 4);
      FittingIsLongest(list, max - 4, k);
      var entries := Entries(list[..k]);
      Le32(4 + |entries|) + entries
  }

  // ---------- the parser ----------

  /** The reply holds its own length, low byte first, and the entries of as many networks as fit into the buffer and 4095 bytes. */
  lemma ReplyBytes(list: seq<Bss>, len: nat) returns (k: nat)
    requires len >= 4
    ensures var r, max := Reply(list, len), if len > 4095 then 4095 else len;
      && 4 <= |r| <= max && LowFirst(r[0], r[1], r[2], r[3]) == |r|
      && k <= |list| && r[4..] == Entries(list[..k])
      && (k < |list| ==> 4 + |Entries(list[..k + 1])| > max)
  {
    hide Le32, Entries, Fitting;
    var max := if len > MAX_REPLY then MAX_REPLY else len;
    k := Fitting(list, max - 4);
    FittingIsLongest(list, max - 4, k);
    if k < |list| {
      FittingIsLongest(list, max - 4, k + 1);
    }
    var n := 4 + |Entries(list[..k])|;
    NumberBytes(0, n);
    assert Reply(list, len) == Le32(n) + Entries(list[..k]);
  }

  function ParseEntries(b: seq<U8>): seq<Bss> {
    if b == [] then []
    else
      var n: int := b[0];
      if |b| < 14 + n then []
      else [Decode(b[..14 + n], n)] + ParseEntries(b[14 + n..])
  }

  function Parse(reply: seq<U8>): seq<Bss> {
    if |reply| < 4 then []
    else
      var explicit := FromLe32(reply[..4]);
      var end := if explicit > |reply| then |reply| else explicit;
      if end < 4 then [] else ParseEntries(reply[4..end])
  }

  const NAME_ROOM := 33

  /** The array that a name is copied into; it starts out as zeros. */
  function InArray(name: seq<U8>): seq<U8>
    requires |name| <= NAME_ROOM
  {
    name + seq(NAME_ROOM - |name|, _ => 0)
  }

  /** The copy stays inside the array, and the array then holds a terminated string. */
  predicate NameFits(name: seq<U8>) { |name| <= NAME_ROOM && 0 in InArray(name) }

  lemma NameFitsExactly(name: seq<U8>)
    ensures NameFits(name) <==> |name| < NAME_ROOM || (|name| == NAME_ROOM && 0 in name)
  {
    if |name| < NAME_ROOM {
      assert InArray(name)[|name|] == 0;
    }
  }

  /** Every name that the parser reaches fits its array. */
  predicate EntriesFit(b: seq<U8>) {
    b == [] ||
    var n: int := b[0];
    |b| < 14 + n || (NameFits(b[1..1 + n]) && EntriesFit(b[14 + n..]))
  }

  predicate NamesFit(reply: seq<U8>) {
    |reply| < 4 ||
    var explicit := FromLe32(reply[..4]);
    var end := if explicit > |reply| then |reply| else explicit;
    end < 4 || EntriesFit(reply[4..end])
  }

  lemma {:induction false} ParseOfEntries(list: seq<Bss>)
    ensures ParseEntries(Entries(list)) == list
  {
    hide Entry, Decode;
    if list != [] {
      var e, rest := Entry(list[0]), Entries(list[1..]);
      var b := e + rest;
      EntryParts(list[0]);
      DecodeEntry(list[0]);
      ParseOfEntries(list[1..]);
      assert b[..14 + |list[0].ssid|] == e && b[14 + |list[0].ssid|..] == rest;
    }
  }

  /** `rtw88ctl` shows exactly the longest prefix of the list that fits the buffer, every field intact. */
  lemma RoundTrip(list: seq<Bss>, len: nat)
    ensures Parse(Reply(list, len)) == if len < 4 then [] else list[..Fitting(list, (if len > MAX_REPLY then MAX_REPLY else len) - 4)]
  {
    hide Le32, FromLe32, Entries, ParseEntries;
    var r := Reply(list, len);
    if len >= 4 {
      var max := if len > MAX_REPLY then MAX_REPLY else len;
      var k := Fitting(list, max - 4);
      var entries := Entries(list[..k]);
      FittingIsLongest(list, max - 4, k);
      assert r[..4] == Le32(4 + |entries|) && r[4..|r|] == entries;
      Le32RoundTrip(4 + |entries|);
      ParseOfEntries(list[..k]);
    }
  }

  // ---------- the two loops ----------

  lemma {:induction false} EntriesFitExactly(list: seq<Bss>)
    ensures EntriesFit(Entries(list)) <==> forall i :: 0 <= i < |list| ==> NameFits(list[i].ssid)
  {
    hide Entry, NameFits;
    if list != [] {
      var e, rest := Entry(list[0]), Entries(list[1..]);
      var b := e + rest;
      EntryParts(list[0]);
      EntriesFitExactly(list[1..]);
      assert b[1..1 + |list[0].ssid|] == e[1..1 + |list[0].ssid|] == list[0].ssid;
      assert b[14 + |list[0].ssid|..] == rest;
      assert (forall i :: 0 <= i < |list| ==> NameFits(list[i].ssid)) <==>
             NameFits(list[0].ssid) && forall i :: 0 <= i < |list[1..]| ==> NameFits(list[1..][i].ssid) by {
        assert forall i :: 0 <= i < |list[1..]| ==> list[1..][i] == list[i + 1];
        assert forall i :: 1 <= i < |list| ==> list[i] == list[1..][i - 1];
      }
    }
  }

  /** A reply of the driver is safe to parse exactly if the names in it fit; it has at most 32 bytes in a name, and those do. */
  lemma ReplyNamesFit(list: seq<Bss>, len: nat)
    ensures NamesFit(Reply(list, len)) <==>
            len < 4 || forall i :: 0 <= i < Fitting(list, (if len > MAX_REPLY then MAX_REPLY else len) - 4) ==> NameFits(list[i].ssid)
  {
    hide Le32, FromLe32, Entries, EntriesFit;
    var r := Reply(list, len);
    if len >= 4 {
      var max := if len > MAX_REPLY then MAX_REPLY else len;
      var k := Fitting(list, max - 4);
      var entries := Entries(list[..k]);
      FittingIsLongest(list, max - 4, k);
      assert r[..4] == Le32(4 + |entries|) && r[4..|r|] == entries;
      Le32RoundTrip(4 + |entries|);
      EntriesFitExactly(list[..k]);
    }
  }

  /** A reply with one name of 33 bytes and no zero in it: it fills the array, and no terminator is left. */
  lemma LongNameDoesNotFit() returns (list: seq<Bss>)
    ensures |list| == 1 && |list[0].ssid| == NAME_ROOM && !NamesFit(Reply(list, MAX_REPLY))
  {
    list := [Bss(seq(NAME_ROOM, _ => 0x41), [0, 0, 0, 0, 0, 0], 0, 1, 0)];
    NameFitsExactly(list[0].ssid);
    ReplyNamesFit(list, MAX_REPLY);
  }

  method CopyAt(buf: array<U8>, at: nat, src: seq<U8>)
    requires at + |src| <= buf.Length
    modifies buf
    ensures buf[..] == old(buf[..at]) + src + old(buf[at + |src|..])
  {
    forall k | 0 <= k < |src| {
      buf[at + k] := src[k];
    }
  }

  lemma EntriesMore(list: seq<Bss>, i: nat)
    requires i < |list|
    ensures Entries(list[..i + 1]) == Entries(list[..i]) + Entry(list[i])
    decreases i
  {
    hide Entry;
    if i > 0 {
      EntriesMore(list[1..], i - 1);
      assert list[..i + 1][1..] == list[1..][..i] && list[..i][1..] == list[1..][..i - 1];
    } else {
      assert list[..1][1..] == [];
      assert list[..0] == [];
    }
  }

  lemma {:induction false} FittingFrom(list: seq<Bss>, room: int, i: nat)
    requires i <= |list| && |Entries(list[..i])| <= room
    ensures Fitting(list, room) == i + Fitting(list[i..], room - |Entries(list[..i])|)
    decreases i
  {
    hide Entry;
    if i == 0 {
      assert list[0..] == list && list[..0] == [];
    } else {
      var size := 14 + |list[0].ssid|;
      assert list[..i][1..] == list[1..][..i - 1] && list[1..][i - 1..] == list[i..];
      FittingFrom(list[1..], room - size, i - 1);
    }
  }

  /** The loop stops at the longest prefix that fits. */
  lemma ReplyStops(list: seq<Bss>, len: nat, max: nat, i: nat)
    requires max == (if len > MAX_REPLY then MAX_REPLY else len) && max >= 4
    requires i <= |list| && 4 + |Entries(list[..i])| <= max
    requires i < |list| ==> 4 + |Entries(list[..i])| + 14 + |list[i].ssid| > max
    ensures Reply(list, len) == Le32(4 + |Entries(list[..i])|) + Entries(list[..i])
  {
    hide Entries, Fitting, Le32;
    FittingFrom(list, max - 4, i);
    StopsThere(list, max - 4 - |Entries(list[..i])|, i);
  }

  lemma Spliced(head: seq<U8>, mid: seq<U8>, was: seq<U8>, src: seq<U8>)
    requires |head| + |mid| + |src| <= |was|
    ensures var at := |head| + |mid|;
      var s := head + mid + was[at..];
      |s| == |was| && s[..at] + src + s[at + |src|..] == head + (mid + src) + was[at + |src|..]
  {
    var at := |head| + |mid|;
    var s := head + mid + was[at..];
    assert s[..at] == head + mid;
    assert s[at + |src|..] == was[at + |src|..];
  }

  lemma Headed(head: seq<U8>, rest: seq<U8>, src: seq<U8>)
    requires |src| == |head|
    ensures (head + rest)[..0] + src + (head + rest)[|src|..] == src + rest
  {
    assert (head + rest)[|src|..] == rest;
  }

  /** The loop of `cmdGetBSSList`. */
  method FillEntries(list: seq<Bss>, buf: array<U8>, max: nat) returns (written: nat, ghost i: nat)
    requires 4 <= max <= buf.Length
    modifies buf
    ensures i <= |list| && written == 4 + |Entries(list[..i])| && written <= max
    ensures i < |list| ==> written + 14 + |list[i].ssid| > max
    ensures buf[..] == old(buf[..4]) + Entries(list[..i]) + old(buf[written..])
  {
    hide Entry, Entries;
    written := 4;
    var k := 0;
    ghost var was := buf[..];
    NoEntries(list);
    while k < |list|
      invariant k <= |list| && 4 <= written <= max && written == 4 + |Entries(list[..k])|
      invariant buf[..] == was[..4] + Entries(list[..k]) + was[written..]
    {
      var entrySize := 14 + |list[k].ssid|;
      if written + entrySize > max {
        break;
      }
      EntriesMore(list, k);
      Spliced(was[..4], Entries(list[..k]), was, Entry(list[k]));
      CopyAt(buf, written, Entry(list[k]));
      written := written + entrySize;
      k := k + 1;
    }
    i := k;
  }

  /** `cmdGetBSSList`: the reply in the front of the buffer, the rest of it untouched. */
  method GetBssList(list: seq<Bss>, buf: array<U8>, len: nat) returns (written: nat)
    requires len <= buf.Length
    modifies buf
    ensures written == |Reply(list, len)| && written <= buf.Length
    ensures buf[..] == Reply(list, len) + old(buf[written..])
  {
    hide Entries, Fitting, Le32;
    var max := if len > MAX_REPLY then MAX_REPLY else len;
    if max < 4 {
      return 0;
    }
    ghost var was, i := buf[..], 0;
    written, i := FillEntries(list, buf, max);
    ReplyStops(list, len, max, i);
    hide Reply;
    ghost var filled := buf[..];
    CopyAt(buf, 0, Le32(written));
    HeaderWritten(was[..4], Entries(list[..i]), was[written..], Le32(written), filled);
  }

  lemma HeaderWritten(first: seq<U8>, entries: seq<U8>, rest: seq<U8>, len: seq<U8>, filled: seq<U8>)
    requires |first| == |len| && filled == first + entries + rest
    ensures filled[..0] + len + filled[|len|..] == (len + entries) + rest
  {
    Headed(first, entries + rest, len);
    assert filled == first + (entries + rest);
  }

  lemma NoEntries(list: seq<Bss>)
    ensures Entries(list[..0]) == []
  {
  }

  lemma StopsThere(list: seq<Bss>, room: int, i: nat)
    requires i <= |list| && (i < |list| ==> 14 + |list[i].ssid| > room)
    ensures Fitting(list[i..], room) == 0
  {
  }

  lemma ParseFirst(b: seq<U8>)
    requires b != []
    ensures var n: int := b[0];
      ParseEntries(b) == if |b| < 14 + n then [] else [Decode(b[..14 + n], n)] + ParseEntries(b[14 + n..])
  {
    hide Decode;
  }

  lemma FitFirst(b: seq<U8>)
    requires b != []
    ensures var n: int := b[0];
      EntriesFit(b) <==> |b| < 14 + n || (NameFits(b[1..1 + n]) && EntriesFit(b[14 + n..]))
  {
    hide NameFits;
  }

  /** How `%s` reads the array: up to the first zero.  Without one it would read on behind the array. */
  method StringEnd(ssid: array<U8>) returns (m: nat)
    ensures m <= ssid.Length && 0 !in ssid[..m]
    ensures m < ssid.Length <==> 0 in ssid[..]
    ensures m < ssid.Length ==> ssid[m] == 0
  {
    m := 0;
    while m < ssid.Length && ssid[m] != 0
      invariant m <= ssid.Length && forall k :: 0 <= k < m ==> ssid[k] != 0
    {
      m := m + 1;
    }
  }

  /** The body of the loop once a whole entry is there; the name goes through an array of 33 bytes. */
  method ParseEntry(e: seq<U8>, n: nat) returns (b: Bss, terminated: bool)
    requires n <= NAME_ROOM && |e| == 14 + n
    ensures b == Decode(e, n)
    ensures terminated <==> NameFits(e[1..1 + n])
  {
    hide FromBe16, FromLe32;
    var ssid := new U8[NAME_ROOM](_ => 0);
    forall k | 0 <= k < n {
      ssid[k] := e[1 + k];
    }
    assert ssid[..n] == e[1..n + 1];
    assert ssid[..] == InArray(e[1..n + 1]);
    b := Bss(ssid[..n], e[n + 1..n + 7], FromBe16(e[n + 7..n + 9]), e[n + 9], FromLe32(e[n + 10..n + 14]));
    var m := StringEnd(ssid);
    terminated := m < ssid.Length;
  }

  /** The loop of `cmd_list`; it stops at a name that does not fit. */
  method ParseLoop(buf: seq<U8>, end: nat) returns (list: seq<Bss>, safe: bool)
    requires 4 <= end <= |buf|
    ensures safe <==> EntriesFit(buf[4..end])
    ensures safe ==> list == ParseEntries(buf[4..end])
  {
    hide Decode, ParseEntries, EntriesFit, InArray;
    list, safe := [], true;
    var p := 4;
    while p + 1 <= end
      invariant safe && 4 <= p <= end
      invariant ParseEntries(buf[4..end]) == list + ParseEntries(buf[p..end])
      invariant EntriesFit(buf[4..end]) <==> EntriesFit(buf[p..end])
      decreases end - p
    {
      var ssidLen: int := buf[p];
      ghost var b := buf[p..end];
      ParseFirst(b);
      FitFirst(b);
      if p + 1 + ssidLen + 6 + 2 + 1 + 4 > end {
        return;
      }
      Slices(buf, p, end, 14 + ssidLen);
      assert buf[p..p + 14 + ssidLen][1..1 + ssidLen] == b[1..1 + ssidLen];
      if ssidLen > NAME_ROOM {
        safe := false;
        return;
      }
      var bss, terminated := ParseEntry(buf[p..p + 14 + ssidLen], ssidLen);
      if !terminated {
        safe := false;
        return;
      }
      list := list + [bss];
      p := p + 14 + ssidLen;
    }
    NothingToParse();
    assert buf[p..end] == [];
  }

  /**
   The parser inside `cmd_list`, on any bytes that came back.  It stops with `safe` false at a
   name that overruns the array or leaves it without a terminator; what the tool does from there on is undefined.
   */
  method ParseList(buf: seq<U8>) returns (list: seq<Bss>, safe: bool)
    ensures safe <==> NamesFit(buf)
    ensures safe ==> list == Parse(buf)
  {
    hide FromLe32, ParseEntries, EntriesFit;
    var len := |buf|;
    list, safe := [], true;
    if len >= 4 {
      var explicit := FromLe32(buf[..4]);
      var end := if explicit > len then len else explicit;
      if end >= 4 {
        list, safe := ParseLoop(buf, end);
      }
    }
  }

  lemma Slices(buf: seq<U8>, p: nat, end: nat, k: nat)
    requires p + k <= end <= |buf|
    ensures buf[p..end][..k] == buf[p..p + k] && buf[p..end][k..] == buf[p + k..end]
  {
  }

  lemma NothingToParse()
    ensures ParseEntries([]) == [] && EntriesFit([])
  {
  }
}
