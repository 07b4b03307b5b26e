/**
 The list of networks that scans have found: one record for each BSSID, aged by scan
 generations.  The generation is a 32-bit counter that skips zero.
 */
module BssCache {
  import opened Wrappers

  type Bssid = nat

  /** A record; `info` stands for all that a beacon says besides its BSSID. */
  datatype Record = Record(bssid: Bssid, info: nat, lastSeen: nat)

  datatype Cache = Cache(list: seq<Record>, count: nat, generation: nat)

  /** A completed scan keeps the network the station is using, if any. */
  datatype Event = Beacon(bssid: Bssid, info: nat) | StartScan | EndScan(aborted: bool, target: Option<Bssid>)

  const TWO32 := 0x1_0000_0000

  function Find(list: seq<Record>, bssid: Bssid): (k: nat)
    ensures k <= |list|
    ensures k < |list| ==> list[k].bssid == bssid
    ensures forall j :: 0 <= j < k ==> list[j].bssid != bssid
  {
    if list == [] || list[0].bssid == bssid then 0 else 1 + Find(list[1..], bssid)
  }

  /** A known BSSID is replaced in place, a new one goes to the front. */
  function Insert(list: seq<Record>, r: Record): seq<Record> {
    var k := Find(list, r.bssid);
    if k < |list| then list[k := r] else [r] + list
  }

  predicate Stale(r: Record, generation: nat, target: Option<Bssid>) {
    target != Some(r.bssid) && (generation - r.lastSeen) % TWO32 > 3
  }

  function Fresh(list: seq<Record>, generation: nat, target: Option<Bssid>): seq<Record> {
    if list == [] then []
    else (if Stale(list[0], generation, target) then [] else [list[0]]) + Fresh(list[1..], generation, target)
  }

  function Touch(list: seq<Record>): (t: seq<Record>)
    ensures |t| == |list|
  {
    seq(|list|, i requires 0 <= i < |list| => list[i].(lastSeen := 1))
  }

  function Step(c: Cache, e: Event): Cache {
    match e
    case Beacon(b, info) =>
      var k := Find(c.list, b);
      Cache(Insert(c.list, Record(b, info, c.generation)), if k < |c.list| then c.count else c.count + 1, c.generation)
    case StartScan =>
      var g := (c.generation + 1) % TWO32;
      if g == 0 then Cache(Touch(c.list), c.count, 1) else c.(generation := g)
    case EndScan(aborted, target) =>
      if aborted then c
      else
        var f := Fresh(c.list, c.generation, target);
        Cache(f, if c.count < |c.list| - |f| then 0 else c.count - (|c.list| - |f|), c.generation)
  }

  // ---------- the list as a map ----------

  predicate Distinct(list: seq<Record>) {
    forall i, j :: 0 <= i < j < |list| ==> list[i].bssid != list[j].bssid
  }

  ghost predicate Inv(c: Cache) {
    && Distinct(c.list)
    && c.count == |c.list|
    && c.generation < TWO32
    && (forall i :: 0 <= i < |c.list| ==> c.list[i].lastSeen <= c.generation)
  }

  /** The record kept for a BSSID. */
  ghost function Lookup(list: seq<Record>, b: Bssid): Option<Record> {
    var k := Find(list, b);
    if k < |list| then Some(list[k]) else None
  }

  lemma LookupAt(list: seq<Record>, i: nat)
    requires Distinct(list) && i < |list|
    ensures Find(list, list[i].bssid) == i && Lookup(list, list[i].bssid) == Some(list[i])
  {
  }

  lemma FoundAt(list: seq<Record>, b: Bssid, k: nat)
    requires k <= |list| && (k < |list| ==> list[k].bssid == b)
    requires forall j :: 0 <= j < k ==> list[j].bssid != b
    ensures Find(list, b) == k
  {
  }

  lemma InsertLookup(list: seq<Record>, r: Record, b: Bssid)
    requires Distinct(list)
    ensures Distinct(Insert(list, r))
    ensures Lookup(Insert(list, r), b) == if b == r.bssid then Some(r) else Lookup(list, b)
  {
    hide Find;
    var k, m, t := Find(list, r.bssid), Find(list, b), Insert(list, r);
    if k < |list| {
      FoundAt(t, b, if b == r.bssid then k else m);
    } else {
      assert forall j :: 0 < j < |t| ==> t[j] == list[j - 1];
      FoundAt(t, b, if b == r.bssid then 0 else m + 1);
    }
  }

  lemma {:induction false} FreshMembers(list: seq<Record>, g: nat, target: Option<Bssid>)
    ensures |Fresh(list, g, target)| <= |list|
    ensures forall r :: r in Fresh(list, g, target) <==> r in list && !Stale(r, g, target)
  {
    if list != [] {
      FreshMembers(list[1..], g, target);
    }
  }

  lemma {:induction false} FreshDistinct(list: seq<Record>, g: nat, target: Option<Bssid>)
    requires Distinct(list)
    ensures Distinct(Fresh(list, g, target))
  {
    if list != [] {
      FreshDistinct(list[1..], g, target);
      FreshMembers(list[1..], g, target);
      var f := Fresh(list[1..], g, target);
      forall j | 0 <= j < |f| ensures f[j].bssid != list[0].bssid {
        assert f[j] in list[1..];
      }
    }
  }

  lemma LookupIff(list: seq<Record>, b: Bssid, r: Record)
    requires Distinct(list)
    ensures Lookup(list, b) == Some(r) <==> r in list && r.bssid == b
  {
    if r in list && r.bssid == b {
      var i :| 0 <= i < |list| && list[i] == r;
      LookupAt(list, i);
    }
  }

  /** A completed scan removes exactly the networks that are not in use and older than three generations. */
  lemma ScanRemovesExactly(c: Cache, target: Option<Bssid>, b: Bssid)
    requires Inv(c)
    ensures var kept := Lookup(Step(c, EndScan(false, target)).list, b);
      match Lookup(c.list, b)
      case None => kept == None
      case Some(r) => kept == if target == Some(b) || c.generation - r.lastSeen <= 3 then Some(r) else None
  {
    hide Find, Fresh, Lookup;
    var f := Fresh(c.list, c.generation, target);
    FreshDistinct(c.list, c.generation, target);
    FreshMembers(c.list, c.generation, target);
    if Lookup(c.list, b) != None {
      var r := Lookup(c.list, b).value;
      LookupIff(c.list, b, r);
      LookupIff(f, b, r);
      if Lookup(f, b) != None {
        LookupIff(f, b, Lookup(f, b).value);
        LookupIff(c.list, b, Lookup(f, b).value);
      }
    } else if Lookup(f, b) != None {
      LookupIff(f, b, Lookup(f, b).value);
      LookupIff(c.list, b, Lookup(f, b).value);
    }
  }

  /** A beacon makes its record the one for its BSSID and leaves every other as it is. */
  lemma BeaconUpdates(c: Cache, b: Bssid, info: nat, other: Bssid)
    requires Inv(c)
    ensures Lookup(Step(c, Beacon(b, info)).list, other) ==
            if other == b then Some(Record(b, info, c.generation)) else Lookup(c.list, other)
  {
    InsertLookup(c.list, Record(b, info, c.generation), other);
  }

  lemma InsertKeeps(c: Cache, b: Bssid, info: nat)
    requires Inv(c)
    ensures Inv(Step(c, Beacon(b, info)))
  {
    InsertLookup(c.list, Record(b, info, c.generation), b);
  }

  lemma EndScanKeeps(c: Cache, target: Option<Bssid>)
    requires Inv(c)
    ensures Inv(Step(c, EndScan(false, target)))
  {
    hide Fresh;
    FreshDistinct(c.list, c.generation, target);
    FreshMembers(c.list, c.generation, target);
    var f := Fresh(c.list, c.generation, target);
    forall i | 0 <= i < |f| ensures f[i].lastSeen <= c.generation {
      assert f[i] in c.list;
    }
  }

  lemma StepKeeps(c: Cache, e: Event)
    requires Inv(c)
    ensures Inv(Step(c, e))
  {
    match e
    case Beacon(b, info) => InsertKeeps(c, b, info);
    case StartScan =>
    case EndScan(aborted, target) => if !aborted { EndScanKeeps(c, target); }
  }

  // ---------- runs ----------

  const START := Cache([], 0, 0)

  function Run(es: seq<Event>): Cache {
    if es == [] then START else Step(Run(es[..|es| - 1]), es[|es| - 1])
  }

  lemma {:induction false} Reachable(es: seq<Event>)
    ensures Inv(Run(es))
  {
    hide Step;
    if es != [] {
      Reachable(es[..|es| - 1]);
      StepKeeps(Run(es[..|es| - 1]), es[|es| - 1]);
    }
  }

  /** What the last beacon of a BSSID said. */
  function LastBeacon(es: seq<Event>, b: Bssid): Option<nat> {
    if es == [] then None
    else
      var e := es[|es| - 1];
      if e.Beacon? && e.bssid == b then Some(e.info) else LastBeacon(es[..|es| - 1], b)
  }

  function Starts(es: seq<Event>): nat {
    if es == [] then 0 else Starts(es[..|es| - 1]) + if es[|es| - 1].StartScan? then 1 else 0
  }

  /** How many scans have started since the last beacon of a BSSID. */
  function StartsSince(es: seq<Event>, b: Bssid): nat {
    if es == [] then 0
    else
      var e := es[|es| - 1];
      if e.Beacon? && e.bssid == b then 0
      else StartsSince(es[..|es| - 1], b) + if e.StartScan? then 1 else 0
  }

  lemma {:induction false} SinceWithin(es: seq<Event>, b: Bssid)
    ensures StartsSince(es, b) <= Starts(es)
  {
    if es != [] {
      SinceWithin(es[..|es| - 1], b);
    }
  }

  // ---------- the counter over a run ----------

  const PERIOD := TWO32 - 1

  /** The generation after `n` scans, and how often it has wrapped by then: it skips zero. */
  function Gen(n: nat): (g: nat)
    ensures g < TWO32
  {
    if n < TWO32 then n else 1 + (n - TWO32) % PERIOD
  }

  function Wraps(n: nat): nat {
    if n < TWO32 then 0 else 1 + (n - TWO32) / PERIOD
  }

  lemma NextGen(n: nat)
    ensures Gen(n) + 1 < TWO32 ==> Gen(n + 1) == Gen(n) + 1 && Wraps(n + 1) == Wraps(n)
    ensures Gen(n) + 1 == TWO32 ==> Gen(n + 1) == 1 && Wraps(n + 1) == Wraps(n) + 1
  {
    if n >= TWO32 {
      var m, q := n - TWO32, (n - TWO32) / PERIOD;
      assert m == q * PERIOD + m % PERIOD;
      if m % PERIOD + 1 < PERIOD {
        Quotient(m + 1, q, m % PERIOD + 1);
      } else {
        Quotient(m + 1, q + 1, 0);
      }
    }
  }

  lemma Quotient(m: nat, q: nat, r: nat)
    requires m == q * PERIOD + r && r < PERIOD
    ensures m / PERIOD == q && m % PERIOD == r
  {
  }

  /** The generation tells the number of scans in between exactly if no wrap came in between. */
  lemma GenDistance(k: nat, n: nat)
    requires k <= n
    ensures Wraps(k) <= Wraps(n)
    ensures Wraps(k) == Wraps(n) ==> Gen(n) == Gen(k) + (n - k)
    ensures Wraps(k) != Wraps(n) ==> 1 <= Gen(n) && Gen(n) - 1 < n - k
    decreases n - k
  {
    if k < n {
      GenDistance(k, n - 1);
      NextGen(n - 1);
      hide Gen, Wraps;
    }
  }

  /** How many scans had started when the last beacon of a BSSID came. */
  function HeardAt(es: seq<Event>, b: Bssid): nat {
    SinceWithin(es, b);
    Starts(es) - StartsSince(es, b)
  }

  /** The age that the list shows for a BSSID, told from the run alone. */
  function Age(es: seq<Event>, b: Bssid): nat {
    var n, k := Starts(es), HeardAt(es, b);
    GenDistance(k, n);
    if Wraps(k) == Wraps(n) then n - k else Gen(n) - 1
  }

  /** Since its last beacon a completed scan has met the BSSID too old and not in use. */
  ghost predicate Outdated(es: seq<Event>, b: Bssid) {
    es != [] &&
    var before, e := es[..|es| - 1], es[|es| - 1];
    && !(e.Beacon? && e.bssid == b)
    && (Outdated(before, b) || (e.EndScan? && !e.aborted && e.target != Some(b) && Age(before, b) > 3))
  }

  /** What is known of one BSSID after a run. */
  ghost predicate Known(es: seq<Event>, b: Bssid) {
    var c := Run(es);
    && c.generation == Gen(Starts(es))
    && (Lookup(c.list, b).Some? <==> LastBeacon(es, b).Some? && !Outdated(es, b))
    && (Lookup(c.list, b).Some? ==>
          var r := Lookup(c.list, b).value;
          && LastBeacon(es, b) == Some(r.info)
          && r.lastSeen <= c.generation
          && c.generation - r.lastSeen == Age(es, b))
  }

  lemma TouchLookup(list: seq<Record>, b: Bssid)
    ensures Lookup(Touch(list), b) == match Lookup(list, b) case None => None case Some(r) => Some(r.(lastSeen := 1))
  {
    hide Find;
    FoundAt(Touch(list), b, Find(list, b));
  }

  /** One more scan: the age grows by one, or is 0 at a wrap. */
  lemma AgeGrows(es: seq<Event>, b: Bssid)
    ensures HeardAt(es + [StartScan], b) == HeardAt(es, b)
    ensures Age(es + [StartScan], b) == if Gen(Starts(es)) + 1 == TWO32 then 0 else Age(es, b) + 1
  {
    var fs := es + [StartScan];
    assert fs[..|fs| - 1] == es;
    assert HeardAt(fs, b) == HeardAt(es, b);
    var n, k := Starts(es), HeardAt(es, b);
    NextGen(n);
    GenDistance(k, n);
    GenDistance(k, n + 1);
    hide Gen, Wraps;
  }

  lemma AgeStays(es: seq<Event>, e: Event, b: Bssid)
    requires !e.StartScan?
    ensures Age(es + [e], b) == if e.Beacon? && e.bssid == b then 0 else Age(es, b)
    ensures Starts(es + [e]) == Starts(es)
  {
    var fs := es + [e];
    assert fs[..|fs| - 1] == es;
    hide Gen, Wraps;
  }

  lemma StartKnown(es: seq<Event>, b: Bssid)
    requires Known(es, b) && Inv(Run(es))
    ensures Known(es + [StartScan], b)
  {
    hide Find, Touch, Lookup, Age, Gen, Wraps;
    var fs := es + [StartScan];
    assert fs[..|fs| - 1] == es;
    TouchLookup(Run(es).list, b);
    AgeGrows(es, b);
    NextGen(Starts(es));
  }

  lemma BeaconKnown(es: seq<Event>, e: Event, b: Bssid)
    requires Known(es, b) && Inv(Run(es)) && e.Beacon?
    ensures Known(es + [e], b)
  {
    hide Find, Insert, Lookup, Age, Gen, Wraps;
    var fs := es + [e];
    assert fs[..|fs| - 1] == es;
    BeaconUpdates(Run(es), e.bssid, e.info, b);
    AgeStays(es, e, b);
  }

  lemma EndKnown(es: seq<Event>, e: Event, b: Bssid)
    requires Known(es, b) && Inv(Run(es)) && e.EndScan?
    ensures Known(es + [e], b)
  {
    hide Find, Fresh, Lookup, Age, Gen, Wraps;
    var fs := es + [e];
    assert fs[..|fs| - 1] == es;
    AgeStays(es, e, b);
    if !e.aborted {
      ScanRemovesExactly(Run(es), e.target, b);
    }
  }

  /**
   After every run, for every BSSID: it is in the list exactly if it has been heard and no
   completed scan since then met it too old and not in use, and its record is what its last
   beacon said, with the age that follows from the scans started since.
   */
  lemma {:induction false} CacheIsTheRecentNetworks(es: seq<Event>, b: Bssid)
    ensures Known(es, b) && Distinct(Run(es).list) && Run(es).count == |Run(es).list|
  {
    hide Known, Step;
    Reachable(es);
    if es == [] {
      NothingKnown(b);
    } else {
      var p, e := es[..|es| - 1], es[|es| - 1];
      CacheIsTheRecentNetworks(p, b);
      Reachable(p);
      assert es == p + [e];
      match e
      case Beacon(_, _) => BeaconKnown(p, e, b);
      case StartScan => StartKnown(p, b);
      case EndScan(_, _) => EndKnown(p, e, b);
    }
  }

  lemma NothingKnown(b: Bssid)
    ensures Known([], b)
  {
  }

  /** The age shown is the number of scans since the last beacon exactly if the counter has not wrapped since. */
  lemma AgeIsExactIff(es: seq<Event>, b: Bssid)
    requires Lookup(Run(es).list, b).Some?
    ensures var c, r := Run(es), Lookup(Run(es).list, b).value;
      && 0 <= c.generation - r.lastSeen <= StartsSince(es, b)
      && (c.generation - r.lastSeen == StartsSince(es, b) <==> Wraps(Starts(es)) == Wraps(HeardAt(es, b)))
  {
    CacheIsTheRecentNetworks(es, b);
    GenDistance(HeardAt(es, b), Starts(es));
    hide Gen, Wraps, Run, Lookup, Outdated;
  }

  /** A network heard within the last three scans is always in the list. */
  lemma RecentIsListed(es: seq<Event>, b: Bssid)
    requires LastBeacon(es, b).Some? && StartsSince(es, b) <= 3
    ensures Lookup(Run(es).list, b).Some?
  {
    RecentIsFresh(es, b);
    CacheIsTheRecentNetworks(es, b);
    hide Age, Run, Lookup;
  }

  lemma {:induction false} RecentIsFresh(es: seq<Event>, b: Bssid)
    requires LastBeacon(es, b).Some? && StartsSince(es, b) <= 3
    ensures !Outdated(es, b)
  {
    var before, e := es[..|es| - 1], es[|es| - 1];
    if !(e.Beacon? && e.bssid == b) {
      RecentIsFresh(before, b);
      GenDistance(HeardAt(before, b), Starts(before));
      hide Gen, Wraps;
    }
  }

  /** `n` scans that are never completed. */
  function Scans(n: nat): seq<Event> { seq(n, _ => StartScan) }

  lemma {:induction false} ScansOnly(first: Event, n: nat)
    requires first.Beacon?
    ensures var es := [first] + Scans(n);
      && Starts(es) == n && StartsSince(es, first.bssid) == n
      && LastBeacon(es, first.bssid) == Some(first.info) && !Outdated(es, first.bssid)
  {
    hide Age;
    var es := [first] + Scans(n);
    if n > 0 {
      ScansOnly(first, n - 1);
      assert es[..|es| - 1] == [first] + Scans(n - 1);
      assert es[|es| - 1] == StartScan;
    } else {
      assert es == [first] && es[..0] == [];
    }
  }

  /** At the wrap a network that was last heard 2^32 scans ago counts as just heard, and a completed scan keeps it. */
  lemma WrapMakesOldNetworksYoung(b: Bssid, info: nat)
    ensures var es := [Beacon(b, info)] + Scans(TWO32);
      && StartsSince(es, b) == TWO32
      && Lookup(Run(es).list, b) == Some(Record(b, info, Run(es).generation))
      && Lookup(Run(es + [EndScan(false, None)]).list, b).Some?
  {
    var es := [Beacon(b, info)] + Scans(TWO32);
    ScansOnly(Beacon(b, info), TWO32);
    hide Outdated, Scans, Run, Starts, StartsSince, LastBeacon, Lookup;
    WrappedAge(es, b);
    CacheIsTheRecentNetworks(es, b);
    Reachable(es);
    ScanRemovesExactly(Run(es), None, b);
    LookupOwn(Run(es).list, b);
    RunMore(es, EndScan(false, None));
    hide Age;
  }

  lemma WrappedAge(es: seq<Event>, b: Bssid)
    requires Starts(es) == TWO32 == StartsSince(es, b)
    ensures Age(es, b) == 0
  {
    hide Starts, StartsSince;
    Quotient(0, 0, 0);
  }

  lemma LookupOwn(list: seq<Record>, b: Bssid)
    ensures Lookup(list, b).Some? ==> Lookup(list, b).value.bssid == b
  {
  }

  lemma RunMore(es: seq<Event>, e: Event)
    ensures Run(es + [e]) == Step(Run(es), e)
  {
    assert (es + [e])[..|es + [e]| - 1] == es;
  }

  // ---------- the list as linked nodes ----------

  class BssNode {
    var record: Record
    var next: BssNode?

    constructor (record: Record)
      ensures this.record == record && next == null
    {
      this.record := record;
      next := null;
    }
  }

  /** The records of the nodes, in their order. */
  ghost function Records(nodes: seq<BssNode>): (list: seq<Record>)
    reads nodes
    ensures |list| == |nodes| && forall i :: 0 <= i < |nodes| ==> list[i] == nodes[i].record
  {
    seq(|nodes|, i requires 0 <= i < |nodes| reads nodes => nodes[i].record)
  }

  function At(nodes: seq<BssNode>, i: nat): BssNode? { if i < |nodes| then nodes[i] else null }

  ghost predicate LinkOk(nodes: seq<BssNode>, i: nat)
    requires i < |nodes|
    reads nodes
  {
    nodes[i].next == At(nodes, i + 1)
  }

  /** The nodes are distinct, and their links lead through them in order. */
  ghost predicate Chained(nodes: seq<BssNode>)
    reads nodes
  {
    && (forall i, j :: 0 <= i < j < |nodes| ==> nodes[i] != nodes[j])
    && (forall i :: 0 <= i < |nodes| ==> LinkOk(nodes, i))
  }

  /** Overwrite the record of the i-th node; its link stays. */
  method SetRecord(e: BssNode, r: Record, ghost nodes: seq<BssNode>, ghost i: nat)
    requires Chained(nodes) && i < |nodes| && nodes[i] == e
    modifies e`record
    ensures Chained(nodes) && Records(nodes) == old(Records(nodes))[i := r]
  {
    label before:
    e.record := r;
    forall k | 0 <= k < |nodes| ensures LinkOk(nodes, k) {
      assert old@before(LinkOk(nodes, k));
    }
    assert Records(nodes) == old(Records(nodes))[i := r];
  }

  /** A new node in front of the chain. */
  method PushFront(bss: BssNode, head: BssNode?, ghost nodes: seq<BssNode>)
    requires Chained(nodes) && head == At(nodes, 0) && bss !in nodes
    modifies bss`next
    ensures Chained([bss] + nodes) && Records([bss] + nodes) == [bss.record] + old(Records(nodes))
  {
    label before:
    bss.next := head;
    ghost var more := [bss] + nodes;
    forall k | 0 <= k < |more| ensures LinkOk(more, k) {
      if k > 0 {
        assert old@before(LinkOk(nodes, k - 1));
      }
    }
    assert Records(more) == [bss.record] + old(Records(nodes));
  }

  /** The node after the first `k` leaves the chain: `link` is the node before it, if there is one. */
  method Bypass(link: BssNode?, b: BssNode, ghost nodes: seq<BssNode>, ghost k: nat)
    requires Chained(nodes) && k < |nodes| && b == nodes[k] && link == (if k == 0 then null else nodes[k - 1])
    modifies if link == null then {} else {link}
    ensures Chained(nodes[..k] + nodes[k + 1..]) && b.next == At(nodes, k + 1)
    ensures Records(nodes[..k] + nodes[k + 1..]) == old(Records(nodes))[..k] + old(Records(nodes))[k + 1..]
  {
    assert LinkOk(nodes, k);
    label before:
    if link != null {
      link.next := b.next;
    }
    ghost var rest := nodes[..k] + nodes[k + 1..];
    forall j | 0 <= j < |rest| ensures LinkOk(rest, j) {
      assert old@before(LinkOk(nodes, if j < k then j else j + 1));
    }
    assert Records(rest) == old(Records(nodes))[..k] + old(Records(nodes))[k + 1..];
  }

  class BssList {
    var head: BssNode?
    var count: nat
    var generation: nat
    ghost var nodes: seq<BssNode>

    ghost predicate Linked()
      reads this, nodes
    {
      Chained(nodes) && head == At(nodes, 0)
    }

    ghost predicate Valid()
      reads this, nodes
    {
      Linked() && Inv(State())
    }

    ghost function State(): Cache
      reads this, nodes
    {
      Cache(Records(nodes), count, generation)
    }

    constructor ()
      ensures Valid() && State() == START && nodes == []
    {
      head, count, generation := null, 0, 0;
      nodes := [];
      new;
      assert Records([]) == [];
    }

    /** The search through the list: the i-th node has the BSSID, or none has. */
    method Search(bssid: Bssid) returns (e: BssNode?, ghost i: nat)
      requires Linked()
      ensures i == Find(Records(nodes), bssid) && e == At(nodes, i) && i <= |nodes|
      ensures e != null ==> e in nodes && e.record.bssid == bssid
      ensures e == null ==> forall k :: 0 <= k < |nodes| ==> nodes[k].record.bssid != bssid
    {
      hide Find;
      e := head;
      i := 0;
      while e != null
        invariant i <= |nodes| && e == At(nodes, i)
        invariant forall j :: 0 <= j < i ==> Records(nodes)[j].bssid != bssid
        decreases |nodes| - i
      {
        if e.record.bssid == bssid {
          FoundAt(Records(nodes), bssid, i);
          return;
        }
        assert LinkOk(nodes, i);
        e := e.next;
        i := i + 1;
      }
      FoundAt(Records(nodes), bssid, i);
    }

    /** A record for a new BSSID becomes the first node. */
    method Prepend(bss: BssNode)
      requires Linked() && bss !in nodes
      modifies this`head, this`count, this`nodes, bss`next
      ensures Linked() && nodes == [bss] + old(nodes) && count == old(count) + 1
      ensures Records(nodes) == [bss.record] + old(Records(nodes))
    {
      hide Chained;
      PushFront(bss, head, nodes);
      head := bss;
      nodes := [bss] + nodes;
      count := count + 1;
    }

    /** `processScanResult` from the lock on; `bss` is the record made for the beacon. */
    method ProcessScanResult(bssid: Bssid, info: nat)
      requires Valid()
      modifies this`head, this`count, this`nodes, nodes
      ensures Valid() && fresh(set n | n in nodes && n !in old(nodes))
      ensures State() == Step(old(State()), Beacon(bssid, info))
    {
      StepKeeps(State(), Beacon(bssid, info));
      hide Inv, Find, Chained;
      var bss := new BssNode(Record(bssid, info, generation));
      var e, i := Search(bssid);
      if e != null {
        SetRecord(e, bss.record, nodes, i);
      } else {
        Prepend(bss);
      }
    }

    /** The loop of `cmdScan` over the list. */
    method TouchAll()
      requires Linked()
      modifies nodes
      ensures Linked() && Records(nodes) == Touch(old(Records(nodes)))
    {
      ghost var list := Records(nodes);
      var b := head;
      ghost var i := 0;
      while b != null
        invariant i <= |nodes| && b == At(nodes, i) && Linked()
        invariant forall j :: 0 <= j < i ==> Records(nodes)[j] == list[j].(lastSeen := 1)
        invariant forall j :: i <= j < |nodes| ==> Records(nodes)[j] == list[j]
        decreases |nodes| - i
      {
        SetRecord(b, b.record.(lastSeen := 1), nodes, i);
        assert LinkOk(nodes, i);
        b := b.next;
        i := i + 1;
      }
      assert Records(nodes) == Touch(list);
    }

    /** `cmdScan`, its new generation. */
    method NextGeneration()
      requires Valid()
      modifies this`generation, nodes
      ensures Valid()
      ensures State() == Step(old(State()), StartScan)
    {
      StepKeeps(State(), StartScan);
      hide Inv, Touch, Linked;
      generation := (generation + 1) % TWO32;
      if generation == 0 {
        generation := 1;
        TouchAll();
      }
    }

    /** `*link`; null stands for the head of the list. */
    function Follow(link: BssNode?): BssNode?
      reads this, link
    {
      if link == null then head else link.next
    }

    /** `*link = b->next`. */
    method Unlink(link: BssNode?, b: BssNode, ghost k: nat)
      requires Linked() && k < |nodes| && b == nodes[k] && link == (if k == 0 then null else nodes[k - 1])
      modifies this`head, this`nodes, nodes
      ensures Linked() && nodes == old(nodes)[..k] + old(nodes)[k + 1..]
      ensures Records(nodes) == old(Records(nodes))[..k] + old(Records(nodes))[k + 1..]
    {
      Bypass(link, b, nodes, k);
      if link == null {
        head := b.next;
      }
      nodes := nodes[..k] + nodes[k + 1..];
    }

    /** `scanDone`, its sweep over the list; `target` is the network in use, if any. */
    method ScanDone(aborted: bool, target: Option<Bssid>)
      requires Valid()
      modifies this`head, this`count, this`nodes, nodes
      ensures Valid() && forall n :: n in nodes ==> n in old(nodes)
      ensures State() == Step(old(State()), EndScan(aborted, target))
    {
      StepKeeps(State(), EndScan(aborted, target));
      hide Inv;
      if !aborted {
        Sweep(target);
      }
    }

    /** One round of the sweep, at the node after the first `k`. */
    method SweepOne(link: BssNode?, target: Option<Bssid>, ghost k: nat) returns (next: BssNode?, ghost gone: bool)
      requires Linked() && k < |nodes| && link == (if k == 0 then null else nodes[k - 1])
      modifies this`head, this`count, this`nodes, nodes
      ensures Linked() && gone == Stale(old(Records(nodes))[k], generation, target)
      ensures |nodes| + (if gone then 1 else 0) == |old(nodes)|
      ensures gone ==>
        && next == link && nodes == old(nodes)[..k] + old(nodes)[k + 1..]
        && Records(nodes) == old(Records(nodes))[..k] + old(Records(nodes))[k + 1..]
        && count == if old(count) > 0 then old(count) - 1 else 0
      ensures !gone ==> nodes == old(nodes) && next == nodes[k] && Records(nodes) == old(Records(nodes)) && count == old(count)
    {
      hide Stale, Chained;
      Followed(link, k);
      var b := Follow(link);
      gone := IsStale(b, target);
      next := link;
      if IsStale(b, target) {
        Unlink(link, b, k);
        if count > 0 {
          count := count - 1;
        }
      } else {
        next := b;
      }
    }

    method Sweep(target: Option<Bssid>)
      requires Linked()
      modifies this`head, this`count, this`nodes, nodes
      ensures Linked() && forall n :: n in nodes ==> n in old(nodes)
      ensures Records(nodes) == Fresh(old(Records(nodes)), generation, target)
      ensures |nodes| <= |old(nodes)| && count == Minus(old(count), |old(nodes)| - |nodes|)
    {
      hide Stale, Fresh, Linked, Minus, Swept;
      ghost var was, n := Records(nodes), count;
      ghost var k, left := 0, 0;
      var link: BssNode? := null;
      Followed(link, k);
      SweepBounds(was, generation, target);
      MinusOne(n, 0);
      while Follow(link) != null
        invariant Linked() && forall i :: 0 <= i < |nodes| ==> nodes[i] in old(nodes)
        invariant k <= |nodes| && link == (if k == 0 then null else nodes[k - 1]) && Follow(link) == At(nodes, k)
        invariant |nodes| + left == |was| && count == Minus(n, left)
        invariant Swept(Records(nodes), k, generation, target) == Fresh(was, generation, target)
        decreases |nodes| - k
      {
        SweptRound(Records(nodes), k, generation, target);
        MinusOne(n, left);
        ghost var gone;
        link, gone := SweepOne(link, target, k);
        if gone {
          left := left + 1;
        } else {
          k := k + 1;
        }
        Followed(link, k);
      }
      SweepBounds(Records(nodes), generation, target);
    }

    lemma Followed(link: BssNode?, k: nat)
      requires Linked() && k <= |nodes| && link == (if k == 0 then null else nodes[k - 1])
      ensures Follow(link) == At(nodes, k)
    {
      if k > 0 {
        assert LinkOk(nodes, k - 1);
      }
    }

    predicate IsStale(b: BssNode, target: Option<Bssid>): (stale: bool)
      reads this, b
      ensures stale == Stale(b.record, generation, target)
    {
      var isTarget := target == Some(b.record.bssid);
      var age := (generation - b.record.lastSeen) % TWO32;
      !isTarget && age > 3
    }
  }

  /** What a counter that does not go below zero shows after `g` decrements. */
  function Minus(n: nat, g: nat): nat { if n < g then 0 else n - g }

  lemma MinusOne(n: nat, g: nat)
    ensures Minus(n, g + 1) == if Minus(n, g) > 0 then Minus(n, g) - 1 else 0
    ensures Minus(n, 0) == n
  {
  }

  /** The first `k` records have been seen and stay; what the sweep will leave of the others. */
  function Swept(list: seq<Record>, k: nat, g: nat, target: Option<Bssid>): seq<Record>
    requires k <= |list|
  {
    list[..k] + Fresh(list[k..], g, target)
  }

  lemma SweepBounds(list: seq<Record>, g: nat, target: Option<Bssid>)
    ensures Swept(list, 0, g, target) == Fresh(list, g, target) && Swept(list, |list|, g, target) == list
  {
    assert list[0..] == list && list[|list|..] == [] && list[..|list|] == list;
  }

  lemma SweptRound(list: seq<Record>, k: nat, g: nat, target: Option<Bssid>)
    requires k < |list|
    ensures Stale(list[k], g, target) ==> Swept(list[..k] + list[k + 1..], k, g, target) == Swept(list, k, g, target)
    ensures !Stale(list[k], g, target) ==> Swept(list, k + 1, g, target) == Swept(list, k, g, target)
  {
    hide Stale;
    FreshFirst(list[k..], g, target);
    assert list[k..][1..] == list[k + 1..];
    var rest := list[..k] + list[k + 1..];
    assert rest[..k] == list[..k] && rest[k..] == list[k + 1..];
    assert list[..k + 1] == list[..k] + [list[k]];
    hide Fresh;
    assert list[..k + 1] + Fresh(list[k + 1..], g, target) == list[..k] + ([list[k]] + Fresh(list[k + 1..], g, target));
  }

  lemma FreshFirst(rest: seq<Record>, g: nat, target: Option<Bssid>)
    requires rest != []
    ensures Fresh(rest, g, target) ==
            if Stale(rest[0], g, target) then Fresh(rest[1..], g, target) else [rest[0]] + Fresh(rest[1..], g, target)
  {
    hide Stale;
    var tail := Fresh(rest[1..], g, target);
    assert [] + tail == tail;
  }
}
