/**
 The connection state machine with its internal supplicant: every handler is one step, and
 what the outside decides (a reply's status, a key accepted by the hardware, an allocation)
 is part of the event.  The past is ghost: how often the keys were cleared (`epoch`), the packet
 numbers taken since then (`used`), the data frames handed to the hardware (`log`), whether a
 key has been derived since then, and whether the installed pairwise key is one of those.
 */
module ConnectionSpec {
  import opened Wrappers

  datatype Phase = Idle | Scanning | Authenticating | Associating | Handshaking | Connected | Disconnecting

  datatype Cipher = NoCipher | Ccmp | Tkip

  /** A network as the scan described it. */
  datatype Bss = Bss(privacy: bool, cipher: Cipher, psk: bool, groupTkip: bool)

  /** `ccmp` is the CCMP header of a protected frame, `ordinal` the number of its packet number in its epoch. */
  datatype Frame = Frame(bss: Bss, eapol: bool, protect: bool, ccmp: seq<nat>, epoch: nat, ordinal: nat)

  datatype Past = Past(epoch: nat, used: nat, log: seq<Frame>, derived: bool, fromM1: bool)

  datatype Conn = Conn(
    phase: Phase, scanReturn: Phase, powered: bool, cancelled: bool, wpa2: bool, target: Bss,
    sta: bool, ptk: bool, gtk: bool, pn: nat, manual: bool, onHome: bool,
    past: Past)

  datatype ScanStart = NoMemory | NoChannels | NoScanner | Manual | Offload

  datatype TxOutcome = Dropped | Lost | Sent

  /** A key whose length does not fit its cipher is turned down before its slot is touched. */
  datatype Install = Unfit | Refused | Accepted

  datatype Event =
    | CmdScan(start: ScanStart)
    | ScanDone
    | ManualScanChannel(home: bool)
    | ManualScanEnd
    | CmdConnect(ended: bool, ssidOk: bool, threadOk: bool, found: Option<Bss>, pmk: bool, password: bool)
    | AuthResponse(valid: bool, accepted: bool, txOk: bool)
    | AssocResponse(valid: bool, accepted: bool, staOk: bool)
    | Deauth(fromTarget: bool, toUs: bool)
    | HandshakeM1(tx: TxOutcome)
    | HandshakeM3(micOk: bool, dataOk: bool, gtk: bool, ptkSet: Install, gtkSet: Install, tx: TxOutcome)
    | TimerFired
    | CmdDisconnect
    | CmdPowerOn(started: bool)
    | CmdPowerOff(ended: bool)
    | OutputPacket(eapol: bool, tx: TxOutcome)

  const PN_LIMIT := 0x1_0000_0000_0000

  /** Byte `i` of a packet number, least significant first. */
  function PnByte(pn: nat, i: nat): nat
    decreases i
  {
    if i == 0 then pn % 256 else PnByte(pn / 256, i - 1)
  }

  function PnBytes(pn: nat): (b: seq<nat>)
    ensures |b| == 6
  {
    [PnByte(pn, 0), PnByte(pn, 1), PnByte(pn, 2), PnByte(pn, 3), PnByte(pn, 4), PnByte(pn, 5)]
  }

  /** The CCMP header for key index 0: PN0, PN1, reserved, ExtIV, PN2 to PN5. */
  function CcmpHeader(b: seq<nat>): seq<nat>
    requires |b| == 6
  {
    [b[0], b[1], 0, 0x20, b[2], b[3], b[4], b[5]]
  }

  /** What a receiver reads back from a CCMP header. */
  function PnOfHeader(h: seq<nat>): nat
    requires |h| == 8
  {
    h[0] + 256 * (h[1] + 256 * (h[4] + 256 * (h[5] + 256 * (h[6] + 256 * h[7]))))
  }

  // ---------- the handlers ----------

  predicate Busy(p: Phase) { p.Authenticating? || p.Associating? || p.Handshaking? || p.Connected? }

  function ClearKeys(s: Conn): Conn {
    s.(ptk := false, gtk := false, pn := 0, past := Past(s.past.epoch + 1, 0, s.past.log, false, false))
  }

  function Disconnect(s: Conn): Conn {
    ClearKeys(s).(sta := false, phase := Idle, scanReturn := Idle)
  }

  function EndScan(s: Conn): Conn {
    if s.phase.Scanning? then s.(phase := s.scanReturn, scanReturn := Idle, onHome := false) else s
  }

  /** `abortActiveScan(true)`; `ended` says that the scan ended while it was waiting. */
  function AbortScan(s: Conn, ended: bool): (Conn, bool) {
    if !s.phase.Scanning? then (s, true)
    else if ended then (EndScan(s), true)
    else if s.manual then (s, false)
    else (EndScan(s), true)
  }

  /** `txDataFrame`: a lost frame has already taken its packet number. */
  function TxData(s: Conn, eapol: bool, tx: TxOutcome): Conn {
    if !s.sta || tx.Dropped? then s
    else
      var protect := s.wpa2 && s.ptk && !eapol;
      var pn := if protect then (s.pn + 1) % PN_LIMIT else s.pn;
      var used := if protect then s.past.used + 1 else s.past.used;
      var frame := Frame(s.target, eapol, protect, if protect then CcmpHeader(PnBytes(pn)) else [], s.past.epoch, used);
      s.(pn := pn, past := s.past.(used := used, log := if tx.Lost? then s.past.log else s.past.log + [frame]))
  }

  function ConnectTo(s: Conn, found: Option<Bss>, pmk: bool, password: bool): Conn {
    var c := ClearKeys(s).(sta := false);
    if found.None? then c
    else
      var b := found.value;
      var t := c.(target := b);
      if b.privacy && (!b.cipher.Ccmp? || !b.psk) then t
      else if (pmk && !b.privacy) || (!pmk && !password && b.privacy) then t
      else t.(wpa2 := b.cipher.Ccmp?, cancelled := false, phase := Authenticating)
  }

  /** `derivePTK` on the nonce of a first message. */
  function Derive(s: Conn): Conn { s.(past := s.past.(derived := true)) }

  function InstallPairwise(s: Conn, p: Install): Conn {
    match p
    case Unfit => s
    case Refused => s.(ptk := false, past := s.past.(fromM1 := false))
    case Accepted => s.(ptk := true, pn := 0, past := s.past.(fromM1 := s.past.derived))
  }

  function InstallGroup(s: Conn, g: Install): Conn {
    if g.Unfit? then s else s.(gtk := g.Accepted?)
  }

  /** The keys after the two installs: a refused key leaves its slot empty. */
  function Installed(s: Conn, gtk: bool, p: Install, g: Install): Conn {
    if p.Accepted? && gtk then InstallGroup(InstallPairwise(s, p), g) else InstallPairwise(s, p)
  }

  function M3(s: Conn, e: Event): Conn
    requires e.HandshakeM3?
  {
    if !e.micOk || !e.dataOk then s
    else
      var k := Installed(s, e.gtk, e.ptkSet, e.gtkSet);
      if e.ptkSet.Accepted? && (e.gtk ==> e.gtkSet.Accepted?) then TxData(k, true, e.tx).(phase := Connected) else k
  }

  function StartScan(s: Conn, start: ScanStart): Conn {
    if !s.phase.Idle? || !s.powered then s
    else if start.Manual? then s.(phase := Scanning, scanReturn := Idle, manual := true, onHome := false)
    else if start.Offload? then s.(phase := Scanning, scanReturn := Idle)
    else s.(scanReturn := Idle)
  }

  function Connect(s: Conn, e: Event): Conn
    requires e.CmdConnect?
  {
    var (a, free) := AbortScan(s, e.ended);
    if !free || !a.phase.Idle? || !e.ssidOk || !a.powered || !e.threadOk then a
    else ConnectTo(a, e.found, e.pmk, e.password)
  }

  function Authenticated(s: Conn, e: Event): Conn
    requires e.AuthResponse?
  {
    if !s.phase.Authenticating? || s.cancelled || !e.valid then s
    else if e.accepted && e.txOk then s.(phase := Associating)
    else s.(phase := Idle)
  }

  function Associated(s: Conn, e: Event): Conn
    requires e.AssocResponse?
  {
    if !s.phase.Associating? || s.cancelled || !e.valid then s
    else if !e.accepted then s.(phase := Idle)
    else s.(sta := s.sta || e.staOk, phase := if s.wpa2 then Handshaking else Connected)
  }

  predicate Online(s: Conn) { s.phase.Connected? || (s.phase.Scanning? && s.scanReturn.Connected?) }

  function Timeout(s: Conn): Conn {
    if s.phase.Scanning? then (if s.manual then s else s.(phase := s.scanReturn, scanReturn := Idle))
    else if s.phase.Associating? then s.(phase := Idle)
    else if s.phase.Handshaking? then Disconnect(s)
    else s
  }

  function PowerOff(s: Conn, ended: bool): Conn {
    var (a, free) := AbortScan(s.(cancelled := true), ended);
    if !free then a
    else
      var d := if Busy(a.phase) then Disconnect(a) else ClearKeys(a).(sta := false);
      d.(powered := false, phase := Idle, scanReturn := Idle)
  }

  function Step(s: Conn, e: Event): Conn {
    match e
    case CmdScan(start) => StartScan(s, start)
    case ScanDone => EndScan(s)
    case ManualScanChannel(home) =>
      if s.phase.Scanning? && s.manual then s.(onHome := home && s.scanReturn.Connected?) else s
    case ManualScanEnd => if s.manual then EndScan(s).(manual := false, onHome := false) else s
    case CmdConnect(_, _, _, _, _, _) => Connect(s, e)
    case AuthResponse(_, _, _) => Authenticated(s, e)
    case AssocResponse(_, _, _) => Associated(s, e)
    case Deauth(fromTarget, toUs) =>
      if (Online(s) || s.phase.Handshaking?) && fromTarget && toUs
      then ClearKeys(s).(phase := Idle, scanReturn := Idle)
      else s
    case HandshakeM1(tx) => if s.phase.Handshaking? then TxData(Derive(s), true, tx) else s
    case HandshakeM3(_, _, _, _, _, _) => if s.phase.Handshaking? then M3(s, e) else s
    case TimerFired => Timeout(s)
    case CmdDisconnect => if s.phase.Idle? then s.(cancelled := true) else Disconnect(s.(cancelled := true))
    case CmdPowerOn(started) =>
      var p := s.(powered := s.powered || started);
      if p.powered && p.phase.Disconnecting? then p.(phase := Idle) else p
    case CmdPowerOff(ended) => PowerOff(s, ended)
    case OutputPacket(eapol, tx) =>
      if Online(s) && (s.phase.Connected? || !s.manual || s.onHome) then TxData(s, eapol, tx) else s
  }

  // ---------- the invariant ----------

  ghost predicate StateOk(s: Conn) {
    && s.scanReturn.Idle? && !s.phase.Disconnecting? && !s.onHome
    && (!s.phase.Idle? ==> s.powered)
    && (Busy(s.phase) ==> s.wpa2 == s.target.cipher.Ccmp? && (s.target.privacy ==> s.target.cipher.Ccmp? && s.target.psk))
    && (s.phase.Handshaking? ==> s.wpa2)
    && (s.ptk || s.gtk ==> s.phase.Handshaking? || s.phase.Connected?)
    && (s.past.fromM1 ==> s.ptk && s.past.derived)
    && (s.phase.Connected? && s.wpa2 ==> s.ptk)
    && (s.past.used > 0 ==> s.phase.Connected?)
    && s.pn == s.past.used % PN_LIMIT
  }

  /** A frame on a network with the privacy bit is protected unless it is EAPOL, and its header tells its packet number. */
  ghost predicate FrameOk(f: Frame) {
    && (f.bss.privacy && !f.eapol ==> f.protect)
    && (f.protect ==> !f.eapol && f.ordinal > 0 && f.ccmp == CcmpHeader(PnBytes(f.ordinal % PN_LIMIT)))
  }

  /** Packet numbers of one epoch are taken in order, and none is taken twice. */
  ghost predicate LogOk(log: seq<Frame>, epoch: nat, used: nat) {
    && (forall i :: 0 <= i < |log| ==> FrameOk(log[i]) && log[i].epoch <= epoch)
    && (forall i :: 0 <= i < |log| && log[i].protect && log[i].epoch == epoch ==> log[i].ordinal <= used)
    && (forall i, j :: 0 <= i < j < |log| && log[i].protect && log[j].protect && log[i].epoch == log[j].epoch ==>
          log[i].ordinal < log[j].ordinal)
  }

  ghost predicate Inv(s: Conn) { StateOk(s) && LogOk(s.past.log, s.past.epoch, s.past.used) }

  lemma ClearKeeps(log: seq<Frame>, epoch: nat, used: nat)
    requires LogOk(log, epoch, used)
    ensures LogOk(log, epoch + 1, 0)
  {
  }

  lemma TxKeeps(s: Conn, eapol: bool, tx: TxOutcome)
    requires Inv(s) && (s.phase.Connected? || (s.phase.Handshaking? && eapol))
    ensures Inv(TxData(s, eapol, tx))
    ensures TxData(s, eapol, tx).phase == s.phase && TxData(s, eapol, tx).ptk == s.ptk
  {
    hide CcmpHeader, PnBytes;
  }

  lemma M3Keeps(s: Conn, e: Event)
    requires Inv(s) && s.phase.Handshaking? && e.HandshakeM3?
    ensures Inv(M3(s, e))
  {
    hide LogOk, TxData;
    if e.micOk && e.dataOk && e.ptkSet.Accepted? && (e.gtk ==> e.gtkSet.Accepted?) {
      TxKeeps(Installed(s, e.gtk, e.ptkSet, e.gtkSet), true, e.tx);
    }
  }

  lemma AbortKeeps(s: Conn, ended: bool)
    requires Inv(s)
    ensures var (a, free) := AbortScan(s, ended);
      Inv(a) && (a.phase == s.phase || a.phase.Idle?) && (free ==> !a.phase.Scanning?)
  {
    hide LogOk;
  }

  lemma ConnectToKeeps(s: Conn, found: Option<Bss>, pmk: bool, password: bool)
    requires Inv(s) && s.phase.Idle? && s.powered
    ensures Inv(ConnectTo(s, found, pmk, password))
  {
    hide LogOk;
    ClearKeeps(s.past.log, s.past.epoch, s.past.used);
  }

  lemma ConnectKeeps(s: Conn, e: Event)
    requires Inv(s) && e.CmdConnect?
    ensures Inv(Connect(s, e))
  {
    hide Inv, AbortScan, ConnectTo;
    AbortKeeps(s, e.ended);
    var a := AbortScan(s, e.ended).0;
    if a.phase.Idle? && a.powered {
      ConnectToKeeps(a, e.found, e.pmk, e.password);
    }
  }

  lemma PowerOffKeeps(s: Conn, ended: bool)
    requires Inv(s)
    ensures Inv(PowerOff(s, ended))
  {
    hide LogOk, AbortScan;
    AbortKeeps(s.(cancelled := true), ended);
    var a := AbortScan(s.(cancelled := true), ended).0;
    ClearKeeps(a.past.log, a.past.epoch, a.past.used);
  }

  lemma ScanningKeeps(s: Conn, e: Event)
    requires Inv(s) && (e.CmdScan? || e.ScanDone? || e.ManualScanChannel? || e.ManualScanEnd?)
    ensures Inv(Step(s, e))
  {
    hide LogOk;
  }

  lemma AnswerKeeps(s: Conn, e: Event)
    requires Inv(s) && (e.AuthResponse? || e.AssocResponse? || e.CmdPowerOn?)
    ensures Inv(Step(s, e))
  {
    hide LogOk;
  }

  /** Steps that may clear the keys. */
  lemma ClearingKeeps(s: Conn, e: Event)
    requires Inv(s) && (e.Deauth? || e.TimerFired? || e.CmdDisconnect?)
    ensures Inv(Step(s, e))
  {
    hide LogOk;
    ClearKeeps(s.past.log, s.past.epoch, s.past.used);
  }

  lemma StepKeeps(s: Conn, e: Event)
    requires Inv(s)
    ensures Inv(Step(s, e))
  {
    hide LogOk, TxData, M3, Connect, PowerOff;
    match e
    case CmdConnect(_, _, _, _, _, _) => hide StateOk; ConnectKeeps(s, e);
    case HandshakeM1(tx) => if s.phase.Handshaking? { TxKeeps(Derive(s), true, tx); }
    case HandshakeM3(_, _, _, _, _, _) => if s.phase.Handshaking? { M3Keeps(s, e); }
    case OutputPacket(eapol, tx) => if s.phase.Connected? { TxKeeps(s, eapol, tx); }
    case CmdPowerOff(ended) => hide StateOk; PowerOffKeeps(s, ended);
    case Deauth(_, _) => hide StateOk; ClearingKeeps(s, e);
    case TimerFired => hide StateOk; ClearingKeeps(s, e);
    case CmdDisconnect => hide StateOk; ClearingKeeps(s, e);
    case AuthResponse(_, _, _) => hide StateOk; AnswerKeeps(s, e);
    case AssocResponse(_, _, _) => hide StateOk; AnswerKeeps(s, e);
    case CmdPowerOn(_) => hide StateOk; AnswerKeeps(s, e);
    case _ => hide StateOk; ScanningKeeps(s, e);
  }

  // ---------- runs ----------

  const START := Conn(Idle, Idle, false, true, false, Bss(false, NoCipher, false, false),
                      false, false, false, 0, false, false, Past(0, 0, [], false, false))

  function Run(es: seq<Event>): Conn {
    if es == [] then START else Step(Run(es[..|es| - 1]), es[|es| - 1])
  }

  lemma {:induction false} Reachable(es: seq<Event>)
    ensures Inv(Run(es))
  {
    hide Step;
    if es != [] {
      Reachable(es[..|es| - 1]);
      StepKeeps(Run(es[..|es| - 1]), es[|es| - 1]);
    }
  }

  /** A scan always returns to `Idle` and is never on a home channel, and being connected to a protected network means WPA2 with its key installed. */
  lemma ConnectedMeansKeyed(es: seq<Event>)
    ensures var s := Run(es);
      && s.scanReturn.Idle? && !s.onHome
      && (s.phase.Connected? && s.target.privacy ==> s.wpa2 && s.ptk)
  {
    Reachable(es);
  }

  /** Every data frame but EAPOL that goes to the hardware for a protected network is protected. */
  lemma DataIsProtected(es: seq<Event>, i: nat)
    requires i < |Run(es).past.log| && Run(es).past.log[i].bss.privacy && !Run(es).past.log[i].eapol
    ensures Run(es).past.log[i].protect
    ensures |Run(es).past.log[i].ccmp| == 8 && PnOfHeader(Run(es).past.log[i].ccmp) == Run(es).past.log[i].ordinal % PN_LIMIT
  {
    Reachable(es);
    assert FrameOk(Run(es).past.log[i]);
    HeaderTellsPn(Run(es).past.log[i].ordinal % PN_LIMIT);
  }

  lemma PnStep(pn: nat, i: nat)
    requires i > 0
    ensures PnByte(pn, i) == PnByte(pn / 256, i - 1)
  {
  }

  lemma HeaderTellsPn(pn: nat)
    requires pn < PN_LIMIT
    ensures PnOfHeader(CcmpHeader(PnBytes(pn))) == pn
  {
    var a, b, c, d, f := pn / 256, pn / 256 / 256, pn / 256 / 256 / 256, pn / 256 / 256 / 256 / 256, pn / 256 / 256 / 256 / 256 / 256;
    PnStep(pn, 5);
    PnStep(a, 4);
    PnStep(b, 3);
    PnStep(c, 2);
    PnStep(d, 1);
    PnStep(pn, 4);
    PnStep(a, 3);
    PnStep(b, 2);
    PnStep(c, 1);
    PnStep(pn, 3);
    PnStep(a, 2);
    PnStep(b, 1);
    PnStep(pn, 2);
    PnStep(a, 1);
    PnStep(pn, 1);
    hide PnByte;
    assert PnByte(pn, 5) == f % 256 && f < 256;
  }

  lemma SameResidue(a: nat, b: nat)
    requires a <= b
    ensures a % PN_LIMIT == b % PN_LIMIT <==> (b - a) % PN_LIMIT == 0
  {
    var p, q := a / PN_LIMIT, b / PN_LIMIT;
    assert b - a == (q - p) * PN_LIMIT + (b % PN_LIMIT - a % PN_LIMIT);
  }

  lemma NumbersDiffer(f: Frame, g: Frame)
    requires FrameOk(f) && FrameOk(g) && f.protect && g.protect && f.ordinal < g.ordinal
    ensures |f.ccmp| == 8 && |g.ccmp| == 8
    ensures PnOfHeader(f.ccmp) == PnOfHeader(g.ccmp) <==> (g.ordinal - f.ordinal) % PN_LIMIT == 0
  {
    HeaderTellsPn(f.ordinal % PN_LIMIT);
    HeaderTellsPn(g.ordinal % PN_LIMIT);
    SameResidue(f.ordinal, g.ordinal);
    hide PnBytes, PnOfHeader;
  }

  /**
   Packet numbers under one set of keys are taken in order and come around only after 2^48
   of them: two protected frames of an epoch carry the same number exactly if their places
   differ by a multiple of 2^48.
   */
  lemma PacketNumbersUnique(es: seq<Event>, i: nat, j: nat)
    requires i < j < |Run(es).past.log|
    requires var l := Run(es).past.log; l[i].protect && l[j].protect && l[i].epoch == l[j].epoch
    ensures var l := Run(es).past.log;
      && l[i].ordinal < l[j].ordinal
      && |l[i].ccmp| == 8 && |l[j].ccmp| == 8
      && (PnOfHeader(l[i].ccmp) == PnOfHeader(l[j].ccmp) <==> (l[j].ordinal - l[i].ordinal) % PN_LIMIT == 0)
  {
    hide PnOfHeader, CcmpHeader, PnBytes, StateOk;
    Reachable(es);
    hide Run;
    var l := Run(es).past.log;
    assert FrameOk(l[i]) && FrameOk(l[j]);
    NumbersDiffer(l[i], l[j]);
  }

  /** The packet number is set back only by an install, and then none has been used since the keys were cleared. */
  lemma InstallsStartFresh(es: seq<Event>, e: Event)
    requires e.HandshakeM3? && Run(es).phase.Handshaking? && e.micOk && e.dataOk && e.ptkSet.Accepted?
    ensures Run(es).past.used == 0 && Step(Run(es), e).past.used == 0 && Step(Run(es), e).past.epoch == Run(es).past.epoch
    ensures Step(Run(es), e).ptk && Step(Run(es), e).pn == 0
  {
    Reachable(es);
    FreshInstall(Run(es), e);
    hide Inv, Run, Step;
  }

  lemma FreshInstall(s: Conn, e: Event)
    requires Inv(s) && e.HandshakeM3? && s.phase.Handshaking? && e.micOk && e.dataOk && e.ptkSet.Accepted?
    ensures s.past.used == 0 && Step(s, e).past.used == 0 && Step(s, e).past.epoch == s.past.epoch
    ensures Step(s, e).ptk && Step(s, e).pn == 0
  {
    hide LogOk;
    M3Step(s, e);
    InstalledKey(s, e);
    EapolTakesNoNumber(Installed(s, e.gtk, e.ptkSet, e.gtkSet), e.tx);
    hide Step, TxData, Installed;
  }

  lemma EapolTakesNoNumber(s: Conn, tx: TxOutcome)
    ensures var t := TxData(s, true, tx);
      t.ptk == s.ptk && t.pn == s.pn && t.past.used == s.past.used && t.past.epoch == s.past.epoch
  {
    hide CcmpHeader, PnBytes;
  }

  /** The keys stay, and nothing is taken back, or they are cleared. */
  predicate Follows(a: Past, b: Past) {
    && a.epoch <= b.epoch
    && (b.epoch == a.epoch ==> a.used <= b.used && a.log <= b.log && b.derived == a.derived)
    && (b.epoch > a.epoch ==> !b.derived)
  }

  lemma StayFollows(a: Past)
    ensures Follows(a, a)
  {
  }

  lemma ClearFollows(s: Conn)
    ensures Follows(s.past, ClearKeys(s).past)
  {
  }

  lemma TxFollows(s: Conn, eapol: bool, tx: TxOutcome)
    ensures Follows(s.past, TxData(s, eapol, tx).past)
  {
    hide CcmpHeader, PnBytes;
  }

  lemma InstalledFollows(a: Past, b: Past, c: Past)
    requires b == a || b == a.(fromM1 := b.fromM1)
    requires Follows(b, c)
    ensures Follows(a, c)
  {
  }

  lemma InstalledPast(s: Conn, gtk: bool, p: Install, g: Install)
    ensures var k := Installed(s, gtk, p, g); k.past == s.past || k.past == s.past.(fromM1 := k.past.fromM1)
  {
  }

  lemma M3Follows(s: Conn, e: Event)
    requires e.HandshakeM3?
    ensures Follows(s.past, M3(s, e).past)
  {
    hide TxData, Follows, Installed;
    var k := Installed(s, e.gtk, e.ptkSet, e.gtkSet);
    InstalledPast(s, e.gtk, e.ptkSet, e.gtkSet);
    TxFollows(k, true, e.tx);
    StayFollows(k.past);
    StayFollows(s.past);
    InstalledFollows(s.past, k.past, M3(s, e).past);
  }

  lemma AbortKeepsPast(s: Conn, ended: bool)
    ensures AbortScan(s, ended).0.past == s.past
  {
  }

  lemma ConnectFollows(s: Conn, e: Event)
    requires e.CmdConnect?
    ensures Follows(s.past, Connect(s, e).past)
  {
    AbortKeepsPast(s, e.ended);
    StayFollows(s.past);
    hide AbortScan, ClearKeys, Follows;
    ClearFollows(AbortScan(s, e.ended).0);
  }

  lemma DisconnectFollows(s: Conn)
    ensures Disconnect(s).past == ClearKeys(s).past
  {
    hide ClearKeys;
  }

  lemma PowerOffFollows(s: Conn, ended: bool)
    ensures Follows(s.past, PowerOff(s, ended).past)
  {
    var a := AbortScan(s.(cancelled := true), ended).0;
    AbortKeepsPast(s.(cancelled := true), ended);
    StayFollows(s.past);
    ClearFollows(a);
    DisconnectFollows(a);
    hide AbortScan, ClearKeys, Disconnect, Follows;
  }

  /** Steps of the other kinds touch no key. */
  predicate Keyed(e: Event) {
    e.CmdConnect? || e.Deauth? || e.HandshakeM1? || e.HandshakeM3? || e.TimerFired? || e.CmdDisconnect? || e.CmdPowerOff? || e.OutputPacket?
  }

  lemma ScansKeepPast(s: Conn, start: ScanStart)
    ensures StartScan(s, start).past == s.past && EndScan(s).past == s.past
  {
  }

  lemma AnswersKeepPast(s: Conn, e: Event)
    ensures e.AuthResponse? ==> Authenticated(s, e).past == s.past
    ensures e.AssocResponse? ==> Associated(s, e).past == s.past
  {
  }

  lemma UnkeyedKeepsPast(s: Conn, e: Event)
    requires !Keyed(e)
    ensures Step(s, e).past == s.past
  {
    ScansKeepPast(s, if e.CmdScan? then e.start else Manual);
    AnswersKeepPast(s, e);
    hide TxData, M3, Connect, PowerOff, ClearKeys, Disconnect, Timeout, StartScan, EndScan, Authenticated, Associated, Derive;
  }

  lemma TimeoutFollows(s: Conn)
    ensures Follows(s.past, Timeout(s).past)
  {
    StayFollows(s.past);
    ClearFollows(s);
    hide Follows, ClearKeys;
  }

  lemma LeavingFollows(s: Conn, e: Event)
    requires e.Deauth? || e.TimerFired? || e.CmdDisconnect?
    ensures Follows(s.past, Step(s, e).past)
  {
    StayFollows(s.past);
    ClearFollows(s);
    ClearFollows(s.(cancelled := true));
    TimeoutFollows(s);
    hide Follows, ClearKeys, TxData, M3, Connect, PowerOff, Timeout, StartScan, EndScan, Authenticated, Associated, Derive;
  }

  /** Only the first message derives a key, and only while handshaking. */
  lemma StepFollows(s: Conn, e: Event)
    ensures Follows(if e.HandshakeM1? && s.phase.Handshaking? then Derive(s).past else s.past, Step(s, e).past)
  {
    StayFollows(s.past);
    if !Keyed(e) {
      UnkeyedKeepsPast(s, e);
    } else if e.Deauth? || e.TimerFired? || e.CmdDisconnect? {
      LeavingFollows(s, e);
    } else {
      hide Follows, TxData, M3, Connect, PowerOff, ClearKeys, Disconnect, Timeout, StartScan, EndScan, Authenticated, Associated, Derive;
      match e
      case CmdConnect(_, _, _, _, _, _) => ConnectFollows(s, e);
      case HandshakeM1(tx) => if s.phase.Handshaking? { TxFollows(Derive(s), true, tx); }
      case HandshakeM3(_, _, _, _, _, _) => M3Follows(s, e);
      case OutputPacket(eapol, tx) => TxFollows(s, eapol, tx);
      case CmdPowerOff(ended) => PowerOffFollows(s, ended);
    }
  }

  /** However a run goes on, repeated handshakes included, the packet numbers of an epoch only grow. */
  lemma {:induction false} CounterOnlyGrows(es: seq<Event>, fs: seq<Event>)
    ensures var s, t := Run(es), Run(es + fs);
      && s.past.epoch <= t.past.epoch
      && (t.past.epoch == s.past.epoch ==> s.past.used <= t.past.used && s.past.log <= t.past.log)
      && t.pn == t.past.used % PN_LIMIT
    decreases |fs|
  {
    hide Step;
    Reachable(es + fs);
    if fs == [] {
      assert es + fs == es;
    } else {
      var gs := es + fs[..|fs| - 1];
      CounterOnlyGrows(es, fs[..|fs| - 1]);
      Reachable(gs);
      assert (es + fs)[..|es + fs| - 1] == gs;
      StepFollows(Run(gs), fs[|fs| - 1]);
    }
  }

  // ---------- where the installed key comes from ----------

  /** A first message has been answered since the keys were last cleared. */
  predicate FirstMessageSeen(es: seq<Event>) {
    es != [] &&
    var p, e := Run(es[..|es| - 1]), es[|es| - 1];
    && Run(es).past.epoch == p.past.epoch
    && (FirstMessageSeen(es[..|es| - 1]) || (e.HandshakeM1? && p.phase.Handshaking?))
  }

  lemma {:induction false} DerivedExactly(es: seq<Event>)
    ensures Run(es).past.derived <==> FirstMessageSeen(es)
  {
    hide Step;
    if es != [] {
      DerivedExactly(es[..|es| - 1]);
      StepFollows(Run(es[..|es| - 1]), es[|es| - 1]);
    }
  }

  /** Installing the pairwise key: it was derived in this handshake exactly if a first message came before. */
  lemma InstalledKeyIsDerivedExactly(es: seq<Event>, e: Event)
    requires e.HandshakeM3? && Run(es).phase.Handshaking? && e.micOk && e.dataOk && e.ptkSet.Accepted?
    ensures Step(Run(es), e).ptk
    ensures Step(Run(es), e).past.fromM1 <==> FirstMessageSeen(es)
  {
    DerivedExactly(es);
    hide Run, FirstMessageSeen;
    AcceptedKey(Run(es), e);
  }

  lemma AcceptedKey(s: Conn, e: Event)
    requires e.HandshakeM3? && s.phase.Handshaking? && e.micOk && e.dataOk && e.ptkSet.Accepted?
    ensures Step(s, e).ptk && Step(s, e).past.fromM1 == s.past.derived
  {
    M3Step(s, e);
    InstalledKey(s, e);
    TxKeepsKey(Installed(s, e.gtk, e.ptkSet, e.gtkSet), true, e.tx);
    hide TxData, Step, Installed;
  }

  lemma M3Step(s: Conn, e: Event)
    requires e.HandshakeM3?
    ensures Step(s, e) == if s.phase.Handshaking? then M3(s, e) else s
  {
    hide TxData, M3, Connect, PowerOff, ClearKeys, Disconnect, Timeout, StartScan, EndScan, Authenticated, Associated, Derive;
  }

  lemma InstalledKey(s: Conn, e: Event)
    requires e.HandshakeM3? && e.ptkSet.Accepted?
    ensures var k := Installed(s, e.gtk, e.ptkSet, e.gtkSet);
      k.ptk && k.pn == 0 && k.past == s.past.(fromM1 := s.past.derived)
  {
  }

  lemma TxKeepsKey(s: Conn, eapol: bool, tx: TxOutcome)
    ensures TxData(s, eapol, tx).ptk == s.ptk && TxData(s, eapol, tx).past.fromM1 == s.past.fromM1
  {
    hide CcmpHeader, PnBytes;
  }

  lemma AssociatesFirst() returns (es: seq<Event>)
    ensures var s := Run(es); s.phase.Handshaking? && s.target.privacy && !s.past.derived
  {
    es := [];
    es := Then(es, CmdPowerOn(true));
    es := Then(es, CmdConnect(true, true, true, Some(Bss(true, Ccmp, true, false)), true, false));
    es := Then(es, AuthResponse(true, true, true));
    es := Then(es, AssocResponse(true, true, true));
  }

  /** The handlers accept a third message without a first one: a run that gets connected so. */
  lemma ThirdMessageAloneConnects() returns (es: seq<Event>)
    ensures Run(es).phase.Connected? && Run(es).target.privacy && Run(es).ptk && !Run(es).past.fromM1
  {
    es := AssociatesFirst();
    var e := HandshakeM3(true, true, false, Accepted, Accepted, Dropped);
    AcceptedKey(Run(es), e);
    M3Step(Run(es), e);
    es := Then(es, e);
    hide Run, Step;
  }

  lemma Then(es: seq<Event>, e: Event) returns (fs: seq<Event>)
    ensures fs == es + [e] && Run(fs) == Step(Run(es), e)
  {
    fs := es + [e];
    assert fs[..|fs| - 1] == es;
  }
}
