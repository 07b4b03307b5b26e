/**
 The ways through the connection state machine: which answers a station must have had to be
 where it is, exactly which events take it from each phase, and where to.
 */
module ConnectionPaths {
  import opened Wrappers
  import opened ConnectionSpec

  // ---------- the phases ----------

  /** The command asks for a network that the station can join, with a secret exactly where one is needed. */
  predicate Joins(s: Conn, e: Event) {
    && e.CmdConnect? && e.ssidOk && e.threadOk && s.powered && e.found.Some?
    && if e.found.value.privacy then e.found.value.cipher.Ccmp? && e.found.value.psk && (e.pmk || e.password) else !e.pmk
  }

  /** The third message is good, and every key in it is installed. */
  predicate Completes(e: Event) {
    e.HandshakeM3? && e.micOk && e.dataOk && e.ptkSet.Accepted? && (e.gtk ==> e.gtkSet.Accepted?)
  }

  /** An active scan can be broken off: always, unless it is a manual one that does not end in time. */
  predicate CanEnd(s: Conn, ended: bool) { ended || !s.manual }

  /** Phase by phase, the events that end it, and what comes next. */
  function NextPhase(s: Conn, e: Event): Phase {
    match s.phase
    case Idle =>
      if e.CmdScan? && s.powered && (e.start.Manual? || e.start.Offload?) then Scanning
      else if Joins(s, e) then Authenticating
      else Idle
    case Scanning =>
      if e.ScanDone? || e.CmdDisconnect? || (e.ManualScanEnd? && s.manual) || (e.TimerFired? && !s.manual) then Idle
      else if e.CmdPowerOff? && CanEnd(s, e.ended) then Idle
      else if e.CmdConnect? && CanEnd(s, e.ended) then (if Joins(s, e) then Authenticating else Idle)
      else Scanning
    case Authenticating =>
      if e.CmdDisconnect? || e.CmdPowerOff? then Idle
      else if e.AuthResponse? && e.valid && !s.cancelled then (if e.accepted && e.txOk then Associating else Idle)
      else Authenticating
    case Associating =>
      if e.CmdDisconnect? || e.CmdPowerOff? || e.TimerFired? then Idle
      else if e.AssocResponse? && e.valid && !s.cancelled then
        (if !e.accepted then Idle else if s.wpa2 then Handshaking else Connected)
      else Associating
    case Handshaking =>
      if e.CmdDisconnect? || e.CmdPowerOff? || e.TimerFired? || e == Deauth(true, true) then Idle
      else if Completes(e) then Connected
      else Handshaking
    case Connected =>
      if e.CmdDisconnect? || e.CmdPowerOff? || e == Deauth(true, true) then Idle else Connected
    case Disconnecting => Disconnecting
  }

  lemma TxKeepsPhase(s: Conn, eapol: bool, tx: TxOutcome)
    ensures var t := TxData(s, eapol, tx); t.phase == s.phase && t.wpa2 == s.wpa2
  {
    hide CcmpHeader, PnBytes;
  }

  lemma InstalledKeepsPhase(s: Conn, gtk: bool, p: Install, g: Install)
    ensures var k := Installed(s, gtk, p, g); k.phase == s.phase && k.wpa2 == s.wpa2
  {
  }

  lemma M3Phase(s: Conn, e: Event)
    requires e.HandshakeM3? && s.phase.Handshaking?
    ensures M3(s, e).phase == if Completes(e) then Connected else Handshaking
  {
    var k := Installed(s, e.gtk, e.ptkSet, e.gtkSet);
    InstalledKeepsPhase(s, e.gtk, e.ptkSet, e.gtkSet);
    TxKeepsPhase(k, true, e.tx);
    hide TxData, Installed;
  }

  lemma ConnectPhase(s: Conn, e: Event)
    requires StateOk(s) && e.CmdConnect?
    ensures Connect(s, e).phase == NextPhase(s, e)
    ensures Connect(s, e).wpa2 == s.wpa2 || Connect(s, e).phase.Authenticating?
  {
    AbortIs(s, e.ended);
    var a := AbortScan(s, e.ended).0;
    ConnectToPhase(a, e);
    hide AbortScan, ConnectTo;
  }

  lemma AbortIs(s: Conn, ended: bool)
    requires StateOk(s)
    ensures var (a, free) := AbortScan(s, ended);
      && (free <==> !s.phase.Scanning? || CanEnd(s, ended))
      && a == s.(phase := a.phase, scanReturn := a.scanReturn, onHome := a.onHome)
      && a.phase == if s.phase.Scanning? && CanEnd(s, ended) then Idle else s.phase
  {
  }

  lemma ConnectToPhase(a: Conn, e: Event)
    requires e.CmdConnect?
    ensures var c := ConnectTo(a, e.found, e.pmk, e.password);
      && (a.phase.Idle? && e.ssidOk && e.threadOk && a.powered ==> c.phase == if Joins(a, e) then Authenticating else Idle)
      && (c.wpa2 == a.wpa2 || c.phase.Authenticating?)
  {
  }

  lemma PowerOffPhase(s: Conn, ended: bool)
    requires StateOk(s)
    ensures PowerOff(s, ended).phase == NextPhase(s, CmdPowerOff(ended))
  {
  }

  /** Every handler moves the phase exactly as the table says. */
  lemma PhaseIsNext(s: Conn, e: Event)
    requires StateOk(s)
    ensures Step(s, e).phase == NextPhase(s, e)
  {
    hide TxData, M3, Connect, PowerOff;
    match e
    case CmdConnect(_, _, _, _, _, _) => ConnectPhase(s, e); hide StateOk, NextPhase;
    case HandshakeM1(tx) => TxKeepsPhase(Derive(s), true, tx);
    case HandshakeM3(_, _, _, _, _, _) => if s.phase.Handshaking? { M3Phase(s, e); }
    case OutputPacket(eapol, tx) => TxKeepsPhase(s, eapol, tx);
    case CmdPowerOff(ended) => PowerOffPhase(s, ended); hide StateOk, NextPhase;
    case _ =>
  }

  // ---------- the answers behind a connection ----------

  /** An attempt to connect begins with this step. */
  predicate Begins(s: Conn, t: Conn) { t.phase.Authenticating? && !s.phase.Authenticating? }

  /** The authentication has been accepted, and the next request handed over, since the last attempt began. */
  predicate AuthAccepted(es: seq<Event>) {
    es != [] &&
    var before, e := es[..|es| - 1], es[|es| - 1];
    && !Begins(Run(before), Run(es))
    && (AuthAccepted(before) || (e.AuthResponse? && e.valid && e.accepted && e.txOk))
  }

  /** And after it the association. */
  predicate AssocAccepted(es: seq<Event>) {
    es != [] &&
    var before, e := es[..|es| - 1], es[|es| - 1];
    && !Begins(Run(before), Run(es))
    && (AssocAccepted(before) || (AuthAccepted(before) && e.AssocResponse? && e.valid && e.accepted))
  }

  /** And after that the third message of the handshake. */
  predicate ThirdAccepted(es: seq<Event>) {
    es != [] &&
    var before, e := es[..|es| - 1], es[|es| - 1];
    && !Begins(Run(before), Run(es))
    && (ThirdAccepted(before) || (AssocAccepted(before) && Completes(e)))
  }

  predicate Joined(p: Phase) { p.Associating? || p.Handshaking? || p.Connected? }

  /** What the phase after a step tells of the one before it and of the event. */
  lemma PhaseFollows(s: Conn, e: Event)
    ensures var p := NextPhase(s, e);
      && (p.Associating? ==> s.phase.Associating? || (e.AuthResponse? && e.valid && e.accepted && e.txOk))
      && (p.Handshaking? ==> s.phase.Handshaking? || (s.phase.Associating? && e.AssocResponse? && e.valid && e.accepted))
      && (p.Connected? ==>
            || s.phase.Connected?
            || (s.phase.Associating? && e.AssocResponse? && e.valid && e.accepted && !s.wpa2)
            || (s.phase.Handshaking? && Completes(e)))
  {
  }

  lemma M3KeepsCipher(s: Conn, e: Event)
    requires e.HandshakeM3?
    ensures M3(s, e).wpa2 == s.wpa2
  {
    var k := Installed(s, e.gtk, e.ptkSet, e.gtkSet);
    InstalledKeepsPhase(s, e.gtk, e.ptkSet, e.gtkSet);
    TxKeepsPhase(k, true, e.tx);
    hide TxData, Installed;
  }

  lemma EndsKeepCipher(s: Conn)
    ensures EndScan(s).wpa2 == s.wpa2 && ClearKeys(s).wpa2 == s.wpa2 && Disconnect(s).wpa2 == s.wpa2
  {
  }

  lemma TimeoutKeepsCipher(s: Conn)
    ensures Timeout(s).wpa2 == s.wpa2
  {
    EndsKeepCipher(s);
    hide Disconnect;
  }

  lemma AnswersKeepCipher(s: Conn, e: Event)
    ensures e.CmdScan? ==> StartScan(s, e.start).wpa2 == s.wpa2
    ensures e.AuthResponse? ==> Authenticated(s, e).wpa2 == s.wpa2
    ensures e.AssocResponse? ==> Associated(s, e).wpa2 == s.wpa2
  {
  }

  lemma PowerOffKeepsCipher(s: Conn, ended: bool)
    ensures PowerOff(s, ended).wpa2 == s.wpa2
  {
    var c := s.(cancelled := true);
    var a := AbortScan(c, ended).0;
    EndsKeepCipher(c);
    EndsKeepCipher(a);
    hide EndScan, ClearKeys, Disconnect;
  }

  lemma CommandsKeepCipher(s: Conn, e: Event)
    requires StateOk(s) && (e.CmdConnect? || e.HandshakeM1? || e.HandshakeM3? || e.OutputPacket? || e.CmdPowerOff?)
    ensures Step(s, e).wpa2 == s.wpa2 || Step(s, e).phase.Authenticating?
  {
    hide TxData, M3, Connect, PowerOff, StateOk;
    match e
    case CmdConnect(_, _, _, _, _, _) => ConnectPhase(s, e);
    case HandshakeM1(tx) => TxKeepsPhase(Derive(s), true, tx);
    case HandshakeM3(_, _, _, _, _, _) => M3KeepsCipher(s, e);
    case OutputPacket(eapol, tx) => TxKeepsPhase(s, eapol, tx);
    case CmdPowerOff(ended) => PowerOffKeepsCipher(s, ended);
  }

  lemma EndingsKeepCipher(s: Conn, e: Event)
    requires e.Deauth? || e.TimerFired? || e.CmdDisconnect?
    ensures Step(s, e).wpa2 == s.wpa2
  {
    EndsKeepCipher(s);
    EndsKeepCipher(s.(cancelled := true));
    TimeoutKeepsCipher(s);
    hide TxData, M3, Connect, PowerOff, Timeout, ClearKeys, Disconnect;
  }

  lemma ScansKeepCipher(s: Conn, e: Event)
    requires e.CmdScan? || e.ScanDone? || e.ManualScanChannel? || e.ManualScanEnd? || e.AuthResponse? || e.AssocResponse? || e.CmdPowerOn?
    ensures Step(s, e).wpa2 == s.wpa2
  {
    EndsKeepCipher(s);
    AnswersKeepCipher(s, e);
    hide TxData, M3, Connect, PowerOff, StartScan, EndScan, Authenticated, Associated;
  }

  lemma CipherStays(s: Conn, e: Event)
    requires StateOk(s)
    ensures Step(s, e).wpa2 == s.wpa2 || Step(s, e).phase.Authenticating?
  {
    hide Step, StateOk;
    if e.Deauth? || e.TimerFired? || e.CmdDisconnect? {
      EndingsKeepCipher(s, e);
    } else if e.CmdConnect? || e.HandshakeM1? || e.HandshakeM3? || e.OutputPacket? || e.CmdPowerOff? {
      CommandsKeepCipher(s, e);
    } else {
      ScansKeepCipher(s, e);
    }
  }

  /**
   In every run, a station that is associating has had its authentication accepted in this attempt;
   one that is handshaking or connected, its association after that; and one that is connected
   with WPA2, a good third message after both.
   */
  lemma {:induction false} JoinedInOrder(es: seq<Event>)
    ensures var s := Run(es);
      && (Joined(s.phase) ==> AuthAccepted(es))
      && (s.phase.Handshaking? || s.phase.Connected? ==> AssocAccepted(es))
      && (s.phase.Connected? && s.wpa2 ==> ThirdAccepted(es))
  {
    hide Step, LogOk, NextPhase;
    if es != [] {
      var before, e := es[..|es| - 1], es[|es| - 1];
      JoinedInOrder(before);
      Reachable(before);
      PhaseIsNext(Run(before), e);
      PhaseFollows(Run(before), e);
      CipherStays(Run(before), e);
    }
  }

  // ---------- frames and keys ----------

  /** The eight bytes of the CCMP header: the two low bytes of the packet number, a zero, the flag of the extended IV, the four others. */
  lemma HeaderBytes(pn: nat)
    ensures CcmpHeader(PnBytes(pn)) ==
            [pn % 256, pn / 256 % 256, 0, 0x20, pn / 0x1_0000 % 256, pn / 0x100_0000 % 256, pn / 0x1_0000_0000 % 256, pn / 0x100_0000_0000 % 256]
  {
    PnByteIs(pn);
    hide PnByte;
  }

  lemma PnByteIs(pn: nat)
    ensures PnByte(pn, 0) == pn % 256 && PnByte(pn, 1) == pn / 256 % 256
    ensures PnByte(pn, 2) == pn / 0x1_0000 % 256 && PnByte(pn, 3) == pn / 0x100_0000 % 256
    ensures PnByte(pn, 4) == pn / 0x1_0000_0000 % 256 && PnByte(pn, 5) == pn / 0x100_0000_0000 % 256
  {
    var a, b, c, d, f := pn / 256, pn / 256 / 256, pn / 256 / 256 / 256, pn / 256 / 256 / 256 / 256, pn / 256 / 256 / 256 / 256 / 256;
    assert PnByte(a, 0) == a % 256 && PnByte(b, 0) == b % 256 && PnByte(c, 0) == c % 256 && PnByte(d, 0) == d % 256 && PnByte(f, 0) == f % 256;
    assert PnByte(pn, 1) == PnByte(a, 0);
    assert PnByte(pn, 2) == PnByte(a, 1) == PnByte(b, 0);
    assert PnByte(pn, 3) == PnByte(a, 2) == PnByte(b, 1) == PnByte(c, 0);
    assert PnByte(pn, 4) == PnByte(a, 3) == PnByte(b, 2) == PnByte(c, 1) == PnByte(d, 0);
    assert PnByte(pn, 5) == PnByte(a, 4) == PnByte(b, 3) == PnByte(c, 2) == PnByte(d, 1) == PnByte(f, 0);
    assert b == pn / 0x1_0000 && c == pn / 0x100_0000 && d == pn / 0x1_0000_0000 && f == pn / 0x100_0000_0000;
  }

  /**
   A packet of a connected station with its peer goes out as exactly one data frame if it is sent,
   to the network in use, protected exactly under WPA2 with a pairwise key and not for EAPOL; it
   then has taken the next packet number, also if it is lost, and no other takes one.
   */
  lemma PacketGoesOut(s: Conn, eapol: bool, tx: TxOutcome)
    requires s.phase.Connected? && s.sta
    ensures var t := Step(s, OutputPacket(eapol, tx));
      var protect := s.wpa2 && s.ptk && !eapol && !tx.Dropped?;
      && t.phase.Connected? && t.ptk == s.ptk && t.past.epoch == s.past.epoch
      && t.past.used == s.past.used + (if protect then 1 else 0)
      && t.pn == (if protect then (s.pn + 1) % 0x1_0000_0000_0000 else s.pn)
      && s.past.log <= t.past.log && |t.past.log| == |s.past.log| + (if tx.Sent? then 1 else 0)
      && (tx.Sent? ==>
            var f := t.past.log[|s.past.log|];
            f.bss == s.target && f.eapol == eapol && f.protect == protect && f.epoch == s.past.epoch && f.ordinal == t.past.used)
  {
    Protected(s, eapol, tx);
    hide TxData;
  }

  lemma Protected(s: Conn, eapol: bool, tx: TxOutcome)
    requires s.sta
    ensures var t := TxData(s, eapol, tx);
      var protect := s.wpa2 && s.ptk && !eapol && !tx.Dropped?;
      && t.phase == s.phase && t.ptk == s.ptk && t.past.epoch == s.past.epoch
      && t.past.used == s.past.used + (if protect then 1 else 0)
      && t.pn == (if protect then (s.pn + 1) % 0x1_0000_0000_0000 else s.pn)
      && s.past.log <= t.past.log && |t.past.log| == |s.past.log| + (if tx.Sent? then 1 else 0)
      && (tx.Sent? ==>
            var f := t.past.log[|s.past.log|];
            f.bss == s.target && f.eapol == eapol && f.protect == protect && f.epoch == s.past.epoch && f.ordinal == t.past.used)
  {
    hide CcmpHeader, PnBytes;
  }

  /** Each good message of the handshake is answered with one EAPOL frame, not protected, if it is sent. */
  lemma HandshakeIsAnswered(s: Conn, e: Event)
    requires s.phase.Handshaking? && s.sta && (e.HandshakeM1? || Completes(e))
    ensures var l := Step(s, e).past.log;
      && s.past.log <= l && |l| == |s.past.log| + (if e.tx.Sent? then 1 else 0)
      && (e.tx.Sent? ==> l[|s.past.log|].eapol && !l[|s.past.log|].protect && l[|s.past.log|].bss == s.target)
  {
    if e.HandshakeM1? {
      Protected(Derive(s), true, e.tx);
    } else {
      var k := Installed(s, e.gtk, e.ptkSet, e.gtkSet);
      InstalledFields(s, e.gtk, e.ptkSet, e.gtkSet);
      Protected(k, true, e.tx);
      hide Installed;
    }
    hide TxData;
  }

  lemma InstalledFields(s: Conn, gtk: bool, p: Install, g: Install)
    ensures var k := Installed(s, gtk, p, g); k.sta == s.sta && k.manual == s.manual && k.target == s.target && k.past.log == s.past.log
  {
    PairwiseFields(s, p);
    GroupFields(InstallPairwise(s, p), g);
    hide InstallPairwise, InstallGroup;
  }

  lemma PairwiseFields(s: Conn, p: Install)
    ensures var k := InstallPairwise(s, p); k.sta == s.sta && k.manual == s.manual && k.target == s.target && k.past.log == s.past.log
  {
  }

  lemma GroupFields(s: Conn, g: Install)
    ensures var k := InstallGroup(s, g); k.sta == s.sta && k.manual == s.manual && k.target == s.target && k.past.log == s.past.log
  {
  }

  /** An attempt begins with the network asked for, WPA2 exactly for CCMP, and without keys, peer or a pending cancellation. */
  lemma AttemptBegins(s: Conn, e: Event)
    requires StateOk(s) && !s.phase.Authenticating? && Step(s, e).phase.Authenticating?
    ensures e.CmdConnect? && e.found.Some?
    ensures var t := Step(s, e);
      && t.target == e.found.value && (t.wpa2 <==> e.found.value.cipher.Ccmp?)
      && !t.ptk && !t.gtk && t.pn == 0 && !t.sta && !t.cancelled && t.past.epoch == s.past.epoch + 1
  {
    PhaseIsNext(s, e);
    assert e.CmdConnect?;
    AbortIs(s, e.ended);
    var a := AbortScan(s, e.ended).0;
    hide StateOk, NextPhase, AbortScan;
    AttemptOn(a, e);
    hide ConnectTo;
  }

  lemma AttemptOn(a: Conn, e: Event)
    requires e.CmdConnect? && a.phase.Idle? && ConnectTo(a, e.found, e.pmk, e.password).phase.Authenticating?
    ensures e.found.Some?
    ensures var t := ConnectTo(a, e.found, e.pmk, e.password);
      && t.target == e.found.value && (t.wpa2 <==> e.found.value.cipher.Ccmp?)
      && !t.ptk && !t.gtk && t.pn == 0 && !t.sta && !t.cancelled && t.past.epoch == a.past.epoch + 1
  {
  }

  /** Without keys and peer is also a station that was told to disconnect or to power off, or whose handshake took too long. */
  lemma DisconnectClears(s: Conn, e: Event)
    requires StateOk(s) && (e.CmdDisconnect? || e.CmdPowerOff? || (e.TimerFired? && s.phase.Handshaking?))
    requires !s.phase.Idle? && Step(s, e).phase.Idle?
    ensures Cleared(s, Step(s, e))
  {
    DisconnectIs(s);
    DisconnectIs(s.(cancelled := true));
    if e.CmdPowerOff? {
      PowerOffIs(s, e.ended);
    }
    hide StateOk, Disconnect, PowerOff, Cleared;
  }

  predicate Cleared(s: Conn, t: Conn) { !t.ptk && !t.gtk && t.pn == 0 && !t.sta && t.past.epoch > s.past.epoch }

  lemma DisconnectIs(s: Conn)
    ensures Cleared(s, Disconnect(s)) && Cleared(s, ClearKeys(s).(sta := false))
  {
  }

  lemma PowerOffIs(s: Conn, ended: bool)
    requires StateOk(s) && PowerOff(s, ended).phase.Idle?
    ensures Cleared(s, PowerOff(s, ended))
  {
    AbortIs(s.(cancelled := true), ended);
    var a := AbortScan(s.(cancelled := true), ended).0;
    DisconnectIs(a);
    hide AbortScan, Disconnect, ClearKeys;
  }

  /** A power-off that is carried out leaves the station without power, a refused one with it; power comes only by a start that succeeds. */
  lemma PowerChanges(s: Conn, e: Event)
    requires StateOk(s) && (e.CmdPowerOn? || e.CmdPowerOff?)
    ensures Step(s, e).powered <==>
            if e.CmdPowerOn? then s.powered || e.started else s.powered && s.phase.Scanning? && !CanEnd(s, e.ended)
  {
    AbortIs(s.(cancelled := true), if e.CmdPowerOff? then e.ended else true);
    hide AbortScan;
  }

  // ---------- the peer, and the mark of a manual scan ----------

  /** The peer is released by every disconnect but that of a deauthentication, and before each attempt to connect. */
  predicate ReleasesPeer(s: Conn, e: Event) {
    || (e.CmdDisconnect? && !s.phase.Idle?)
    || (e.TimerFired? && s.phase.Handshaking?)
    || (e.CmdPowerOff? && (!s.phase.Scanning? || CanEnd(s, e.ended)))
    || (e.CmdConnect? && e.ssidOk && e.threadOk && s.powered && (s.phase.Idle? || (s.phase.Scanning? && CanEnd(s, e.ended))))
  }

  /** It is added by an accepted association alone, if there is room for it. */
  predicate AddsPeer(s: Conn, e: Event) {
    s.phase.Associating? && !s.cancelled && e.AssocResponse? && e.valid && e.accepted && e.staOk
  }

  lemma ConnectPeer(s: Conn, e: Event)
    requires StateOk(s) && e.CmdConnect?
    ensures Connect(s, e).sta <==> s.sta && !ReleasesPeer(s, e)
    ensures Connect(s, e).manual == s.manual
  {
    AbortIs(s, e.ended);
    var a := AbortScan(s, e.ended).0;
    ConnectToPeer(a, e);
    hide AbortScan, ConnectTo, StateOk;
  }

  lemma ConnectToPeer(a: Conn, e: Event)
    requires e.CmdConnect?
    ensures !ConnectTo(a, e.found, e.pmk, e.password).sta && ConnectTo(a, e.found, e.pmk, e.password).manual == a.manual
  {
  }

  lemma PowerOffPeer(s: Conn, ended: bool)
    requires StateOk(s)
    ensures PowerOff(s, ended).sta <==> s.sta && !ReleasesPeer(s, CmdPowerOff(ended))
    ensures PowerOff(s, ended).manual == s.manual
  {
    AbortIs(s.(cancelled := true), ended);
    hide AbortScan;
  }

  lemma M3Peer(s: Conn, e: Event)
    requires e.HandshakeM3?
    ensures M3(s, e).sta == s.sta && M3(s, e).manual == s.manual
  {
    var k := Installed(s, e.gtk, e.ptkSet, e.gtkSet);
    InstalledFields(s, e.gtk, e.ptkSet, e.gtkSet);
    TxPeer(k, true, e.tx);
    hide TxData, Installed;
  }

  lemma TxPeer(s: Conn, eapol: bool, tx: TxOutcome)
    ensures TxData(s, eapol, tx).sta == s.sta && TxData(s, eapol, tx).manual == s.manual
  {
    hide CcmpHeader, PnBytes;
  }

  lemma EndsPeer(s: Conn)
    ensures EndScan(s).sta == s.sta && ClearKeys(s).sta == s.sta && !Disconnect(s).sta
    ensures EndScan(s).manual == s.manual && ClearKeys(s).manual == s.manual && Disconnect(s).manual == s.manual
  {
  }

  lemma TimeoutPeer(s: Conn)
    ensures Timeout(s).sta <==> s.sta && !s.phase.Handshaking?
    ensures Timeout(s).manual == s.manual
  {
    EndsPeer(s);
    hide Disconnect;
  }

  lemma AnswersPeer(s: Conn, e: Event)
    ensures e.CmdScan? ==> StartScan(s, e.start).sta == s.sta
    ensures e.CmdScan? ==> (StartScan(s, e.start).manual <==> s.manual || (s.phase.Idle? && s.powered && e.start.Manual?))
    ensures e.AuthResponse? ==> Authenticated(s, e).sta == s.sta && Authenticated(s, e).manual == s.manual
    ensures e.AssocResponse? ==> (Associated(s, e).sta <==> s.sta || AddsPeer(s, e)) && Associated(s, e).manual == s.manual
  {
  }

  ghost predicate PeerRight(s: Conn, e: Event) {
    && (Step(s, e).sta <==> (s.sta || AddsPeer(s, e)) && !ReleasesPeer(s, e))
    && (Step(s, e).manual <==>
          (s.manual || (e.CmdScan? && e.start.Manual? && s.phase.Idle? && s.powered)) && !e.ManualScanEnd?)
  }

  lemma CommandsPeer(s: Conn, e: Event)
    requires StateOk(s) && (e.CmdConnect? || e.HandshakeM1? || e.HandshakeM3? || e.OutputPacket? || e.CmdPowerOff?)
    ensures PeerRight(s, e)
  {
    hide TxData, M3, Connect, PowerOff, StateOk;
    match e
    case CmdConnect(_, _, _, _, _, _) => ConnectPeer(s, e);
    case HandshakeM1(tx) => TxPeer(Derive(s), true, tx);
    case HandshakeM3(_, _, _, _, _, _) => M3Peer(s, e);
    case OutputPacket(eapol, tx) => TxPeer(s, eapol, tx);
    case CmdPowerOff(ended) => PowerOffPeer(s, ended);
  }

  lemma EndingsPeer(s: Conn, e: Event)
    requires e.Deauth? || e.TimerFired? || e.CmdDisconnect?
    ensures PeerRight(s, e)
  {
    EndsPeer(s);
    EndsPeer(s.(cancelled := true));
    TimeoutPeer(s);
    hide TxData, M3, Connect, PowerOff, Timeout, ClearKeys, Disconnect;
  }

  lemma ScansPeer(s: Conn, e: Event)
    requires e.CmdScan? || e.ScanDone? || e.ManualScanChannel? || e.ManualScanEnd? || e.AuthResponse? || e.AssocResponse? || e.CmdPowerOn?
    ensures PeerRight(s, e)
  {
    EndsPeer(s);
    AnswersPeer(s, e);
    hide TxData, M3, Connect, PowerOff, StartScan, EndScan, Authenticated, Associated;
  }

  /**
   The station has a peer exactly from an association on that could add it, to the next release;
   a scan counts as manual exactly from its start as one to the end that its driver reports.
   */
  lemma PeerChangesExactly(s: Conn, e: Event)
    requires StateOk(s)
    ensures Step(s, e).sta <==> (s.sta || AddsPeer(s, e)) && !ReleasesPeer(s, e)
    ensures Step(s, e).manual <==>
            (s.manual || (e.CmdScan? && e.start.Manual? && s.phase.Idle? && s.powered)) && !e.ManualScanEnd?
  {
    hide Step, StateOk, AddsPeer, ReleasesPeer;
    if e.Deauth? || e.TimerFired? || e.CmdDisconnect? {
      EndingsPeer(s, e);
    } else if e.CmdConnect? || e.HandshakeM1? || e.HandshakeM3? || e.OutputPacket? || e.CmdPowerOff? {
      CommandsPeer(s, e);
    } else {
      ScansPeer(s, e);
    }
  }
}
