/**
 The handlers of the connection state machine on the object's own fields.  Each method
 refines one step, or one helper, of the machine in `ConnectionSpec`.
 */
module Connection {
  import opened ConnectionSpec
  import opened Wrappers

  // ---------- the packet number, six bytes with the least significant first ----------

  function Value(b: seq<nat>): nat {
    if b == [] then 0 else b[0] + 256 * Value(b[1..])
  }

  function Power256(n: nat): (p: nat)
    ensures p > 0
  {
    if n == 0 then 1 else 256 * Power256(n - 1)
  }

  predicate Bytes(b: seq<nat>) { forall i :: 0 <= i < |b| ==> b[i] < 256 }

  function Increment(b: seq<nat>): (c: seq<nat>)
    requires Bytes(b)
    ensures Bytes(c) && |c| == |b|
  {
    if b == [] then []
    else if b[0] == 255 then [0] + Increment(b[1..])
    else [b[0] + 1] + b[1..]
  }

  lemma {:induction false} ValueBelow(b: seq<nat>)
    requires Bytes(b)
    ensures Value(b) < Power256(|b|)
  {
    if b != [] {
      ValueBelow(b[1..]);
    }
  }

  /** Counting in bytes is counting modulo a power of 256. */
  lemma {:induction false} IncrementCounts(b: seq<nat>)
    requires Bytes(b)
    ensures Value(Increment(b)) == if Value(b) + 1 == Power256(|b|) then 0 else Value(b) + 1
  {
    if b != [] {
      var c := b[1..];
      ValueBelow(c);
      IncrementCounts(c);
      assert Value(b) == b[0] + 256 * Value(c);
      assert Increment(b)[1..] == if b[0] == 255 then Increment(c) else c;
    }
  }

  /** Bytes of 255 below place `i` turn over, the byte there grows, the rest stays. */
  lemma {:induction false} Carried(b: seq<nat>, c: seq<nat>, i: nat)
    requires Bytes(b) && |b| == |c| && i <= |b|
    requires forall k :: 0 <= k < i ==> b[k] == 255 && c[k] == 0
    requires i < |b| ==> b[i] != 255 && c[i] == b[i] + 1
    requires forall k :: i < k < |b| ==> c[k] == b[k]
    ensures c == Increment(b)
    decreases i
  {
    if b != [] {
      if i == 0 {
        assert c == [b[0] + 1] + b[1..];
      } else {
        Carried(b[1..], c[1..], i - 1);
        assert c == [0] + c[1..];
      }
    }
  }

  lemma {:induction false} ByteOfValue(b: seq<nat>, i: nat)
    requires Bytes(b) && i < |b|
    ensures PnByte(Value(b), i) == b[i]
    decreases i
  {
    assert Value(b) == b[0] + 256 * Value(b[1..]);
    if i > 0 {
      PnStep(Value(b), i);
      ByteOfValue(b[1..], i - 1);
      assert Value(b) / 256 == Value(b[1..]);
    }
  }

  lemma BytesOfValue(b: seq<nat>)
    requires Bytes(b) && |b| == 6
    ensures PnBytes(Value(b)) == b
  {
    hide PnByte;
    ByteOfValue(b, 0);
    ByteOfValue(b, 1);
    ByteOfValue(b, 2);
    ByteOfValue(b, 3);
    ByteOfValue(b, 4);
    ByteOfValue(b, 5);
  }

  lemma SixBytes()
    ensures Power256(6) == PN_LIMIT
  {
    assert Power256(6) == 256 * (256 * (256 * (256 * (256 * (256 * Power256(0))))));
  }

  lemma {:induction false} ZeroValue(b: seq<nat>)
    requires forall i :: 0 <= i < |b| ==> b[i] == 0
    ensures Value(b) == 0
  {
    if b != [] {
      ZeroValue(b[1..]);
    }
  }

  /** The loop of `txDataFrame` that takes the next packet number. */
  method TakePacketNumber(pn: array<nat>)
    requires pn.Length == 6 && Bytes(pn[..])
    modifies pn
    ensures pn[..] == Increment(old(pn[..]))
  {
    hide Increment;
    ghost var b := pn[..];
    var i := 0;
    while i < 6
      invariant 0 <= i <= 6
      invariant forall k :: 0 <= k < i ==> b[k] == 255 && pn[k] == 0
      invariant forall k :: i <= k < 6 ==> pn[k] == b[k]
    {
      pn[i] := (pn[i] + 1) % 256;
      if pn[i] != 0 {
        break;
      }
      i := i + 1;
    }
    Carried(b, pn[..], i);
  }

  lemma NextNumber(b: seq<nat>)
    requires Bytes(b) && |b| == 6
    ensures Value(Increment(b)) == (Value(b) + 1) % PN_LIMIT
  {
    hide Increment, Value;
    IncrementCounts(b);
    ValueBelow(b);
    SixBytes();
  }

  class Station {
    var phase: Phase
    var scanReturn: Phase
    var powered: bool
    var cancelled: bool
    var wpa2: bool
    var target: Bss
    var sta: bool
    var ptk: bool
    var gtk: bool
    const ccmpTxPn: array<nat>
    var manual: bool
    var onHome: bool
    ghost var past: Past

    ghost predicate Shape()
      reads this, ccmpTxPn
    {
      ccmpTxPn.Length == 6 && Bytes(ccmpTxPn[..])
    }

    /** Between handlers: the object keeps the invariant of the state machine. */
    ghost predicate Valid()
      reads this, ccmpTxPn
    {
      Shape() && Inv(State())
    }

    ghost function State(): Conn
      requires Shape()
      reads this, ccmpTxPn
    {
      Conn(phase, scanReturn, powered, cancelled, wpa2, target, sta, ptk, gtk, Value(ccmpTxPn[..]), manual, onHome, past)
    }

    constructor ()
      ensures Valid() && State() == START && fresh(ccmpTxPn)
    {
      phase, scanReturn, powered, cancelled := Idle, Idle, false, true;
      wpa2, target := false, Bss(false, NoCipher, false, false);
      sta, ptk, gtk, manual, onHome := false, false, false, false, false;
      ccmpTxPn := new nat[6](_ => 0);
      past := Past(0, 0, [], false, false);
      new;
      ZeroValue(ccmpTxPn[..]);
      Reachable([]);
    }

    // ---------- helpers ----------

    method ClearAllKeys()
      requires Shape()
      modifies this, ccmpTxPn
      ensures Shape() && State() == ClearKeys(old(State()))
    {
      ptk := false;
      gtk := false;
      forall i | 0 <= i < 6 {
        ccmpTxPn[i] := 0;
      }
      ZeroValue(ccmpTxPn[..]);
      past := Past(past.epoch + 1, 0, past.log, false, false);
    }

    method ReleaseSta()
      requires Shape()
      modifies this`sta
      ensures Shape() && State() == old(State()).(sta := false)
    {
      sta := false;
    }

    method DoDisconnect()
      requires Shape()
      modifies this, ccmpTxPn
      ensures Shape() && State() == Disconnect(old(State()))
    {
      ClearAllKeys();
      ReleaseSta();
      phase := Idle;
      scanReturn := Idle;
    }

    /** `installKey`: a key that does not fit changes nothing; otherwise the slot is emptied first, and stays so if the key is refused. */
    method InstallKey(pairwise: bool, key: Install) returns (ok: bool)
      requires Shape()
      modifies this`ptk, this`gtk, this`past, ccmpTxPn
      ensures Shape() && ok == key.Accepted?
      ensures State() == if pairwise then InstallPairwise(old(State()), key) else InstallGroup(old(State()), key)
    {
      if key.Unfit? {
        return false;
      }
      if pairwise {
        ptk := false;
        past := past.(fromM1 := false);
      } else {
        gtk := false;
      }
      if key.Refused? {
        return false;
      }
      if pairwise {
        ptk := true;
        past := past.(fromM1 := past.derived);
        forall i | 0 <= i < 6 {
          ccmpTxPn[i] := 0;
        }
        ZeroValue(ccmpTxPn[..]);
      } else {
        gtk := true;
      }
      ok := true;
    }

    /** `txDataFrame`; `tx` says whether the frame is dropped before or lost after its packet number is taken. */
    method TxDataFrame(eapol: bool, tx: TxOutcome)
      requires Shape()
      modifies this`past, ccmpTxPn
      ensures Shape() && State() == TxData(old(State()), eapol, tx)
    {
      hide CcmpHeader, PnBytes, Value, Increment;
      if !sta || tx.Dropped? {
        return;
      }
      var protect := wpa2 && ptk && !eapol;
      var ccmp := [];
      if protect {
        NextNumber(ccmpTxPn[..]);
        TakePacketNumber(ccmpTxPn);
        ccmp := CcmpHeader(ccmpTxPn[..]);
        BytesOfValue(ccmpTxPn[..]);
        past := past.(used := past.used + 1);
      }
      if !tx.Lost? {
        past := past.(log := past.log + [Frame(target, eapol, protect, ccmp, past.epoch, past.used)]);
      }
    }

    // ---------- scanning ----------

    method EndScanning()
      requires Shape()
      modifies this`phase, this`scanReturn, this`onHome
      ensures Shape() && State() == EndScan(old(State()))
    {
      if phase.Scanning? {
        phase := scanReturn;
        scanReturn := Idle;
        onHome := false;
      }
    }

    /** `scanDone`, its list of networks apart. */
    method OnScanDone()
      requires Valid()
      modifies this`phase, this`scanReturn, this`onHome
      ensures Valid() && State() == Step(old(State()), ScanDone)
    {
      StepKeeps(State(), ScanDone);
      EndScanning();
    }

    method AbortActiveScan(ended: bool) returns (free: bool)
      requires Shape()
      modifies this`phase, this`scanReturn, this`onHome
      ensures Shape() && (State(), free) == AbortScan(old(State()), ended)
    {
      if !phase.Scanning? {
        return true;
      }
      if ended {
        EndScanning();   // on the scan's own thread, while this one sleeps
        return true;
      }
      if manual {
        return false;
      }
      phase := scanReturn;
      scanReturn := Idle;
      onHome := false;
      free := true;
    }

    method OnCmdScan(start: ScanStart)
      requires Valid()
      modifies this`phase, this`scanReturn, this`manual, this`onHome
      ensures Valid() && State() == Step(old(State()), CmdScan(start))
    {
      StepKeeps(State(), CmdScan(start));
      if !phase.Idle? || !powered {
        return;
      }
      scanReturn := Idle;
      match start
      case Manual =>
        phase := Scanning;
        manual := true;
        onHome := false;
      case Offload =>
        phase := Scanning;
      case _ =>
    }

    /** One channel of `runManualScan`; `home` says that it is back on the home channel. */
    method OnManualScanChannel(home: bool)
      requires Valid()
      modifies this`onHome
      ensures Valid() && State() == Step(old(State()), ManualScanChannel(home))
    {
      StepKeeps(State(), ManualScanChannel(home));
      if phase.Scanning? && manual {
        onHome := home && scanReturn.Connected?;
      }
    }

    method OnManualScanEnd()
      requires Valid()
      modifies this`phase, this`scanReturn, this`manual, this`onHome
      ensures Valid() && State() == Step(old(State()), ManualScanEnd)
    {
      StepKeeps(State(), ManualScanEnd);
      if manual {
        EndScanning();
        manual := false;
        onHome := false;
      }
    }

    // ---------- connecting ----------

    method ForgetNetwork()
      requires Shape()
      modifies this, ccmpTxPn
      ensures Shape() && State() == ClearKeys(old(State())).(sta := false)
    {
      hide Value;
      ClearAllKeys();
      ReleaseSta();
    }

    method SetTarget(bss: Bss)
      requires Shape()
      modifies this`target
      ensures Shape() && State() == old(State()).(target := bss)
    {
      target := bss;
    }

    method StartAuthentication()
      requires Shape()
      modifies this`wpa2, this`cancelled, this`phase
      ensures Shape()
      ensures State() == old(State()).(wpa2 := old(State()).target.cipher.Ccmp?, cancelled := false, phase := Authenticating)
    {
      wpa2 := target.cipher.Ccmp?;
      cancelled := false;
      phase := Authenticating;
    }

    /** `cmdConnect` once it has found the station idle and ready. */
    method ConnectTarget(found: Option<Bss>, pmk: bool, password: bool)
      requires Shape()
      modifies this, ccmpTxPn
      ensures Shape() && State() == ConnectTo(old(State()), found, pmk, password)
    {
      hide State, ClearKeys;
      ForgetNetwork();
      if found.None? {
        return;
      }
      var bss := found.value;
      SetTarget(bss);
      if bss.privacy && (!bss.cipher.Ccmp? || !bss.psk) {
        return;
      }
      if (pmk && !bss.privacy) || (!pmk && !password && bss.privacy) {
        return;
      }
      StartAuthentication();
    }

    method OnCmdConnect(ended: bool, ssidOk: bool, threadOk: bool, found: Option<Bss>, pmk: bool, password: bool)
      requires Valid()
      modifies this, ccmpTxPn
      ensures Valid() && State() == Step(old(State()), CmdConnect(ended, ssidOk, threadOk, found, pmk, password))
    {
      StepKeeps(State(), CmdConnect(ended, ssidOk, threadOk, found, pmk, password));
      hide Value, AbortScan, ConnectTo;
      var free := AbortActiveScan(ended);
      if !free || !phase.Idle? || !ssidOk || !powered || !threadOk {
        return;
      }
      ConnectTarget(found, pmk, password);
    }

    /** The authentication case of `processRxMgmt`, with `doAssociate`. */
    method OnAuthResponse(valid: bool, accepted: bool, txOk: bool)
      requires Valid()
      modifies this`phase
      ensures Valid() && State() == Step(old(State()), AuthResponse(valid, accepted, txOk))
    {
      StepKeeps(State(), AuthResponse(valid, accepted, txOk));
      if phase.Authenticating? && !cancelled && valid {
        if accepted {
          phase := Associating;
          if !txOk {
            phase := Idle;
          }
        } else {
          phase := Idle;
        }
      }
    }

    /** `processAssocResponse`. */
    method OnAssocResponse(valid: bool, accepted: bool, staOk: bool)
      requires Valid()
      modifies this`phase, this`sta
      ensures Valid() && State() == Step(old(State()), AssocResponse(valid, accepted, staOk))
    {
      StepKeeps(State(), AssocResponse(valid, accepted, staOk));
      if !phase.Associating? || !valid || cancelled {
        return;
      }
      if !accepted {
        phase := Idle;
        return;
      }
      if !sta {
        sta := staOk;
      }
      phase := if wpa2 then Handshaking else Connected;
    }

    /** The disassociation and deauthentication cases of `processRxMgmt`. */
    method OnDeauth(fromTarget: bool, toUs: bool)
      requires Valid()
      modifies this, ccmpTxPn
      ensures Valid() && State() == Step(old(State()), Deauth(fromTarget, toUs))
    {
      StepKeeps(State(), Deauth(fromTarget, toUs));
      hide Value;
      if phase.Connected? || phase.Handshaking? || (phase.Scanning? && scanReturn.Connected?) {
        if !fromTarget || !toUs {
          return;
        }
        ClearAllKeys();
        phase := Idle;
        scanReturn := Idle;
      }
    }

    /** `handleEAPOL` for the first message, reached only while handshaking. */
    method OnHandshakeM1(tx: TxOutcome)
      requires Valid()
      modifies this, ccmpTxPn
      ensures Valid() && State() == Step(old(State()), HandshakeM1(tx))
    {
      StepKeeps(State(), HandshakeM1(tx));
      if phase.Handshaking? {
        DerivePairwise();
        TxDataFrame(true, tx);
      }
    }

    ghost method DerivePairwise()
      requires Shape()
      modifies this`past
      ensures Shape() && State() == Derive(old(State()))
    {
      past := past.(derived := true);
    }

    /** The two installs of `handleEAPOL`. */
    method InstallKeys(groupKey: bool, ptkSet: Install, gtkSet: Install) returns (ok: bool)
      requires Shape()
      modifies this`ptk, this`gtk, this`past, ccmpTxPn
      ensures Shape() && ok == (ptkSet.Accepted? && (groupKey ==> gtkSet.Accepted?))
      ensures State() == Installed(old(State()), groupKey, ptkSet, gtkSet)
    {
      hide State;
      ok := InstallKey(true, ptkSet);
      if ok && groupKey {
        ok := InstallKey(false, gtkSet);
      }
    }

    /** `handleEAPOL` for the third message. */
    method OnHandshakeM3(micOk: bool, dataOk: bool, groupKey: bool, ptkSet: Install, gtkSet: Install, tx: TxOutcome)
      requires Valid()
      modifies this, ccmpTxPn
      ensures Valid() && State() == Step(old(State()), HandshakeM3(micOk, dataOk, groupKey, ptkSet, gtkSet, tx))
    {
      StepKeeps(State(), HandshakeM3(micOk, dataOk, groupKey, ptkSet, gtkSet, tx));
      hide Value, TxData, Installed;
      if !phase.Handshaking? || !micOk || !dataOk {
        return;
      }
      var ok := InstallKeys(groupKey, ptkSet, gtkSet);
      if !ok {
        return;
      }
      TxDataFrame(true, tx);
      phase := Connected;
    }

    // ---------- leaving ----------

    method OnTimer()
      requires Valid()
      modifies this, ccmpTxPn
      ensures Valid() && State() == Step(old(State()), TimerFired)
    {
      StepKeeps(State(), TimerFired);
      hide Value;
      match phase
      case Scanning =>
        if !manual {
          phase := scanReturn;
          scanReturn := Idle;
        }
      case Associating => phase := Idle;
      case Handshaking => DoDisconnect();
      case _ =>
    }

    method OnCmdDisconnect()
      requires Valid()
      modifies this, ccmpTxPn
      ensures Valid() && State() == Step(old(State()), CmdDisconnect)
    {
      StepKeeps(State(), CmdDisconnect);
      hide Value;
      cancelled := true;
      if phase.Idle? {
        return;
      }
      DoDisconnect();
    }

    method PowerOn(started: bool)
      requires Shape()
      modifies this`powered, this`phase
      ensures Shape() && State() == Step(old(State()), CmdPowerOn(started))
    {
      if !powered {
        powered := started;
      }
      if powered && phase.Disconnecting? {
        phase := Idle;
      }
    }

    method OnCmdPowerOn(started: bool)
      requires Valid()
      modifies this`powered, this`phase
      ensures Valid() && State() == Step(old(State()), CmdPowerOn(started))
    {
      StepKeeps(State(), CmdPowerOn(started));
      PowerOn(started);
    }

    method LeaveNetwork()
      requires Shape()
      modifies this, ccmpTxPn
      ensures Shape()
      ensures State() == if Busy(old(State()).phase) then Disconnect(old(State())) else ClearKeys(old(State())).(sta := false)
    {
      hide Value;
      if phase.Connected? || phase.Authenticating? || phase.Associating? || phase.Handshaking? {
        DoDisconnect();
      } else {
        ForgetNetwork();
      }
    }

    method CancelScan(ended: bool) returns (free: bool)
      requires Shape()
      modifies this`cancelled, this`phase, this`scanReturn, this`onHome
      ensures Shape() && (State(), free) == AbortScan(old(State()).(cancelled := true), ended)
    {
      hide AbortScan;
      ghost var s := State();
      cancelled := true;
      assert State() == s.(cancelled := true);
      free := AbortActiveScan(ended);
    }

    method SwitchOff()
      requires Shape()
      modifies this`powered, this`phase, this`scanReturn
      ensures Shape() && State() == old(State()).(powered := false, phase := Idle, scanReturn := Idle)
    {
      powered := false;
      phase := Idle;
      scanReturn := Idle;
    }

    method OnCmdPowerOff(ended: bool)
      requires Valid()
      modifies this, ccmpTxPn
      ensures Valid() && State() == Step(old(State()), CmdPowerOff(ended))
    {
      StepKeeps(State(), CmdPowerOff(ended));
      hide State, AbortScan, Disconnect, ClearKeys;
      var free := CancelScan(ended);
      if !free {
        return;
      }
      LeaveNetwork();
      SwitchOff();
    }

    /** `outputPacket`. */
    method OnOutputPacket(eapol: bool, tx: TxOutcome)
      requires Valid()
      modifies this, ccmpTxPn
      ensures Valid() && State() == Step(old(State()), OutputPacket(eapol, tx))
    {
      StepKeeps(State(), OutputPacket(eapol, tx));
      hide Value, TxData;
      var connected := phase.Connected? || (phase.Scanning? && scanReturn.Connected? && (!manual || onHome));
      if !connected || !sta {
        NoStation(State(), eapol, tx);
        return;
      }
      TxDataFrame(eapol, tx);
    }
  }

  lemma NoStation(s: Conn, eapol: bool, tx: TxOutcome)
    ensures !s.sta ==> TxData(s, eapol, tx) == s
  {
  }
}
