/**
 The slave as the source runs it: one set of variables, changed step by step by
 the state handler, the SyncManager handler and the cyclic driver.
 */
module Slave {
  import opened Words
  import opened ObjectDictionary
  import opened PdoMapping
  import opened BitSlice
  import opened ProcessData
  import Mailbox
  import opened CoeServer
  import opened SdoTransfer
  import opened AlControl
  import CyclicDriver

  /** What the mailbox SyncManagers' status registers show: full flags and the repeat bit. */
  datatype MbxFlags = MbxFlags(full0: bool, full1: bool, repeat: bool)

  /** The image after its first bytes were read from the chip. */
  ghost predicate IsRead(before: seq<uint64>, after: seq<uint64>, bs: seq<byte>) {
    && |after| == |before| && 8 * |bs| <= 64 * |before|
    && forall i: nat | i < 64 * |before| ::
         FlatBit(after, i) == if i < 8 * |bs| then Bit(bs[i / 8], i % 8) else FlatBit(before, i)
  }

  /** Requests that stop the mailboxes, and those that try to start them. */
  predicate Stops(state: nat, request: nat) { state in {2, 3, 4, 8} && request == 1 }
  predicate Starts(state: nat, request: nat) { (state == 1 && request in {2, 3}) || (state == 3 && request == 3) }

  /** These are the first bytes of the image. */
  ghost predicate StartsWith(image: seq<uint64>, bs: seq<byte>) {
    8 * |bs| <= 64 * |image| && forall b: nat | b < 8 * |bs| :: Bit(bs[b / 8], b % 8) == FlatBit(image, b)
  }

  class EcatSlave {
    const cfg: Config
    const dict: Dictionary
    const mem: Memory
    const mbx: Mailbox.Mailboxes
    const coe: CoeServer
    const map2: array<SMmap>
    const map3: array<SMmap>
    const rxpdo: array<uint64>
    const txpdo: array<uint64>
    const watchdogcnt: int
    var status: byte
    var control: uint16
    var error: uint16
    var app: nat
    var smtest: nat
    var boot: bool
    var sm2sml: uint16
    var sm3sml: uint16
    var sm2mappings: int
    var sm3mappings: int
    var watchdog: int
    var sm3data: seq<byte>     // what SyncManager 3 shows to the master
    ghost var log: seq<Event>

    ghost predicate Valid()
      reads this, mbx, mbx.control, mbx.buf
    {
      && mbx.Valid() && coe.mbx == mbx && coe.mem == mem && WellFormed(dict)
      && map2 != map3 && rxpdo != txpdo
      && -1 <= sm2mappings <= map2.Length && -1 <= sm3mappings <= map3.Length
    }

    ghost function Rx(): Pd
      reads this, map2
      requires sm2mappings <= map2.Length
    {
      Pd(sm2sml, sm2mappings, Lines(map2, sm2mappings))
    }

    ghost function Tx(): Pd
      reads this, map3
      requires sm3mappings <= map3.Length
    {
      Pd(sm3sml, sm3mappings, Lines(map3, sm3mappings))
    }

    ghost function View(): Al
      requires Valid()
      reads this, mbx, mbx.control, mbx.buf, map2, map3
    {
      Al(status, control, error, app, smtest, mbx.run, boot, Rx(), Tx(), log)
    }

    constructor (cfg: Config, coe: CoeServer, max2: nat, max3: nat, rxWords: nat, txWords: nat, watchdogcnt: int)
      requires coe.Valid() && WellFormed(coe.dict)
      ensures Valid() && fresh(map2) && fresh(map3) && fresh(rxpdo) && fresh(txpdo)
      ensures this.cfg == cfg && this.coe == coe && this.watchdogcnt == watchdogcnt && watchdog == watchdogcnt
      ensures map2.Length == max2 && map3.Length == max3 && rxpdo.Length == rxWords && txpdo.Length == txWords
      ensures app == 0 && log == [] && mbx == coe.mbx && mem == coe.mem && dict == coe.dict
    {
      this.cfg, this.coe, this.watchdogcnt := cfg, coe, watchdogcnt;
      dict, mem, mbx := coe.dict, coe.mem, coe.mbx;
      map2 := new SMmap[max2](_ => SMmap(None, None, 0));
      map3 := new SMmap[max3](_ => SMmap(None, None, 0));
      rxpdo := new uint64[rxWords](_ => 0);
      txpdo := new uint64[txWords](_ => 0);
      status, control, error, app, smtest, boot := INIT, 0, 0, 0, 0, false;
      sm2sml, sm3sml, sm2mappings, sm3mappings, watchdog, sm3data, log := 0, 0, 0, 0, watchdogcnt, [], [];
      new;
      assert map2 != map3 && rxpdo != txpdo;
    }

    method Note(e: Event)
      requires Valid()
      modifies this`log
      ensures Valid() && View() == Did(old(View()), e)
    {
      log := log + [e];
    }

    method AlError(code: uint16)
      requires Valid()
      modifies this`error, this`log
      ensures Valid() && View() == SetError(old(View()), code)
    {
      error := code;
      log := log + [WroteError(code)];
    }

    method AlStatus(status: byte)
      requires Valid()
      modifies this`status, this`log
      ensures Valid() && View() == SetStatus(old(View()), status)
    {
      this.status := status;
      log := log + [WroteStatus(status)];
    }

    method StopInput()
      requires Valid()
      modifies this`app, this`log
      ensures Valid() && View() == AlControl.StopInput(old(View()))
    {
      app := 0;
      log := log + [Disabled(3)] + [Disabled(2)];
    }

    method StopOutput()
      requires Valid()
      modifies this`app, this`log
      ensures Valid() && View() == AlControl.StopOutput(old(View()))
    {
      app := InputOnly(app);
      log := log + [Disabled(2)] + [SafeOutput];
    }

    method StartOutput()
      requires Valid()
      modifies this`app, this`log
      ensures Valid() && View() == AlControl.StartOutput(old(View()))
    {
      if sm2sml > 0 {
        log := log + [Enabled(2)];
      }
      app := WithOutput(app);
    }

    /** The mailboxes stop, every buffer is free again and a transfer in progress is forgotten. */
    method StopMbx()
      requires Valid()
      modifies this`log, mbx, mbx.control, coe
      ensures Valid() && View() == AlControl.StopMbx(old(View()))
      ensures mbx.View() == Mailbox.Stopped(old(mbx.View()))
      ensures coe.Sess() == Session(0, 0, 0, old(coe.data), 0, 0, 0)
    {
      log := log + [Disabled(0)] + [Disabled(1)];
      mbx.StopMbx();
      coe.ClearTransfer();
    }

    method CompareMbx(r: Regs) returns (ok: bool)
      requires Valid()
      modifies this`smtest, this`log
      ensures Valid() && View() == AlControl.CheckMbx(cfg, old(View()), r)
      ensures ok == MailboxesOk(cfg, boot, r)
    {
      hide MailboxSmOk;
      ok := MailboxSmOk(cfg, boot, 0, r.sm0);
      if !ok {
        smtest := ERRSM0;
      } else {
        ok := MailboxSmOk(cfg, boot, 1, r.sm1);
        if !ok {
          smtest := ERRSM1;
        }
      }
      if !ok {
        log := log + [Disabled(0)] + [Disabled(1)];
      }
    }

    /** The registers of both mailbox SyncManagers are read and compared with the settings in use. */
    method CheckMbx(r: Regs, f: MbxFlags) returns (ok: bool)
      requires Valid()
      modifies this`smtest, this`log, mbx`full0, mbx`full1, mbx`repeat
      ensures Valid() && View() == AlControl.CheckMbx(cfg, old(View()), r)
      ensures ok == MailboxesOk(cfg, boot, r)
      ensures mbx.View() == Mailbox.Loaded(old(mbx.View()), f.full0, f.full1, f.repeat)
    {
      hide MailboxesOk, AlControl.CheckMbx, Lines;
      mbx.LoadRegisters(f.full0, f.full1, f.repeat);
      ok := CompareMbx(r);
    }

    method CheckSm23(r: Regs) returns (ok: bool)
      requires Valid()
      modifies this`smtest
      ensures Valid() && View() == AlControl.CheckSm23(cfg, old(View()), r)
      ensures ok == Sm23Ok(cfg, old(View()), r)
    {
      ok := true;
      if r.sm2.psa != cfg.sm2sma || r.sm2.command != cfg.sm2smc || r.sm2.length != sm2sml {
        ok := false;
      } else if !cfg.sm2act && (r.sm2.active || sm2sml > 0) {
        ok := false;
      } else if cfg.sm2act && !r.sm2.active && sm2sml > 0 {
        ok := false;
      } else if cfg.sm2sma + 3 * r.sm2.length > cfg.sm3sma {
        ok := false;
      }
      if !ok {
        smtest := ERRSM2;
        return;
      }
      if r.sm3.psa != cfg.sm3sma || r.sm3.command != cfg.sm3smc || r.sm3.length != sm3sml {
        ok := false;
      } else if !cfg.sm3act && (r.sm3.active || sm3sml > 0) {
        ok := false;
      } else if cfg.sm3act && !r.sm3.active && sm3sml > 0 {
        ok := false;
      }
      if !ok {
        smtest := ERRSM3;
      }
    }

    /** The mailboxes run, in step with the master's repeat bit, or an error is reported. */
    method RunMbx(ok: bool, code: uint16)
      requires Valid()
      modifies this`error, this`log, mbx`toggle, mbx`run
      ensures Valid()
      ensures View() == if ok then old(View()).(run := true) else SetError(old(View()), code).(run := false)
      ensures mbx.View() == if ok then Mailbox.Started(old(mbx.View())) else old(mbx.View()).(run := false)
    {
      hide Lines;
      if ok {
        mbx.StartMbx();
      } else {
        AlError(code);
        mbx.run := false;
      }
    }

    method StartMbx(asBoot: bool, r: Regs, f: MbxFlags) returns (ok: bool)
      requires Valid()
      modifies this`boot, this`smtest, this`error, this`log, mbx
      ensures Valid() && View() == AlControl.StartMbx(cfg, old(View()), asBoot, r).0
      ensures ok == MailboxesOk(cfg, asBoot, r)
      ensures var loaded := Mailbox.Loaded(old(mbx.View()), f.full0, f.full1, f.repeat);
              mbx.View() == if ok then Mailbox.Started(loaded) else loaded.(run := false)
    {
      hide MailboxesOk, Lines, AlControl.CheckMbx, SetError, Mailbox.Started, Mailbox.Loaded, Mailbox.Shaped;
      boot := asBoot;
      log := log + [Enabled(0)] + [Enabled(1)];
      ok := CheckMbx(r, f);
      RunMbx(ok, if asBoot then ALERR_INVALIDBOOTMBXCONFIG else ALERR_INVALIDMBXCONFIG);
    }

    method StartInput(r: Regs) returns (ok: bool)
      requires Valid()
      modifies this`app, this`smtest, this`error, this`log
      ensures Valid() && View() == AlControl.StartInput(cfg, old(View()), r).0
      ensures ok == Sm23Ok(cfg, old(View()), r)
    {
      hide OutputSmOk, InputSmOk;
      ok := CheckSm23(r);
      if ok {
        if sm3sml > 0 {
          Note(Enabled(3));
        }
        app := 1;
      } else {
        log := log + [Disabled(2)] + [Disabled(3)];
        AlError(ProcessDataError(smtest));
      }
    }

    // Requests of the master

    ghost predicate CanMap()
      requires Valid()
      reads this, mem, mbx, mbx.control, mbx.buf
    {
      CanRecompute(dict, mem.cells, RX_PDO_OBJIDX) && CanRecompute(dict, mem.cells, TX_PDO_OBJIDX)
    }

    /** The mappings as they would be computed now. */
    ghost function FreshRx(): Pd
      requires Valid()
      reads this, mem, mbx, mbx.control, mbx.buf, map2
    {
      Remapped(dict, mem.cells, RX_PDO_OBJIDX, map2.Length, Rx())
    }

    ghost function FreshTx(): Pd
      requires Valid()
      reads this, mem, mbx, mbx.control, mbx.buf, map3
    {
      Remapped(dict, mem.cells, TX_PDO_OBJIDX, map3.Length, Tx())
    }

    method MapOutputs()
      requires Valid() && CanMap()
      modifies this`sm2sml, this`sm2mappings, map2
      ensures Valid() && CanMap() && View() == old(View()).(rx := old(FreshRx()))
      ensures FreshTx() == old(FreshTx())
    {
      hide Recomputed, CanRecompute;
      RecomputedFrom(dict, mem.cells, RX_PDO_OBJIDX, map2.Length, Rx());
      sm2sml, sm2mappings := SizeOfPDO(dict, mem, RX_PDO_OBJIDX, sm2mappings, map2, map2.Length);
    }

    method MapInputs()
      requires Valid() && CanMap()
      modifies this`sm3sml, this`sm3mappings, map3
      ensures Valid() && View() == old(View()).(tx := old(FreshTx()))
    {
      hide Recomputed, CanRecompute;
      RecomputedFrom(dict, mem.cells, TX_PDO_OBJIDX, map3.Length, Tx());
      sm3sml, sm3mappings := SizeOfPDO(dict, mem, TX_PDO_OBJIDX, sm3mappings, map3, map3.Length);
    }

    method EnterSafeOp(r: Regs) returns (next: byte)
      requires Valid() && CanMap()
      modifies this`sm2sml, this`sm2mappings, this`sm3sml, this`sm3mappings, this`app, this`smtest, this`error, this`log
      modifies map2, map3
      ensures Valid()
      ensures (View(), next) == old(AlControl.EnterSafeOp(cfg, View(), r, FreshRx(), FreshTx()))
    {
      hide Remapped, CanRecompute, Lines, AlControl.StartInput, SetError;
      MapOutputs();
      if sm2mappings < 0 {
        AlError(ALERR_INVALIDOUTPUTSM);
        return PREOP + ERROR;
      }
      MapInputs();
      if sm3mappings < 0 {
        AlError(ALERR_INVALIDINPUTSM);
        return PREOP + ERROR;
      }
      var ok := StartInput(r);
      if !ok {
        return PREOP + ERROR;
      }
      Note(Enabled(2));
      return SAFEOP;
    }

    method ForceSafe()
      requires Valid()
      modifies this`app, this`log
      ensures Valid() && View() == AlControl.ForceSafe(old(View()))
    {
      hide Lines, AlControl.StopOutput;
      StopOutput();
      if sm2sml == 0 && sm3sml > 0 {
        Note(Disabled(3));
      }
    }

    /** A state or a request that the switch does not know. */
    method UnknownRequest(state: nat, request: nat) returns (next: byte)
      requires Valid() && state < 0x10
      modifies this`app, this`error, this`log
      ensures Valid() && (View(), next) == UnknownState(old(View()), state, request)
    {
      hide Lines, AlControl.ForceSafe, AlControl.StopInput, SetError;
      if state == 8 {
        ForceSafe();
      }
      if state == 4 && request == 0 {
        StopInput();
      }
      AlError(ALERR_UNKNOWNSTATE);
      return if state == 8 then SAFEOP + ERROR else WithError(state);
    }

    method FromInit(request: nat, r: Regs, f: MbxFlags) returns (next: byte)
      requires Valid() && request < 0x10
      modifies this, map2, map3, mbx, mbx.control, coe
      ensures Valid()
      ensures (View(), next) == old(Transition(cfg, View(), 1, request, r, FreshRx(), FreshTx()))
      ensures Starts(1, request) ==>
                var loaded := Mailbox.Loaded(old(mbx.View()), f.full0, f.full1, f.repeat);
                mbx.View() == if mbx.run then Mailbox.Started(loaded) else loaded.(run := false)
      ensures coe.Sess() == old(coe.Sess())
      ensures !Starts(1, request) ==> mbx.View() == old(mbx.View())
    {
      hide Remapped, CanMap, Lines, AlControl.StopInput, AlControl.StopOutput, AlControl.StopMbx, AlControl.StartMbx,
        AlControl.EnterSafeOp, AlControl.StartOutput, AlControl.ForceSafe, SetError, UnknownState, MailboxesOk;
      if request == 1 {
        return INIT;
      } else if request == 2 {
        var ok := StartMbx(false, r, f);
        return if ok then PREOP else INIT + ERROR;
      } else if request == 3 {
        var ok := StartMbx(true, r, f);
        return if ok then BOOT else INIT + ERROR;
      } else if request == 4 || request == 8 {
        AlError(ALERR_INVALIDSTATECHANGE);
        return INIT + ERROR;
      }
      next := UnknownRequest(1, request);
    }

    method FromPreOp(request: nat, r: Regs) returns (next: byte)
      requires Valid() && request < 0x10 && (request == 4 ==> CanMap())
      modifies this, map2, map3, mbx, mbx.control, coe
      ensures Valid()
      ensures (View(), next) == old(Transition(cfg, View(), 2, request, r, FreshRx(), FreshTx()))
      ensures Stops(2, request) ==> mbx.View() == Mailbox.Stopped(old(mbx.View()))
      ensures coe.Sess() == if Stops(2, request) then Session(0, 0, 0, old(coe.data), 0, 0, 0) else old(coe.Sess())
      ensures !Stops(2, request) ==> mbx.View() == old(mbx.View())
    {
      hide Remapped, CanMap, Lines, AlControl.StopInput, AlControl.StopOutput, AlControl.StopMbx, AlControl.StartMbx,
        AlControl.EnterSafeOp, AlControl.StartOutput, AlControl.ForceSafe, SetError, UnknownState, MailboxesOk;
      if request == 2 {
        return PREOP;
      } else if request == 1 {
        StopMbx();
        return INIT;
      } else if request == 3 || request == 8 {
        AlError(ALERR_INVALIDSTATECHANGE);
        return PREOP + ERROR;
      } else if request == 4 {
        next := EnterSafeOp(r);
        return;
      }
      next := UnknownRequest(2, request);
    }

    method FromBoot(request: nat, r: Regs, f: MbxFlags) returns (next: byte)
      requires Valid() && request < 0x10
      modifies this, map2, map3, mbx, mbx.control, coe
      ensures Valid()
      ensures (View(), next) == old(Transition(cfg, View(), 3, request, r, FreshRx(), FreshTx()))
      ensures Starts(3, request) ==>
                var loaded := Mailbox.Loaded(old(mbx.View()), f.full0, f.full1, f.repeat);
                mbx.View() == if mbx.run then Mailbox.Started(loaded) else loaded.(run := false)
      ensures Stops(3, request) ==> mbx.View() == Mailbox.Stopped(old(mbx.View()))
      ensures coe.Sess() == if Stops(3, request) then Session(0, 0, 0, old(coe.data), 0, 0, 0) else old(coe.Sess())
      ensures !Starts(3, request) && !Stops(3, request) ==> mbx.View() == old(mbx.View())
    {
      hide Remapped, CanMap, Lines, AlControl.StopInput, AlControl.StopOutput, AlControl.StopMbx, AlControl.StartMbx,
        AlControl.EnterSafeOp, AlControl.StartOutput, AlControl.ForceSafe, SetError, UnknownState, MailboxesOk;
      if request == 3 {
        var ok := StartMbx(true, r, f);
        return if ok then BOOT else INIT + ERROR;
      } else if request == 1 {
        StopMbx();
        return INIT;
      } else if request == 2 || request == 4 || request == 8 {
        AlError(ALERR_INVALIDSTATECHANGE);
        return PREOP + ERROR;
      }
      next := UnknownRequest(3, request);
    }

    method FromSafeOp(request: nat, r: Regs) returns (next: byte)
      requires Valid() && request < 0x10 && (request == 4 ==> CanMap())
      modifies this, map2, map3, mbx, mbx.control, coe
      ensures Valid()
      ensures (View(), next) == old(Transition(cfg, View(), 4, request, r, FreshRx(), FreshTx()))
      ensures Stops(4, request) ==> mbx.View() == Mailbox.Stopped(old(mbx.View()))
      ensures coe.Sess() == if Stops(4, request) then Session(0, 0, 0, old(coe.data), 0, 0, 0) else old(coe.Sess())
      ensures !Stops(4, request) ==> mbx.View() == old(mbx.View())
    {
      hide Remapped, CanMap, Lines, AlControl.StopInput, AlControl.StopOutput, AlControl.StopMbx, AlControl.StartMbx,
        AlControl.EnterSafeOp, AlControl.StartOutput, AlControl.ForceSafe, SetError, UnknownState, MailboxesOk;
      if request == 1 {
        StopInput();
        StopMbx();
        return INIT;
      } else if request == 4 {
        next := EnterSafeOp(r);
        return;
      } else if request == 2 {
        StopInput();
        return PREOP;
      } else if request == 3 {
        AlError(ALERR_INVALIDSTATECHANGE);
        return SAFEOP + ERROR;
      } else if request == 8 {
        StartOutput();
        return OP;
      }
      next := UnknownRequest(4, request);
    }

    method FromOp(request: nat, r: Regs) returns (next: byte)
      requires Valid() && request < 0x10
      modifies this, map2, map3, mbx, mbx.control, coe
      ensures Valid()
      ensures (View(), next) == old(Transition(cfg, View(), 8, request, r, FreshRx(), FreshTx()))
      ensures Stops(8, request) ==> mbx.View() == Mailbox.Stopped(old(mbx.View()))
      ensures coe.Sess() == if Stops(8, request) then Session(0, 0, 0, old(coe.data), 0, 0, 0) else old(coe.Sess())
      ensures !Stops(8, request) ==> mbx.View() == old(mbx.View())
    {
      hide Remapped, CanMap, Lines, AlControl.StopInput, AlControl.StopOutput, AlControl.StopMbx, AlControl.StartMbx,
        AlControl.EnterSafeOp, AlControl.StartOutput, AlControl.ForceSafe, SetError, UnknownState, MailboxesOk;
      if request == 8 {
        return OP;
      } else if request == 1 {
        StopOutput();
        StopInput();
        StopMbx();
        return INIT;
      } else if request == 2 {
        StopOutput();
        StopInput();
        return PREOP;
      } else if request == 3 {
        AlError(ALERR_INVALIDSTATECHANGE);
        ForceSafe();
        return SAFEOP + ERROR;
      } else if request == 4 {
        StopOutput();
        return SAFEOP;
      }
      next := UnknownRequest(8, request);
    }

    /** The switch over state and request. */
    method ChangeState(state: nat, request: nat, r: Regs, f: MbxFlags) returns (next: byte)
      requires Valid() && state < 0x10 && request < 0x10 && (state in {2, 4} && request == 4 ==> CanMap())
      modifies this, map2, map3, mbx, mbx.control, coe
      ensures Valid()
      ensures (View(), next) == old(Transition(cfg, View(), state, request, r, FreshRx(), FreshTx()))
      ensures Stops(state, request) ==> mbx.View() == Mailbox.Stopped(old(mbx.View()))
      ensures Starts(state, request) ==>
                var loaded := Mailbox.Loaded(old(mbx.View()), f.full0, f.full1, f.repeat);
                mbx.View() == if mbx.run then Mailbox.Started(loaded) else loaded.(run := false)
      ensures !Stops(state, request) && !Starts(state, request) ==> mbx.View() == old(mbx.View())
      ensures coe.Sess() == if Stops(state, request) then Session(0, 0, 0, old(coe.data), 0, 0, 0) else old(coe.Sess())
    {
      if state !in {1, 2, 3, 4, 8} {
        next := UnknownRequest(state, request);
        return;
      }
      hide Remapped, CanMap, Lines, Transition, UnknownState;
      if state == 1 {
        next := FromInit(request, r, f);
      } else if state == 2 {
        next := FromPreOp(request, r);
      } else if state == 3 {
        next := FromBoot(request, r, f);
      } else if state == 4 {
        next := FromSafeOp(request, r);
      } else {
        next := FromOp(request, r);
      }
    }

    method DeviceId(next: byte, r: Regs) returns (flag: byte)
      requires Valid() && next < 0x20
      modifies this`error, this`log
      ensures Valid()
      ensures if IdRequested(control, next, r) && r.alias != 0 then
                flag == ID_REQUEST && View() == SetError(old(View()), r.alias)
              else flag == 0 && View() == old(View())
    {
      hide Lines, SetError;
      flag := 0;
      if IdRequested(control, next, r) && r.alias != 0 {
        AlError(r.alias);
        flag := ID_REQUEST;
      }
    }

    method Report(next: byte, r: Regs)
      requires Valid() && next < 0x20
      modifies this`status, this`error, this`log
      ensures Valid() && View() == AlControl.Report(old(View()), next, r)
    {
      hide Lines, SetError, SetStatus, HasError, IdRequested;
      if !HasError(next) && error != 0 {
        AlError(ALERR_NONE);
      }
      var flag := DeviceId(next, r);
      AlStatus(next + flag);
    }

    /** ESC_state */
    method EscState(event: bool, r: Regs, f: MbxFlags)
      requires Valid() && (Recomputes(View(), event, r) ==> CanMap())
      modifies this, map2, map3, mbx, mbx.control, coe
      ensures Valid()
      ensures View() == old(StateRequest(cfg, View(), event, r, FreshRx(), FreshTx()))
      ensures var state, request, m := old(status) % 0x10, r.control % 0x10, old(mbx.View());
              var taken := event && (old(status) / 0x10 % 2 == 0 || r.control / 0x10 % 2 == 1 || r.control % 0x20 == 1);
              if taken && request == 1 && state in {2, 3, 4, 8} then
                && mbx.View() == m.(run := false, control := seq(|m.control|, _ => Mailbox.Idle), outpost := 0, backup := 0, xoe := 0,
                                    free := true, toggle := false, incnt := 0, txcue := 0)
                && coe.Sess() == Session(0, 0, 0, old(coe.data), 0, 0, 0)
              else
                && coe.Sess() == old(coe.Sess())
                && mbx.View() ==
                   if taken && ((state == 1 && request in {2, 3}) || (state == 3 && request == 3)) then
                     m.(full0 := f.full0, full1 := f.full1, repeat := f.repeat, run := mbx.run,
                        toggle := if mbx.run then f.repeat else m.toggle)
                   else m
    {
      hide Remapped, CanRecompute, Lines, Transition, AlControl.Report, Unconfirmed;
      UnconfirmedIs(status, r.control);
      log := [];
      if !event {
        return;
      }
      control := r.control;
      if Unconfirmed(status, control) {
        return;
      }
      StatusBelow(cfg, View(), status % 0x10, control % 0x10, r, FreshRx(), FreshTx());
      var next := ChangeState(status % 0x10, control % 0x10, r, f);
      Report(next, r);
    }

    // Changed SyncManagers and errors

    method StepDown(code: uint16)
      requires Valid()
      modifies this`app, this`error, this`status, this`log
      ensures Valid() && View() == SteppedDown(old(View()), code)
    {
      hide Lines, SetError, SetStatus, AlControl.StopInput, AlControl.StopOutput;
      StopOutput();
      StopInput();
      AlError(code);
      AlStatus(PREOP + ERROR);
    }

    method LoseMbx()
      requires Valid()
      modifies this`app, this`error, this`status, this`log, mbx, mbx.control, coe
      ensures Valid() && View() == MailboxesLost(old(View()))
      ensures mbx.View() == Mailbox.Stopped(old(mbx.View()))
      ensures coe.Sess() == Session(0, 0, 0, old(coe.data), 0, 0, 0)
    {
      hide Lines, SetError, SetStatus, AlControl.StopInput, AlControl.StopOutput, AlControl.StopMbx;
      if app != 0 {
        StopOutput();
        StopInput();
      }
      StopMbx();
      AlError(ALERR_INVALIDMBXCONFIG);
      AlStatus(INIT + ERROR);
    }

    /** ESC_sm_act_event */
    method SmActEvent(event: bool, r: Regs, f: MbxFlags)
      requires Valid()
      modifies this, mbx, mbx.control, coe
      ensures Valid() && View() == SmChanged(cfg, old(View()), event, r)
      ensures !event || !old(mbx.run) ==> mbx.View() == old(mbx.View()) && coe.Sess() == old(coe.Sess())
      ensures if old(mbx.run) && !mbx.run then
                && mbx.View() == Mailbox.Stopped(Mailbox.Loaded(old(mbx.View()), f.full0, f.full1, f.repeat))
                && coe.Sess() == Session(0, 0, 0, old(coe.data), 0, 0, 0)
              else
                && coe.Sess() == old(coe.Sess())
                && mbx.View() in {old(mbx.View()), Mailbox.Loaded(old(mbx.View()), f.full0, f.full1, f.repeat)}
    {
      hide Lines, SetError, SetStatus, AlControl.StopInput, AlControl.StopOutput, AlControl.StopMbx, AlControl.CheckMbx,
        AlControl.CheckSm23, SteppedDown, MailboxesLost, MailboxesOk, Sm23Ok, Unconfirmed, ProcessDataError, Mailbox.Loaded,
        Mailbox.Stopped, Mailbox.Shaped;
      log := [];
      var as' := status % 0x20;
      if !event || as' / 2 % 8 == 0 || as' == BOOT || !mbx.run {
        return;
      }
      var ok := CheckMbx(r, f);
      var ok23 := CheckSm23(r);
      var ax23 := if ok23 then as' else PREOP + ERROR;
      if Unconfirmed(status, control) {
      } else if !ok {
        LoseMbx();
      } else if app != 0 && ax23 == PREOP + ERROR {
        StepDown(ProcessDataError(smtest));
      }
    }

    /** ESC_ALstatusgotoerror */
    method AlStatusGotoError(next: byte, code: uint16)
      requires Valid()
      modifies this`app, this`error, this`status, this`log
      ensures Valid() && View() == GoToError(old(View()), next, code)
    {
      hide Lines, SetError, SetStatus, AlControl.StopOutput, HasOutput;
      if next / OP % 2 == 1 {
        return;
      }
      if HasOutput(app) {
        StopOutput();
      }
      AlError(code);
      AlStatus(next);
    }

    // The cyclic driver

    method WatchdogPhase()
      requires Valid()
      modifies this`watchdog, this`app, this`error, this`status, this`log
      ensures Valid()
      ensures (View(), watchdog) == CyclicDriver.WatchdogPhase(old(View()), old(watchdog), watchdogcnt)
    {
      hide Lines, GoToError, HasOutput;
      if watchdog > 0 {
        watchdog := watchdog - 1;
      }
      if watchdog <= 0 && HasOutput(app) && sm2sml > 0 {
        AlStatusGotoError(SAFEOP + ERROR, ALERR_WATCHDOG);
      } else if !HasOutput(app) {
        watchdog := watchdogcnt;
      }
    }

    /** The lines of the output and input lists in use. */
    function OutputLines(): (ms: seq<SMmap>)
      requires sm2mappings <= map2.Length
      reads this, map2
      ensures ms == Rx().lines
    {
      if sm2mappings < 0 then [] else map2[..sm2mappings]
    }

    function InputLines(): (ms: seq<SMmap>)
      requires sm3mappings <= map3.Length
      reads this, map3
      ensures ms == Tx().lines
    {
      if sm3mappings < 0 then [] else map3[..sm3mappings]
    }

    /** Process data from the master: read from the SyncManager, and moved to the variables while outputs are live. */
    method OutputPhase(event: bool, input: seq<byte>)
      requires Valid() && |input| == sm2sml && 8 * sm2sml <= 64 * rxpdo.Length
      requires AllMovable(Rx().lines, mem.cells, rxpdo.Length)
      modifies this`watchdog, this`log, rxpdo, mem
      ensures Valid()
      ensures (View(), watchdog) == CyclicDriver.OutputPhase(old(View()), old(watchdog), watchdogcnt, event)
      ensures if event then IsRead(old(rxpdo[..]), rxpdo[..], input) else rxpdo[..] == old(rxpdo[..])
      ensures if HasOutput(app) && event then IsUnpacked(Rx().lines, |Rx().lines|, rxpdo[..], old(mem.cells), mem.cells)
              else mem.cells == old(mem.cells)
    {
      hide IsUnpacked, AllMovable, HasOutput;
      if event {
        CopyToImage(rxpdo, 0, input);
        if HasOutput(app) {
          PdoUnpack(rxpdo, OutputLines(), mem);
          watchdog := watchdogcnt;
          Note(AppliedOutputs);
        }
      }
    }

    /** The image's first bytes are written to SyncManager 3. */
    method ShowInputs()
      requires Valid() && 8 * sm3sml <= 64 * txpdo.Length
      modifies this`sm3data
      ensures Valid() && View() == old(View())
      ensures |sm3data| == sm3sml && StartsWith(txpdo[..], sm3data)
    {
      hide Lines, Bit, FlatBit;
      sm3data := CopyFromImage(txpdo, 0, sm3sml);
    }

    /** The application's inputs are fetched, which may change some of its variables, packed, and shown to the master. */
    method InputPhase(writes: map<nat, seq<byte>>)
      requires Valid() && AllMovable(Tx().lines, mem.cells, txpdo.Length) && Packable(Tx().lines)
      requires 8 * sm3sml <= 64 * txpdo.Length
      requires forall c | c in writes && c < |mem.cells| :: |writes[c]| == |mem.cells[c]|
      modifies this`log, this`sm3data, txpdo, mem
      ensures Valid() && View() == CyclicDriver.InputPhase(old(View()))
      ensures if app > 0 then
                && mem.cells == WithWrites(old(mem.cells), writes)
                && AllMovable(Tx().lines, mem.cells, txpdo.Length)
                && IsPacked(Tx().lines, |Tx().lines|, mem.cells, old(txpdo[..]), txpdo[..])
                && |sm3data| == sm3sml && StartsWith(txpdo[..], sm3data)
              else mem.cells == old(mem.cells) && txpdo[..] == old(txpdo[..]) && sm3data == old(sm3data)
    {
      if app > 0 {
        mem.cells := WithWrites(mem.cells, writes);
        hide AllMovable, Packable, IsPacked, WithWrites, Lines, StartsWith;
        PdoPack(txpdo, InputLines(), mem);
        ShowInputs();
        Note(FetchedInputs);
      }
    }

    /**
     DIG_process. mid is the storage between the two phases: the outputs are in
     it, the application's inputs are not yet fetched.
     */
    method DigProcess(p: CyclicDriver.Phases, event: bool, input: seq<byte>, writes: map<nat, seq<byte>>)
      returns (ghost mid: Store)
      requires Valid() && |input| == sm2sml && 8 * sm2sml <= 64 * rxpdo.Length && 8 * sm3sml <= 64 * txpdo.Length
      requires AllMovable(Rx().lines, mem.cells, rxpdo.Length)
      requires AllMovable(Tx().lines, mem.cells, txpdo.Length) && Packable(Tx().lines)
      requires forall c | c in writes && c < |mem.cells| :: |writes[c]| == |mem.cells[c]|
      modifies this`watchdog, this`app, this`error, this`status, this`sm3data, this`log, rxpdo, txpdo, mem
      ensures Valid()
      ensures (View(), watchdog) == CyclicDriver.Dig(old(View()), old(watchdog), watchdogcnt, p, event)
      ensures AllMovable(Rx().lines, old(mem.cells), rxpdo.Length)
      ensures if p.outputs && event then IsRead(old(rxpdo[..]), rxpdo[..], input) else rxpdo[..] == old(rxpdo[..])
      ensures if p.outputs && event && HasOutput(app) then
                IsUnpacked(Rx().lines, |Rx().lines|, rxpdo[..], old(mem.cells), mid)
              else mid == old(mem.cells)
      ensures if p.inputs && app > 0 then
                && mem.cells == WithWrites(mid, writes)
                && AllMovable(Tx().lines, mem.cells, txpdo.Length)
                && IsPacked(Tx().lines, |Tx().lines|, mem.cells, old(txpdo[..]), txpdo[..])
                && |sm3data| == sm3sml && StartsWith(txpdo[..], sm3data)
              else mem.cells == mid && sm3data == old(sm3data)
    {
      hide AllMovable, Packable, IsPacked, IsUnpacked, IsRead, StartsWith, WithWrites, CyclicDriver.WatchdogPhase, CyclicDriver.OutputPhase,
        CyclicDriver.InputPhase, Lines, HasOutput;
      log := [];
      ghost var before := mem.cells;
      if p.watchdog {
        WatchdogPhase();
      }
      if p.outputs {
        OutputPhase(event, input);
        UnpackedMovable(Rx().lines, rxpdo[..], before, mem.cells, Tx().lines, txpdo.Length, HasOutput(app) && event);
      }
      mid := mem.cells;
      if p.inputs {
        InputPhase(writes);
      }
    }

    /** The end of ecat_slv_init. */
    method Init()
      requires Valid()
      modifies this`status, this`error, this`app, this`log, mbx, mbx.control, coe
      ensures Valid() && View() == Initialised(old(View()))
    {
      hide Lines, SetError, SetStatus, AlControl.StopInput, AlControl.StopOutput, AlControl.StopMbx;
      log := [];
      AlStatus(INIT);
      AlError(ALERR_NONE);
      StopMbx();
      StopInput();
      StopOutput();
    }
  }

  /** The image holds the bits of what was read, and behind them what it held; what is shown are the image's bits. */
  lemma ImageBits(before: seq<uint64>, after: seq<uint64>, bs: seq<byte>, b: nat)
    requires b < 64 * |before|
    ensures IsRead(before, after, bs) ==>
              |after| == |before| && 8 * |bs| <= 64 * |before|
              && FlatBit(after, b) == if b < 8 * |bs| then Bit(bs[b / 8], b % 8) else FlatBit(before, b)
    ensures StartsWith(before, bs) && b < 8 * |bs| ==> Bit(bs[b / 8], b % 8) == FlatBit(before, b)
  {
  }

  lemma UnconfirmedIs(status: byte, control: uint16)
    ensures !Unconfirmed(status, control) <==> status / 0x10 % 2 == 0 || control / 0x10 % 2 == 1 || control % 0x20 == 1
  {
  }

  lemma RecomputedFrom(d: Dictionary, st: Store, index: nat, max: nat, before: Pd)
    requires CanRecompute(d, st, index)
    ensures Recomputed(d, st, index, max, before) == Recomputed(d, st, index, max, before.(size := 0))
  {
  }

  /** Storage after the application wrote some of its variables. */
  function WithWrites(st: Store, writes: map<nat, seq<byte>>): (r: Store)
    ensures |r| == |st| && forall c | 0 <= c < |st| :: r[c] == if c in writes then writes[c] else st[c]
  {
    seq(|st|, c requires 0 <= c < |st| => if c in writes then writes[c] else st[c])
  }

  /** Unpacking keeps the sizes of all variables, so that inputs can still be packed. */
  lemma UnpackedMovable(ms: seq<SMmap>, image: seq<uint64>, st: Store, after: Store, others: seq<SMmap>, words: nat, applied: bool)
    requires AllMovable(ms, st, |image|) && AllMovable(others, st, words)
    requires if applied then IsUnpacked(ms, |ms|, image, st, after) else after == st
    ensures SameSizes(st, after) && AllMovable(others, after, words)
  {
  }
}
