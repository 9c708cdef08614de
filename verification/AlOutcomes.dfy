/**
 Where a request leads: the state reached, the error code and what still runs,
 for every pair of state and request, in the numbers of the AL control and
 status registers.
 */
module AlOutcomes {
  import opened Words
  import opened PdoMapping
  import opened AlControl
  import opened AlRuns

  // What the registers have to show

  /** Both mailbox SyncManagers are as configured: SyncManager 1 right behind 0. */
  predicate MailboxesFit(size: uint16, r: Regs) {
    && r.sm0 == SmReg(0x1000, size, 0x26, true)
    && r.sm1 == SmReg((0x1000 + size) % 0x1_0000, size, 0x22, true)
  }

  /** Address, settings and length are as computed; it is active exactly if it moves data and the application activates it. */
  predicate DataFits(sm: SmReg, address: uint16, settings: byte, activated: bool, bytes: uint16) {
    && sm.psa == address && sm.command == settings && sm.length == bytes
    && (bytes > 0 ==> activated && sm.active)
    && (!activated ==> !sm.active)
  }

  /** Three buffers of output data fit in front of the input data. */
  predicate OutputsFit(cfg: Config, r: Regs, bytes: uint16) {
    DataFits(r.sm2, cfg.sm2sma, cfg.sm2smc, cfg.sm2act, bytes) && cfg.sm2sma + 3 * bytes <= cfg.sm3sma
  }

  predicate InputsFit(cfg: Config, r: Regs, bytes: uint16) {
    DataFits(r.sm3, cfg.sm3sma, cfg.sm3smc, cfg.sm3act, bytes)
  }

  lemma FitIsOk(cfg: Config, r: Regs, boot: bool, rx: uint16, tx: uint16)
    ensures MailboxesOk(cfg, boot, r) == MailboxesFit(if boot then cfg.mbxSizeBoot else cfg.mbxSize, r)
    ensures OutputSmOk(cfg, r, rx) == OutputsFit(cfg, r, rx) && InputSmOk(cfg, r, tx) == InputsFit(cfg, r, tx)
  {
  }

  // The table

  /** An error of the last request is pending, and this one neither confirms it nor asks for Init. */
  predicate Ignored(status: byte, control: uint16) {
    status / 0x10 % 2 == 1 && control / 0x10 % 2 == 0 && control % 0x20 != 1
  }

  /** Both lists can be computed, and the SyncManagers are set for them. */
  predicate MappingFits(cfg: Config, r: Regs, rx: Pd, tx: Pd) {
    rx.nm >= 0 && tx.nm >= 0 && OutputsFit(cfg, r, rx.size) && InputsFit(cfg, r, tx.size)
  }

  /** The request is granted. States: 1 Init, 2 Pre-Op, 3 Bootstrap, 4 Safe-Op, 8 Op. */
  predicate Granted(cfg: Config, state: nat, request: nat, r: Regs, rx: Pd, tx: Pd) {
    match request
    case 1 => true
    case 2 => state in {2, 4, 8} || (state == 1 && MailboxesFit(cfg.mbxSize, r))
    case 3 => state in {1, 3} && MailboxesFit(cfg.mbxSizeBoot, r)
    case 4 => state == 8 || (state in {2, 4} && MappingFits(cfg, r, rx, tx))
    case 8 => state in {4, 8}
    case _ => false
  }

  /** Otherwise: the state shown together with the error bit. */
  function FallsTo(state: nat, request: nat): nat {
    if state == 8 then 4
    else if state == 4 && request == 4 then 2
    else if state == 3 && request in {2, 4, 8} then 2
    else if state == 3 && request == 3 then 1
    else state
  }

  /** And the error code. */
  function Reason(cfg: Config, state: nat, request: nat, r: Regs, rx: Pd, tx: Pd): uint16 {
    if request !in {1, 2, 3, 4, 8} then 0x12 // unknown requested state
    else if state == 1 && request == 2 then 0x16 // invalid mailbox configuration
    else if state in {1, 3} && request == 3 then 0x15 // invalid mailbox configuration, Bootstrap
    else if state in {2, 4} && request == 4 then
      if rx.nm < 0 || (tx.nm >= 0 && !OutputsFit(cfg, r, rx.size)) then 0x1D // invalid output configuration
      else 0x1E // invalid input configuration
    else 0x11 // invalid requested state change
  }

  /** Bit 0 says that inputs run, bit 1 that outputs do. */
  function StillRuns(cfg: Config, s: Al, request: nat, r: Regs, rx: Pd, tx: Pd): nat {
    var state := StateOf(s);
    if state in {4, 8} && request in {1, 2} then 0
    else if state == 8 && request != 8 then s.app % 2
    else if state == 4 && request == 0 then 0
    else if state in {2, 4} && request == 4 && MappingFits(cfg, r, rx, tx) then 1
    else if state == 4 && request == 8 then s.app % 2 + 2
    else s.app
  }

  /** The master asks for the identification value in a state that tells it, and there is one. */
  predicate TellsId(control: uint16, reported: byte, r: Regs) {
    && control / 0x20 % 2 == 1 && control % 0x10 != 3 && (control % 0x10 < 4 || reported in {4, 8})
    && r.statusCode == 0 && r.alias != 0
  }

  lemma EnteringLeadsTo(cfg: Config, s: Al, r: Regs, rx: Pd, tx: Pd)
    ensures var (t, status) := EnterSafeOp(cfg, s, r, rx, tx);
            if MappingFits(cfg, r, rx, tx) then status == 4 && t.error == s.error && t.app == 1
            else
              && status == 0x12 && t.app == s.app
              && t.error == (if rx.nm < 0 || (tx.nm >= 0 && !OutputsFit(cfg, r, rx.size)) then 0x1D else 0x1E)
  {
    FitIsOk(cfg, r, false, rx.size, tx.size);
    hide OutputsFit, InputsFit, OutputSmOk, InputSmOk;
  }

  lemma StartingLeadsTo(cfg: Config, s: Al, boot: bool, r: Regs)
    ensures var (t, ok) := StartMbx(cfg, s, boot, r);
            && ok == MailboxesFit(if boot then cfg.mbxSizeBoot else cfg.mbxSize, r) && t.app == s.app
            && t.error == (if ok then s.error else if boot then 0x15 else 0x16)
  {
    FitIsOk(cfg, r, boot, 0, 0);
    hide MailboxesFit, MailboxesOk, CheckMbx;
  }

  /** What the status register will show, without the bit that goes with the identification value. */
  ghost predicate LeadsTo(cfg: Config, s: Al, request: nat, r: Regs, rx: Pd, tx: Pd) {
    var (t, status) := Transition(cfg, s, StateOf(s), request, r, rx, tx);
    && t.app == StillRuns(cfg, s, request, r, rx, tx)
    && (if Granted(cfg, StateOf(s), request, r, rx, tx) then status == request && t.error == s.error
        else status == 0x10 + FallsTo(StateOf(s), request)
             && t.error == Reason(cfg, StateOf(s), request, r, rx, tx) != 0)
  }

  lemma LeadsFromBelow(cfg: Config, s: Al, request: nat, r: Regs, rx: Pd, tx: Pd)
    requires Consistent(cfg, s) && StateOf(s) in {1, 2, 3} && request < 0x10
    ensures LeadsTo(cfg, s, request, r, rx, tx)
  {
    hide MailboxesFit, OutputsFit, InputsFit, MappingFits, MailboxesOk, Did, EnterSafeOp, StartMbx, StopMbx, SetError, Sm23Ok;
    EnteringLeadsTo(cfg, s, r, rx, tx);
    StartingLeadsTo(cfg, s, false, r);
    StartingLeadsTo(cfg, s, true, r);
  }

  lemma LeadsFromExchange(cfg: Config, s: Al, request: nat, r: Regs, rx: Pd, tx: Pd)
    requires Consistent(cfg, s) && StateOf(s) in {4, 8} && request < 0x10
    ensures LeadsTo(cfg, s, request, r, rx, tx)
  {
    hide MailboxesFit, OutputsFit, InputsFit, MappingFits, MailboxesOk, Did, EnterSafeOp, StartMbx, StopInput, StopOutput, StopMbx,
      StartOutput, ForceSafe, SetError, Sm23Ok;
    EnteringLeadsTo(cfg, s, r, rx, tx);
  }

  lemma Reported(s: Al, status: byte, r: Regs)
    requires status < 0x20
    ensures var t := Report(s, status, r);
            && t.app == s.app && t.status == status + (if TellsId(s.control, status, r) then 0x20 else 0)
            && t.error == (if TellsId(s.control, status, r) then r.alias
                           else if status < 0x10 then 0 else s.error)
            && t.log == s.log + (if status < 0x10 && s.error != 0 then [WroteError(0)] else [])
                        + (if TellsId(s.control, status, r) then [WroteError(r.alias)] else []) + [WroteStatus(t.status)]
  {
  }

  /**
   Every request that is not ignored: a granted one leads to the requested state
   and clears the error, any other one to a state at or below the one left, with
   the error bit and its error code; and what runs afterwards.
   */
  lemma RequestLeadsTo(cfg: Config, s: Al, r: Regs, rx: Pd, tx: Pd)
    requires Consistent(cfg, s) && !Ignored(s.status, r.control)
    ensures var request := r.control % 0x10;
            var reported := if Granted(cfg, StateOf(s), request, r, rx, tx) then request else 0x10 + FallsTo(StateOf(s), request);
            var t := StateRequest(cfg, s, true, r, rx, tx);
            && FallsTo(StateOf(s), request) <= StateOf(s)
            && t.status == reported + (if TellsId(r.control, reported, r) then 0x20 else 0)
            && t.error == (if TellsId(r.control, reported, r) then r.alias
                           else if reported < 0x10 then 0 else Reason(cfg, StateOf(s), request, r, rx, tx))
            && t.app == StillRuns(cfg, s, request, r, rx, tx)
            && t.run == (t.status % 0x10 != 1)
            && t.log == Actions(cfg, s, request, r, rx, tx)
                        + (if reported < 0x10 && s.error != 0 then [WroteError(0)] else [])
                        + (if TellsId(r.control, reported, r) then [WroteError(r.alias)] else [])
                        + [WroteStatus(t.status)]
  {
    var s1 := s.(log := [], control := r.control);
    assert Consistent(cfg, s1) && StateOf(s1) == StateOf(s);
    if StateOf(s1) in {4, 8} {
      LeadsFromExchange(cfg, s1, r.control % 0x10, r, rx, tx);
      if StateOf(s1) == 4 { ActsFromSafeOp(cfg, s1, r.control % 0x10, r, rx, tx); }
      if StateOf(s1) == 8 { ActsFromOp(cfg, s1, r.control % 0x10, r, rx, tx); }
    } else {
      LeadsFromBelow(cfg, s1, r.control % 0x10, r, rx, tx);
      ActsFromBelow(cfg, s1, r.control % 0x10, r, rx, tx);
    }
    StatusBelow(cfg, s1, StateOf(s), r.control % 0x10, r, rx, tx);
    var (t, status) := Transition(cfg, s1, StateOf(s), r.control % 0x10, r, rx, tx);
    TransitionKeepsControl(cfg, s1, r.control % 0x10, r, rx, tx);
    SameActions(cfg, s, s1, r.control % 0x10, r, rx, tx);
    Reported(t, status, r);
    StateRequestConsistent(cfg, s, true, r, rx, tx);
    hide Transition, Report, Granted, Reason, TellsId, Actions;
  }

  lemma SameActions(cfg: Config, s: Al, s1: Al, request: nat, r: Regs, rx: Pd, tx: Pd)
    requires s1 == s.(log := s1.log, control := s1.control)
    ensures Actions(cfg, s1, request, r, rx, tx) == Actions(cfg, s, request, r, rx, tx)
    ensures StillRuns(cfg, s1, request, r, rx, tx) == StillRuns(cfg, s, request, r, rx, tx)
  {
  }

  lemma TransitionKeepsControl(cfg: Config, s: Al, request: nat, r: Regs, rx: Pd, tx: Pd)
    requires Consistent(cfg, s)
    ensures Transition(cfg, s, StateOf(s), request, r, rx, tx).0.control == s.control
  {
    hide Did, SetError, StopInput, StopOutput, StopMbx, StartOutput, ForceSafe, StartMbx, EnterSafeOp, MailboxesOk;
  }

  /** An ignored request changes nothing but what the control register showed. */
  lemma RequestIgnored(cfg: Config, s: Al, event: bool, r: Regs, rx: Pd, tx: Pd)
    requires !event || Ignored(s.status, r.control)
    ensures StateRequest(cfg, s, event, r, rx, tx) == s.(log := [], control := if event then r.control else s.control)
  {
  }

  // What is done on the way

  function SafeOutputs(s: Al): seq<Event> {
    [Disabled(2), SafeOutput] + (if s.rx.size == 0 && s.tx.size > 0 then [Disabled(3)] else [])
  }

  function StartingInputs(cfg: Config, state: nat, request: nat, r: Regs, rx: Pd, tx: Pd): seq<Event> {
    if MappingFits(cfg, r, rx, tx) then (if tx.size > 0 then [Enabled(3)] else []) + [Enabled(2)]
    else (if rx.nm < 0 || tx.nm < 0 then [] else [Disabled(2), Disabled(3)])
         + [WroteError(Reason(cfg, state, request, r, rx, tx))]
  }

  /** Enabled and disabled SyncManagers, calls of the safe-output hook, and error codes written, in order. */
  function Actions(cfg: Config, s: Al, request: nat, r: Regs, rx: Pd, tx: Pd): seq<Event> {
    var state := StateOf(s);
    var error := WroteError(Reason(cfg, state, request, r, rx, tx));
    if request == 1 || (request == 2 && state in {4, 8}) || (request == 4 && state == 8) then
      (if state == 8 then [Disabled(2), SafeOutput] else [])
      + (if state in {4, 8} && request != 4 then [Disabled(3), Disabled(2)] else [])
      + (if state != 1 && request == 1 then [Disabled(0), Disabled(1)] else [])
    else if (state == 1 && request == 2) || (state in {1, 3} && request == 3) then
      [Enabled(0), Enabled(1)]
      + (if Granted(cfg, state, request, r, rx, tx) then [] else [Disabled(0), Disabled(1), error])
    else if state in {2, 4} && request == 4 then StartingInputs(cfg, state, request, r, rx, tx)
    else if state == 4 && request == 8 then if s.rx.size > 0 then [Enabled(2)] else []
    else if Granted(cfg, state, request, r, rx, tx) then []
    else if state == 8 && request == 3 then [error] + SafeOutputs(s)
    else if state == 8 then SafeOutputs(s) + [error]
    else (if state == 4 && request == 0 then [Disabled(3), Disabled(2)] else []) + [error]
  }

  lemma EnteringActions(cfg: Config, s: Al, r: Regs, rx: Pd, tx: Pd)
    requires s.log == [] && StateOf(s) in {2, 4}
    ensures EnterSafeOp(cfg, s, r, rx, tx).0.log == StartingInputs(cfg, StateOf(s), 4, r, rx, tx)
  {
    FitIsOk(cfg, r, false, rx.size, tx.size);
    hide OutputsFit, InputsFit, OutputSmOk, InputSmOk;
  }

  lemma StartingActions(cfg: Config, s: Al, boot: bool, r: Regs)
    requires s.log == []
    ensures StartMbx(cfg, s, boot, r).0.log ==
            [Enabled(0), Enabled(1)]
            + (if MailboxesFit(if boot then cfg.mbxSizeBoot else cfg.mbxSize, r) then []
               else [Disabled(0), Disabled(1), WroteError(if boot then 0x15 else 0x16)])
  {
    FitIsOk(cfg, r, boot, 0, 0);
    hide MailboxesFit, MailboxesOk, MailboxSmOk;
  }

  ghost predicate Acts(cfg: Config, s: Al, request: nat, r: Regs, rx: Pd, tx: Pd) {
    Transition(cfg, s, StateOf(s), request, r, rx, tx).0.log == Actions(cfg, s, request, r, rx, tx)
  }

  lemma ActsFromBelow(cfg: Config, s: Al, request: nat, r: Regs, rx: Pd, tx: Pd)
    requires Consistent(cfg, s) && StateOf(s) in {1, 2, 3} && request < 0x10 && s.log == []
    ensures Acts(cfg, s, request, r, rx, tx)
  {
    hide MailboxesFit, OutputsFit, InputsFit, MappingFits, MailboxesOk, EnterSafeOp, StartMbx, Sm23Ok;
    if StateOf(s) == 2 { EnteringActions(cfg, s, r, rx, tx); }
    StartingActions(cfg, s, false, r);
    StartingActions(cfg, s, true, r);
    hide StartingInputs;
  }

  lemma ActsFromSafeOp(cfg: Config, s: Al, request: nat, r: Regs, rx: Pd, tx: Pd)
    requires Consistent(cfg, s) && StateOf(s) == 4 && request < 0x10 && s.log == []
    ensures Acts(cfg, s, request, r, rx, tx)
  {
    hide MappingFits, MailboxesFit, MailboxesOk, EnterSafeOp, StartMbx, Sm23Ok, StartingInputs;
    EnteringActions(cfg, s, r, rx, tx);
  }

  lemma ActsFromOp(cfg: Config, s: Al, request: nat, r: Regs, rx: Pd, tx: Pd)
    requires Consistent(cfg, s) && StateOf(s) == 8 && request < 0x10 && s.log == []
    ensures Acts(cfg, s, request, r, rx, tx)
  {
    hide MappingFits, MailboxesFit, MailboxesOk, EnterSafeOp, StartMbx, Sm23Ok, StartingInputs;
    if request in {1, 2, 4} {
      assert Granted(cfg, 8, request, r, rx, tx);
    }
  }

  // A changed SyncManager

  /** It is looked at: mailboxes run, and the slave is above Init and not in Bootstrap. */
  predicate Looks(s: Al, event: bool) {
    event && s.run && s.status % 0x20 !in {0, 1, 3, 0x10, 0x11}
  }

  /** The checks: the test result names the SyncManager that does not fit, 1, 2, 4 and 8 for SyncManagers 0 to 3. */
  lemma ChecksAre(cfg: Config, s: Al, r: Regs)
    ensures var size: uint16 := if s.boot then cfg.mbxSizeBoot else cfg.mbxSize;
            CheckMbx(cfg, s, r) ==
            if MailboxesFit(size, r) then s
            else s.(smtest := if r.sm0 != SmReg(0x1000, size, 0x26, true) then 1 else 2, log := s.log + [Disabled(0), Disabled(1)])
    ensures CheckSm23(cfg, s, r) ==
            s.(smtest := if !OutputsFit(cfg, r, s.rx.size) then 4 else if !InputsFit(cfg, r, s.tx.size) then 8 else s.smtest)
  {
    FitIsOk(cfg, r, s.boot, s.rx.size, s.tx.size);
    hide OutputsFit, InputsFit, OutputSmOk, InputSmOk;
  }

  lemma LostIs(s: Al)
    ensures MailboxesLost(s) ==
            s.(status := 0x11, error := 0x16, app := 0, run := false,
               log := s.log + (if s.app != 0 then [Disabled(2), SafeOutput, Disabled(3), Disabled(2)] else [])
                      + [Disabled(0), Disabled(1), WroteError(0x16), WroteStatus(0x11)])
  {
  }

  lemma SteppedIs(s: Al, code: uint16)
    ensures SteppedDown(s, code) ==
            s.(status := 0x12, error := code, app := 0,
               log := s.log + [Disabled(2), SafeOutput, Disabled(3), Disabled(2), WroteError(code), WroteStatus(0x12)])
  {
  }

  function LostActions(s: Al): seq<Event> {
    [Disabled(0), Disabled(1)] + (if s.app != 0 then [Disabled(2), SafeOutput, Disabled(3), Disabled(2)] else [])
    + [Disabled(0), Disabled(1), WroteError(0x16), WroteStatus(0x11)]
  }

  /**
   A changed SyncManager: to Init if the mailboxes are lost, to Pre-Operational
   if process data are exchanged and no longer fit, or else nowhere. The last
   code is that of the failed check, or of an older one.
   */
  lemma SmChangeLeadsTo(cfg: Config, s: Al, event: bool, r: Regs)
    requires s.status < 0x40
    ensures var t := SmChanged(cfg, s, event, r);
            var st := s.status % 0x20;
            var mbx := MailboxesFit(if s.boot then cfg.mbxSizeBoot else cfg.mbxSize, r);
            var out, inp := OutputsFit(cfg, r, s.rx.size), InputsFit(cfg, r, s.tx.size);
            var code: uint16 := if !out then 0x1D else if !inp || s.smtest / 8 % 2 == 1 then 0x1E else 0x1D;
            if !Looks(s, event) then t == s.(log := [])
            else if Ignored(s.status, s.control) then
              t == s.(log := if mbx then [] else [Disabled(0), Disabled(1)], smtest := t.smtest)
            else if !mbx then
              t == s.(status := 0x11, error := 0x16, app := 0, run := false, smtest := t.smtest, log := LostActions(s))
            else if s.app != 0 && (!out || !inp || st == 0x12) then
              t == s.(status := 0x12, error := code, app := 0, smtest := t.smtest,
                      log := [Disabled(2), SafeOutput, Disabled(3), Disabled(2), WroteError(code), WroteStatus(0x12)])
            else t == s.(log := [], smtest := t.smtest)
  {
    hide OutputsFit, InputsFit, OutputSmOk, InputSmOk, MailboxesOk, MailboxesFit, MailboxSmOk, MailboxesLost, SteppedDown, CheckMbx,
      CheckSm23;
    FitIsOk(cfg, r, s.boot, s.rx.size, s.tx.size);
    var s0 := s.(log := []);
    ChecksAre(cfg, s0, r);
    var s1 := CheckMbx(cfg, s0, r);
    ChecksAre(cfg, s1, r);
    var s2 := CheckSm23(cfg, s1, r);
    LostIs(s2);
    SteppedIs(s2, ProcessDataError(s2.smtest));
  }

  /** An error reported by the application or the watchdog: outputs stop first; a status with the Op bit is ignored. */
  lemma ErrorLeadsTo(s: Al, status: byte, code: uint16)
    requires s.app < 4
    ensures GoToError(s, status, code) ==
            if status / 8 % 2 == 1 then s
            else s.(status := status, error := code, app := s.app % 2,
                    log := s.log + (if s.app >= 2 then [Disabled(2), SafeOutput] else []) + [WroteError(code), WroteStatus(status)])
  {
  }

  /** After initialisation everything is stopped, in Init without error. */
  lemma InitialState(s: Al)
    ensures var t := Initialised(s);
            t.status == 1 && t.error == 0 && t.app == 0 && !t.run
    ensures Initialised(s).log == [WroteStatus(1), WroteError(0), Disabled(0), Disabled(1), Disabled(3), Disabled(2),
                                   Disabled(2), SafeOutput]
  {
  }
}
