/**
 The application layer state machine: how a request of the master, a changed
 SyncManager or the watchdog moves the slave between Init, Pre-Operational,
 Bootstrap, Safe-Operational and Operational.

 Registers are read from an input record. What a call writes to the chip and
 which application hook it calls is recorded, in order, in its log.
 */
module AlControl {
  import opened Words
  import opened PdoMapping

  const INIT: byte := 0x01
  const PREOP: byte := 0x02
  const BOOT: byte := 0x03
  const SAFEOP: byte := 0x04
  const OP: byte := 0x08
  const ERROR: byte := 0x10
  const ID_REQUEST: byte := 0x20

  const ALERR_NONE: uint16 := 0x00
  const ALERR_INVALIDSTATECHANGE: uint16 := 0x11
  const ALERR_UNKNOWNSTATE: uint16 := 0x12
  const ALERR_INVALIDBOOTMBXCONFIG: uint16 := 0x15
  const ALERR_INVALIDMBXCONFIG: uint16 := 0x16
  const ALERR_WATCHDOG: uint16 := 0x1B
  const ALERR_INVALIDOUTPUTSM: uint16 := 0x1D
  const ALERR_INVALIDINPUTSM: uint16 := 0x1E

  const ERRSM0: nat := 1
  const ERRSM1: nat := 2
  const ERRSM2: nat := 4
  const ERRSM3: nat := 8

  /** One SyncManager's registers: address, length, command and the activation bit set by the master. */
  datatype SmReg = SmReg(psa: uint16, length: uint16, command: byte, active: bool)

  /** Register contents seen by one call. */
  datatype Regs = Regs(control: uint16, sm0: SmReg, sm1: SmReg, sm2: SmReg, sm3: SmReg, statusCode: uint16, alias: uint16)

  /** Mailbox sizes and process data SyncManager settings of the application. */
  datatype Config = Config(mbxSize: uint16, mbxSizeBoot: uint16,
                           sm2sma: uint16, sm2smc: byte, sm2act: bool, sm3sma: uint16, sm3smc: byte, sm3act: bool)

  datatype Event = WroteStatus(status: byte) | WroteError(code: uint16) | SafeOutput
                 | Enabled(sm: nat) | Disabled(sm: nat) | AppliedOutputs | FetchedInputs

  /** The variables of the state machine; log holds what the current call has done so far. */
  datatype Al = Al(status: byte, control: uint16, error: uint16, app: nat, smtest: nat, run: bool, boot: bool,
                   rx: Pd, tx: Pd, log: seq<Event>)

  predicate HasOutput(app: nat) { app / 2 % 2 == 1 }
  function WithOutput(app: nat): nat { if HasOutput(app) then app else app + 2 }
  function InputOnly(app: nat): nat { app % 2 }
  predicate HasError(status: nat) { status / 0x10 % 2 == 1 }
  function WithError(status: nat): nat { if HasError(status) then status else status + 0x10 }

  // Elementary actions

  function Did(s: Al, e: Event): (r: Al)
    ensures r == s.(log := r.log)
  {
    s.(log := s.log + [e])
  }

  function SetError(s: Al, code: uint16): (r: Al)
    ensures r == s.(error := code, log := r.log)
  {
    Did(s.(error := code), WroteError(code))
  }

  function SetStatus(s: Al, status: byte): (r: Al)
    ensures r == s.(status := status, log := r.log)
  {
    Did(s.(status := status), WroteStatus(status))
  }

  function StopInput(s: Al): (r: Al)
    ensures r == s.(app := 0, log := r.log)
  {
    Did(Did(s.(app := 0), Disabled(3)), Disabled(2))
  }

  function StopOutput(s: Al): (r: Al)
    ensures r == s.(app := InputOnly(s.app), log := r.log)
  {
    Did(Did(s.(app := InputOnly(s.app)), Disabled(2)), SafeOutput)
  }

  function StopMbx(s: Al): (r: Al)
    ensures r == s.(run := false, log := r.log)
  {
    Did(Did(s.(run := false), Disabled(0)), Disabled(1))
  }

  function StartOutput(s: Al): (r: Al)
    ensures r == s.(app := WithOutput(s.app), log := r.log)
  {
    (if s.rx.size > 0 then Did(s, Enabled(2)) else s).(app := WithOutput(s.app))
  }

  // Checks against the registers

  predicate MailboxSmOk(cfg: Config, boot: bool, which: nat, reg: SmReg) {
    var size := if boot then cfg.mbxSizeBoot else cfg.mbxSize;
    && reg.psa == (0x1000 + which * size) % 0x1_0000
    && reg.length == size
    && reg.command == (if which == 0 then 0x26 else 0x22)
    && reg.active
  }

  predicate MailboxesOk(cfg: Config, boot: bool, r: Regs) {
    MailboxSmOk(cfg, boot, 0, r.sm0) && MailboxSmOk(cfg, boot, 1, r.sm1)
  }

  /** Settings, length and activation of one process data SyncManager agree with the mapping. */
  predicate ProcessSmOk(reg: SmReg, sma: uint16, smc: byte, act: bool, size: uint16) {
    && reg.psa == sma && reg.command == smc && reg.length == size
    && !(!act && (reg.active || size > 0))
    && !(act && !reg.active && size > 0)
  }

  predicate OutputSmOk(cfg: Config, r: Regs, size: uint16) {
    ProcessSmOk(r.sm2, cfg.sm2sma, cfg.sm2smc, cfg.sm2act, size) && cfg.sm2sma + 3 * r.sm2.length <= cfg.sm3sma
  }

  predicate InputSmOk(cfg: Config, r: Regs, size: uint16) {
    ProcessSmOk(r.sm3, cfg.sm3sma, cfg.sm3smc, cfg.sm3act, size)
  }

  /** ESC_checkmbx: on a mismatch both mailbox SyncManagers are disabled. */
  function CheckMbx(cfg: Config, s: Al, r: Regs): (t: Al)
    ensures t == s.(smtest := t.smtest, log := t.log)
  {
    if MailboxesOk(cfg, s.boot, r) then s
    else Did(Did(s.(smtest := if MailboxSmOk(cfg, s.boot, 0, r.sm0) then ERRSM1 else ERRSM0), Disabled(0)), Disabled(1))
  }

  /** ESC_checkSM23 notes which of the two failed. */
  function CheckSm23(cfg: Config, s: Al, r: Regs): Al {
    if !OutputSmOk(cfg, r, s.rx.size) then s.(smtest := ERRSM2)
    else if !InputSmOk(cfg, r, s.tx.size) then s.(smtest := ERRSM3)
    else s
  }

  predicate Sm23Ok(cfg: Config, s: Al, r: Regs) {
    OutputSmOk(cfg, r, s.rx.size) && InputSmOk(cfg, r, s.tx.size)
  }

  function ProcessDataError(smtest: nat): uint16 {
    if smtest / ERRSM3 % 2 == 1 then ALERR_INVALIDINPUTSM else ALERR_INVALIDOUTPUTSM
  }

  // Requests of the master

  /** Starting the mailboxes; the result says whether the registers fit. */
  function StartMbx(cfg: Config, s: Al, boot: bool, r: Regs): (t: (Al, bool))
    ensures t.1 <==> MailboxesOk(cfg, boot, r)
    ensures t.0 == s.(boot := boot, run := t.1, smtest := t.0.smtest, error := t.0.error, log := t.0.log)
  {
    var s1 := Did(Did(s.(boot := boot), Enabled(0)), Enabled(1));
    var s2 := CheckMbx(cfg, s1, r);
    if MailboxesOk(cfg, boot, r) then (s2.(run := true), true)
    else (SetError(s2, if boot then ALERR_INVALIDBOOTMBXCONFIG else ALERR_INVALIDMBXCONFIG).(run := false), false)
  }

  /** Starting inputs with the mapping already computed. */
  function StartInput(cfg: Config, s: Al, r: Regs): (t: (Al, bool))
    ensures t.1 <==> Sm23Ok(cfg, s, r)
    ensures t.0 == s.(app := if t.1 then 1 else s.app, smtest := t.0.smtest, error := t.0.error, log := t.0.log)
  {
    var s1 := CheckSm23(cfg, s, r);
    if Sm23Ok(cfg, s, r) then
      ((if s.tx.size > 0 then Did(s1, Enabled(3)) else s1).(app := 1), true)
    else
      (SetError(Did(Did(s1, Disabled(2)), Disabled(3)), ProcessDataError(s1.smtest)), false)
  }

  /** Entering Safe-Operational: both mappings are computed anew (rx and tx) and checked. */
  function EnterSafeOp(cfg: Config, s: Al, r: Regs, rx: Pd, tx: Pd): (t: (Al, byte))
    ensures t.1 == SAFEOP || t.1 == PREOP + ERROR
    ensures t.1 == SAFEOP ==> rx.nm >= 0 && tx.nm >= 0 && t.0.rx == rx && t.0.tx == tx && Sm23Ok(cfg, t.0, r)
    ensures t.0 == s.(app := if t.1 == SAFEOP then 1 else s.app, rx := rx, tx := t.0.tx, smtest := t.0.smtest,
                      error := t.0.error, log := t.0.log)
  {
    var s1 := s.(rx := rx);
    if rx.nm < 0 then (SetError(s1, ALERR_INVALIDOUTPUTSM), PREOP + ERROR)
    else
      var s2 := s1.(tx := tx);
      if tx.nm < 0 then (SetError(s2, ALERR_INVALIDINPUTSM), PREOP + ERROR)
      else
        var (s3, ok) := StartInput(cfg, s2, r);
        if ok then (Did(s3, Enabled(2)), SAFEOP) else (s3, PREOP + ERROR)
  }

  /** Losing outputs to a bad request; without outputs the inputs flag the error. */
  function ForceSafe(s: Al): (r: Al)
    ensures r == s.(app := InputOnly(s.app), log := r.log)
  {
    var s1 := StopOutput(s);
    if s.rx.size == 0 && s.tx.size > 0 then Did(s1, Disabled(3)) else s1
  }

  /** The transition for a request in a state; the second component is the status to report. */
  function Transition(cfg: Config, s: Al, state: nat, request: nat, r: Regs, rx: Pd, tx: Pd): (Al, byte) {
    if state == request && state in {1, 2, 8} then (s, state)
    else if state == 1 && request == 2 then
      var (s1, ok) := StartMbx(cfg, s, false, r); (s1, if ok then PREOP else INIT + ERROR)
    else if state in {1, 3} && request == 3 then
      var (s1, ok) := StartMbx(cfg, s, true, r); (s1, if ok then BOOT else INIT + ERROR)
    else if state == 1 && request in {4, 8} then (SetError(s, ALERR_INVALIDSTATECHANGE), INIT + ERROR)
    else if state == 8 && request == 1 then (StopMbx(StopInput(StopOutput(s))), INIT)
    else if state == 4 && request == 1 then (StopMbx(StopInput(s)), INIT)
    else if state in {2, 3} && request == 1 then (StopMbx(s), INIT)
    else if (state == 2 && request in {3, 8}) || (state == 3 && request in {2, 4, 8}) then
      (SetError(s, ALERR_INVALIDSTATECHANGE), PREOP + ERROR)
    else if state in {2, 4} && request == 4 then EnterSafeOp(cfg, s, r, rx, tx)
    else if state == 8 && request == 2 then (StopInput(StopOutput(s)), PREOP)
    else if state == 4 && request == 2 then (StopInput(s), PREOP)
    else if state == 4 && request == 3 then (SetError(s, ALERR_INVALIDSTATECHANGE), SAFEOP + ERROR)
    else if state == 4 && request == 8 then (StartOutput(s), OP)
    else if state == 8 && request == 3 then (ForceSafe(SetError(s, ALERR_INVALIDSTATECHANGE)), SAFEOP + ERROR)
    else if state == 8 && request == 4 then (StopOutput(s), SAFEOP)
    else UnknownState(s, state, request)
  }

  /** A state or request that is not known: outputs are made safe, and the error is reported in the same state. */
  function UnknownState(s: Al, state: nat, request: nat): (Al, byte) {
    var s1 := if state == 8 then ForceSafe(s) else s;
    var s2 := if state == 4 && request == 0 then StopInput(s1) else s1;
    (SetError(s2, ALERR_UNKNOWNSTATE), if state == 8 then SAFEOP + ERROR else WithError(state) % 0x100)
  }

  /** The master asks for the identification value, and the state allows it. */
  predicate IdRequested(control: uint16, status: byte, r: Regs) {
    && control / ID_REQUEST % 2 == 1
    && control % 0x10 != BOOT
    && (control % 0x10 < SAFEOP || status == SAFEOP || status == OP)
    && r.statusCode == ALERR_NONE
  }

  /** Reports the reached status: a stale error code is cleared, an identification value loaded. */
  function Report(s: Al, status: byte, r: Regs): Al
    requires status < 0x20
  {
    var s1 := if !HasError(status) && s.error != 0 then SetError(s, ALERR_NONE) else s;
    if IdRequested(s.control, status, r) && r.alias != 0 then
      SetStatus(SetError(s1, r.alias), status + ID_REQUEST)
    else SetStatus(s1, status)
  }

  /** The error bit of the status is pending and the request neither confirms it nor asks for Init. */
  predicate Unconfirmed(status: byte, control: uint16) {
    HasError(status) && !HasError(control) && control % 0x20 != INIT
  }

  /** A request that is acted on. */
  function Answer(cfg: Config, s: Al, r: Regs, rx: Pd, tx: Pd): Al {
    var (t, status) := Transition(cfg, s, s.status % 0x10, s.control % 0x10, r, rx, tx);
    StatusBelow(cfg, s, s.status % 0x10, s.control % 0x10, r, rx, tx);
    Report(t, status, r)
  }

  /** ESC_state */
  function StateRequest(cfg: Config, s: Al, event: bool, r: Regs, rx: Pd, tx: Pd): Al {
    if !event then s.(log := [])
    else
      var s1 := s.(log := [], control := r.control);
      if Unconfirmed(s.status, r.control) then s1 else Answer(cfg, s1, r, rx, tx)
  }

  /** This request computes the mappings anew. */
  predicate Recomputes(s: Al, event: bool, r: Regs) {
    event && !Unconfirmed(s.status, r.control) && s.status % 0x10 in {2, 4} && r.control % 0x10 == 4
  }

  lemma StatusBelow(cfg: Config, s: Al, state: nat, request: nat, r: Regs, rx: Pd, tx: Pd)
    requires state < 0x10
    ensures Transition(cfg, s, state, request, r, rx, tx).1 < 0x20
  {
  }

  /** The mailboxes are no longer as configured: everything stops, down to Init. */
  function MailboxesLost(s: Al): (r: Al)
    ensures r == s.(app := r.app, run := false, error := ALERR_INVALIDMBXCONFIG, status := INIT + ERROR, log := r.log)
    ensures r.app == 0
  {
    var s1 := if s.app != 0 then StopInput(StopOutput(s)) else s;
    SetStatus(SetError(StopMbx(s1), ALERR_INVALIDMBXCONFIG), INIT + ERROR)
  }

  /** The process data SyncManagers are no longer as configured: process data stop, down to Pre-Operational. */
  function SteppedDown(s: Al, code: uint16): (r: Al)
    ensures r == s.(app := 0, error := code, status := PREOP + ERROR, log := r.log)
  {
    SetStatus(SetError(StopInput(StopOutput(s)), code), PREOP + ERROR)
  }

  /** ESC_sm_act_event: a SyncManager was changed while the mailboxes run. */
  function SmChanged(cfg: Config, s: Al, event: bool, r: Regs): Al {
    var s0 := s.(log := []);
    var status := s.status % 0x20;
    if !event || status / 2 % 8 == 0 || status == BOOT || !s.run then s0
    else
      var s1 := CheckMbx(cfg, s0, r);
      var s2 := CheckSm23(cfg, s1, r);
      var reported: byte := if Sm23Ok(cfg, s1, r) then status else PREOP + ERROR;
      if Unconfirmed(s.status, s.control) then s2
      else if !MailboxesOk(cfg, s.boot, r) then MailboxesLost(s2)
      else if s.app != 0 && reported == PREOP + ERROR then SteppedDown(s2, ProcessDataError(s2.smtest))
      else s2
  }

  /** ESC_ALstatusgotoerror; a status with the Op bit is ignored. */
  function GoToError(s: Al, status: byte, code: uint16): Al {
    if status / OP % 2 == 1 then s
    else
      var s1 := if HasOutput(s.app) then StopOutput(s) else s;
      SetStatus(SetError(s1, code), status)
  }

  /** The end of ecat_slv_init. */
  function Initialised(s: Al): Al {
    StopOutput(StopInput(StopMbx(SetError(SetStatus(s.(log := []), INIT), ALERR_NONE))))
  }
}
