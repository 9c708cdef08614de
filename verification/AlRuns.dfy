/**
 What holds of the state machine after every step: outputs are live exactly in
 Operational, mailboxes run exactly outside Init, process data are checked
 before Safe-Operational, and outputs are made safe before Operational is left.
 */
module AlRuns {
  import opened Words
  import opened PdoMapping
  import opened AlControl

  function StateOf(s: Al): nat { s.status % 0x10 }

  /** Safe-Operational and Operational, where process data are exchanged. */
  predicate Exchanging(s: Al) { StateOf(s) in {4, 8} }

  ghost predicate Consistent(cfg: Config, s: Al) {
    && StateOf(s) in {1, 2, 3, 4, 8} && s.status < 0x40
    && s.app < 4
    && (HasOutput(s.app) <==> StateOf(s) == OP)
    && (StateOf(s) == OP ==> !HasError(s.status))
    && (s.run <==> StateOf(s) != INIT)
    && (Exchanging(s) ==> s.rx.nm >= 0 && s.tx.nm >= 0 && cfg.sm2sma + 3 * s.rx.size <= cfg.sm3sma)
  }

  lemma ConsistentInitially(cfg: Config, s: Al)
    requires s.app < 4
    ensures Consistent(cfg, Initialised(s))
  {
  }

  lemma TransitionConsistent(cfg: Config, s: Al, request: nat, r: Regs, rx: Pd, tx: Pd)
    requires Consistent(cfg, s) && request < 0x10
    ensures var (t, status) := Transition(cfg, s, StateOf(s), request, r, rx, tx);
            Consistent(cfg, t.(status := status)) && status < 0x20
  {
    if StateOf(s) in {4, 8} {
      ConsistentFromExchange(cfg, s, request, r, rx, tx);
    } else {
      ConsistentFromBelow(cfg, s, request, r, rx, tx);
    }
    hide Transition, Consistent;
  }

  lemma ConsistentFromBelow(cfg: Config, s: Al, request: nat, r: Regs, rx: Pd, tx: Pd)
    requires Consistent(cfg, s) && StateOf(s) in {1, 2, 3} && request < 0x10
    ensures var (t, status) := Transition(cfg, s, StateOf(s), request, r, rx, tx);
            Consistent(cfg, t.(status := status)) && status < 0x20
  {
    hide Did, SetError, StopInput, StopOutput, StopMbx, StartOutput, ForceSafe, StartMbx, EnterSafeOp, MailboxesOk;
  }

  lemma ConsistentFromExchange(cfg: Config, s: Al, request: nat, r: Regs, rx: Pd, tx: Pd)
    requires Consistent(cfg, s) && StateOf(s) in {4, 8} && request < 0x10
    ensures var (t, status) := Transition(cfg, s, StateOf(s), request, r, rx, tx);
            Consistent(cfg, t.(status := status)) && status < 0x20
  {
    hide Did, SetError, StopInput, StopOutput, StopMbx, StartOutput, ForceSafe, StartMbx, EnterSafeOp, MailboxesOk;
  }

  lemma ReportStatus(s: Al, status: byte, r: Regs)
    requires status < 0x20
    ensures var t := Report(s, status, r);
            && t.status % 0x20 == status && t.status < 0x40
            && t == s.(status := t.status, error := t.error, log := t.log)
  {
  }

  lemma StateRequestConsistent(cfg: Config, s: Al, event: bool, r: Regs, rx: Pd, tx: Pd)
    requires Consistent(cfg, s)
    ensures Consistent(cfg, StateRequest(cfg, s, event, r, rx, tx))
  {
    var s1 := s.(log := [], control := r.control);
    assert Consistent(cfg, s1) && Consistent(cfg, s.(log := []));
    hide Transition, Report, Consistent;
    var (t, status) := Transition(cfg, s1, StateOf(s), r.control % 0x10, r, rx, tx);
    assert StateOf(s1) == StateOf(s);
    TransitionConsistent(cfg, s1, r.control % 0x10, r, rx, tx);
    ReportConsistent(cfg, t, status, r);
  }

  lemma ReportConsistent(cfg: Config, s: Al, status: byte, r: Regs)
    requires status < 0x20 && Consistent(cfg, s.(status := status))
    ensures Consistent(cfg, Report(s, status, r))
  {
    ReportStatus(s, status, r);
    hide Report;
  }

  lemma SmChangedConsistent(cfg: Config, s: Al, event: bool, r: Regs)
    requires Consistent(cfg, s)
    ensures Consistent(cfg, SmChanged(cfg, s, event, r))
  {
    hide MailboxesOk, Sm23Ok, OutputSmOk, InputSmOk, Did, SetError, SetStatus, StopInput, StopOutput, StopMbx, CheckMbx, CheckSm23, ProcessDataError,
      SteppedDown, MailboxesLost;
    CheckSm23Log(cfg, CheckMbx(cfg, s.(log := []), r), r);
  }

  /** Process data exchange starts only from Pre-Operational, with fresh mappings that the registers agree with. */
  lemma EnteringIsChecked(cfg: Config, s: Al, event: bool, r: Regs, rx: Pd, tx: Pd)
    requires Consistent(cfg, s)
    ensures var t := StateRequest(cfg, s, event, r, rx, tx);
            !Exchanging(s) && Exchanging(t) ==>
              && Recomputes(s, event, r) && StateOf(s) == PREOP && r.control % 0x10 == SAFEOP && StateOf(t) == SAFEOP
              && t.rx == rx && t.tx == tx && OutputSmOk(cfg, r, rx.size) && InputSmOk(cfg, r, tx.size)
  {
    hide Did, SetError, StopInput, StopOutput, StopMbx, StartOutput, ForceSafe, StartMbx, EnterSafeOp, MailboxesOk, Report;
    var s1 := s.(log := [], control := r.control);
    var (t, status) := Transition(cfg, s1, StateOf(s), r.control % 0x10, r, rx, tx);
    assert StateOf(s1) == StateOf(s);
    StatusBelow(cfg, s1, StateOf(s), r.control % 0x10, r, rx, tx);
    ReportStatus(t, status, r);
  }

  /** While process data are exchanged, the mappings change only by being computed anew. */
  lemma ExchangingKeepsMaps(cfg: Config, s: Al, event: bool, r: Regs, rx: Pd, tx: Pd)
    requires Consistent(cfg, s)
    ensures var t := StateRequest(cfg, s, event, r, rx, tx);
            Exchanging(s) && Exchanging(t) ==> (t.rx == s.rx && t.tx == s.tx) || (t.rx == rx && t.tx == tx)
  {
    hide Did, SetError, StopInput, StopOutput, StopMbx, StartOutput, ForceSafe, StartMbx, EnterSafeOp, MailboxesOk, Report;
    var s1 := s.(log := [], control := r.control);
    var (t, status) := Transition(cfg, s1, StateOf(s), r.control % 0x10, r, rx, tx);
    assert StateOf(s1) == StateOf(s);
    StatusBelow(cfg, s1, StateOf(s), r.control % 0x10, r, rx, tx);
    ReportStatus(t, status, r);
  }

  /** Any other request does not look at them. */
  lemma MapsUnread(cfg: Config, s: Al, event: bool, r: Regs, rx: Pd, tx: Pd)
    requires !Recomputes(s, event, r)
    ensures StateRequest(cfg, s, event, r, rx, tx) == StateRequest(cfg, s, event, r, s.rx, s.tx)
  {
    hide Did, SetError, StopInput, StopOutput, StopMbx, StartOutput, ForceSafe, StartMbx, EnterSafeOp, MailboxesOk, Report;
  }

  /** A changed SyncManager never starts the exchange and never touches the mappings. */
  lemma SmChangedNeverEnters(cfg: Config, s: Al, event: bool, r: Regs)
    requires Consistent(cfg, s)
    ensures var t := SmChanged(cfg, s, event, r);
            t.rx == s.rx && t.tx == s.tx && (Exchanging(t) ==> StateOf(t) == StateOf(s))
  {
    hide MailboxesOk, Sm23Ok, OutputSmOk, InputSmOk, Did, SetError, SetStatus, StopInput, StopOutput, StopMbx, CheckMbx, CheckSm23, ProcessDataError,
      SteppedDown, MailboxesLost;
    CheckSm23Log(cfg, CheckMbx(cfg, s.(log := []), r), r);
  }

  // Order of actions

  /** No status is written before the outputs were made safe. */
  ghost predicate SafeFirst(log: seq<Event>) {
    forall j | 0 <= j < |log| && log[j].WroteStatus? :: exists i | 0 <= i < j :: log[i] == SafeOutput
  }

  ghost predicate WritesStatus(log: seq<Event>) {
    exists j | 0 <= j < |log| :: log[j].WroteStatus?
  }

  ghost predicate CallsSafeOutput(log: seq<Event>) {
    SafeOutput in log
  }

  /** The slave is still in Operational and kept its outputs, or outputs were made safe before the status changed. */
  ghost predicate LeavesSafely(t: Al) {
    && (StateOf(t) != OP ==> SafeFirst(t.log) && WritesStatus(t.log))
    && (StateOf(t) != OP <==> CallsSafeOutput(t.log))
  }

  ghost predicate NoStatus(log: seq<Event>) {
    forall j | 0 <= j < |log| :: !log[j].WroteStatus?
  }

  lemma SafeFirstAppend(log: seq<Event>, e: Event)
    requires SafeFirst(log) && (e.WroteStatus? ==> SafeOutput in log)
    ensures SafeFirst(log + [e])
  {
    forall j | 0 <= j < |log + [e]| && (log + [e])[j].WroteStatus?
      ensures exists i | 0 <= i < j :: (log + [e])[i] == SafeOutput
    {
      if j < |log| {
        var i :| 0 <= i < j && log[i] == SafeOutput;
        assert (log + [e])[i] == SafeOutput;
      } else {
        var i :| 0 <= i < |log| && log[i] == SafeOutput;
        assert (log + [e])[i] == SafeOutput;
      }
    }
  }

  /** t has done more than s, but written no status. */
  ghost predicate Quietly(s: Al, t: Al) {
    (NoStatus(s.log) ==> NoStatus(t.log)) && (CallsSafeOutput(s.log) ==> CallsSafeOutput(t.log))
  }

  lemma QuietActions(s: Al, code: uint16)
    ensures Quietly(s, SetError(s, code)) && Quietly(s, StopInput(s)) && Quietly(s, StopMbx(s))
    ensures Quietly(s, StopOutput(s)) && CallsSafeOutput(StopOutput(s).log)
    ensures Quietly(s, ForceSafe(s)) && CallsSafeOutput(ForceSafe(s).log)
  {
    assert StopOutput(s).log[|s.log| + 1] == SafeOutput;
    assert ForceSafe(s).log[|s.log| + 1] == SafeOutput;
  }

  /** Leaving Operational on request: the transition makes outputs safe and writes no status itself. */
  lemma TransitionSafe(cfg: Config, s: Al, request: nat, r: Regs, rx: Pd, tx: Pd)
    requires Consistent(cfg, s) && StateOf(s) == OP && request < 0x10 && s.log == []
    ensures var (t, status) := Transition(cfg, s, OP, request, r, rx, tx);
            && NoStatus(t.log)
            && (status % 0x10 != OP <==> CallsSafeOutput(t.log))
  {
    hide EnterSafeOp, StartMbx, StartInput, MailboxesOk, HasError, SetError, StopInput, StopMbx, StopOutput, ForceSafe, Consistent,
      StartOutput, NoStatus, CallsSafeOutput;
    NothingDone();
    QuietActions(s, ALERR_INVALIDSTATECHANGE);
    QuietActions(StopOutput(s), 0);
    QuietActions(StopInput(StopOutput(s)), 0);
    QuietActions(SetError(s, ALERR_INVALIDSTATECHANGE), 0);
    QuietActions(ForceSafe(s), ALERR_UNKNOWNSTATE);
  }

  lemma NothingDone()
    ensures NoStatus([]) && !CallsSafeOutput([])
  {
  }

  lemma AnswerLeavesOpSafely(cfg: Config, s: Al, r: Regs, rx: Pd, tx: Pd)
    requires Consistent(cfg, s) && StateOf(s) == OP && s.log == []
    ensures LeavesSafely(Answer(cfg, s, r, rx, tx))
  {
    TransitionSafe(cfg, s, s.control % 0x10, r, rx, tx);
    StatusBelow(cfg, s, OP, s.control % 0x10, r, rx, tx);
    hide Transition, Report, LeavesSafely, Consistent, NoStatus, CallsSafeOutput;
    var (t, status) := Transition(cfg, s, OP, s.control % 0x10, r, rx, tx);
    ReportLeavesSafely(t, status, r);
  }

  lemma ReportLeavesSafely(s: Al, status: byte, r: Regs)
    requires status < 0x20 && NoStatus(s.log) && (status % 0x10 != OP <==> CallsSafeOutput(s.log))
    ensures LeavesSafely(Report(s, status, r))
  {
    hide Report, SafeFirst, WritesStatus, NoStatus, CallsSafeOutput;
    ReportStatus(s, status, r);
    ReportLog(s, status, r);
    if status % 0x10 != OP { ReportSafe(s, status, r); }
  }

  /**
   A request that takes the slave out of Operational calls the application's
   safe-output hook before it writes the new status; any other request in
   Operational does not call it.
   */
  lemma RequestLeavesOpSafely(cfg: Config, s: Al, event: bool, r: Regs, rx: Pd, tx: Pd)
    requires Consistent(cfg, s) && StateOf(s) == OP
    ensures var t := StateRequest(cfg, s, event, r, rx, tx);
            LeavesSafely(t)
  {
    var s1 := s.(log := [], control := r.control);
    assert Consistent(cfg, s1) && StateOf(s1) == OP;
    if event {
      hide Answer, LeavesSafely;
      AnswerLeavesOpSafely(cfg, s1, r, rx, tx);
    }
  }

  const STOP: seq<Event> := [Disabled(2), SafeOutput, Disabled(3), Disabled(2)]

  lemma SteppedDownLog(s: Al, code: uint16)
    ensures SteppedDown(s, code).log == s.log + STOP + [WroteError(code), WroteStatus(PREOP + ERROR)]
  {
  }

  lemma MailboxesLostLog(s: Al)
    requires s.app != 0
    ensures MailboxesLost(s).log ==
            s.log + STOP + [Disabled(0), Disabled(1), WroteError(ALERR_INVALIDMBXCONFIG), WroteStatus(INIT + ERROR)]
  {
  }

  /** What a changed SyncManager does in Operational. */
  lemma SmChangeLog(cfg: Config, s: Al, event: bool, r: Regs)
    requires Consistent(cfg, s) && StateOf(s) == OP
    ensures var t := SmChanged(cfg, s, event, r);
            if StateOf(t) == OP then t.log == []
            else
              || t.log == [] + STOP + [WroteError(t.error), WroteStatus(t.status)]
              || t.log == [Disabled(0), Disabled(1)] + STOP + [Disabled(0), Disabled(1), WroteError(t.error), WroteStatus(t.status)]
  {
    hide MailboxesOk, MailboxSmOk, Sm23Ok, OutputSmOk, InputSmOk, CheckSm23, ProcessDataError, SteppedDown, MailboxesLost;
    var s1 := CheckMbx(cfg, s.(log := []), r);
    CheckSm23Log(cfg, s1, r);
    var s2 := CheckSm23(cfg, s1, r);
    SteppedDownLog(s2, ProcessDataError(s2.smtest));
    MailboxesLostLog(s2);
  }

  lemma CheckSm23Log(cfg: Config, s: Al, r: Regs)
    ensures CheckSm23(cfg, s, r) == s.(smtest := CheckSm23(cfg, s, r).smtest)
  {
  }

  /** The same when a changed SyncManager or the watchdog takes it out of Operational. */
  lemma SmChangeLeavesOpSafely(cfg: Config, s: Al, event: bool, r: Regs)
    requires Consistent(cfg, s) && StateOf(s) == OP
    ensures var t := SmChanged(cfg, s, event, r);
            LeavesSafely(t)
  {
    hide SmChanged, SafeFirst, WritesStatus, Consistent;
    SmChangeLog(cfg, s, event, r);
    var t := SmChanged(cfg, s, event, r);
    if StateOf(t) != OP { StopThenStatus(t.log); }
  }

  lemma StopThenStatus(log: seq<Event>)
    requires |log| >= 6 && (log[1] == SafeOutput || log[3] == SafeOutput) && log[|log| - 1].WroteStatus?
    requires forall j | 0 <= j < |log| - 1 :: !log[j].WroteStatus?
    ensures SafeFirst(log) && WritesStatus(log) && CallsSafeOutput(log)
  {
    var i := if log[1] == SafeOutput then 1 else 3;
    assert log[i] == SafeOutput;
  }

  lemma WatchdogLeavesOpSafely(cfg: Config, s: Al)
    requires Consistent(cfg, s) && StateOf(s) == OP && s.log == []
    ensures GoToError(s, SAFEOP + ERROR, ALERR_WATCHDOG).log ==
            [Disabled(2), SafeOutput, WroteError(ALERR_WATCHDOG), WroteStatus(SAFEOP + ERROR)]
  {
  }

  lemma ReportLog(s: Al, status: byte, r: Regs)
    requires status < 0x20
    ensures CallsSafeOutput(Report(s, status, r).log) <==> CallsSafeOutput(s.log)
  {
  }

  lemma ReportSafe(s: Al, status: byte, r: Regs)
    requires status < 0x20 && CallsSafeOutput(s.log)
    requires NoStatus(s.log)
    ensures SafeFirst(Report(s, status, r).log) && WritesStatus(Report(s, status, r).log)
  {
    var s1 := if !HasError(status) && s.error != 0 then SetError(s, ALERR_NONE) else s;
    SafeFirstAppend(s.log, WroteError(ALERR_NONE));
    SafeFirstAppend(s1.log, WroteError(r.alias));
    var t := Report(s, status, r);
    SafeFirstAppend(t.log[..|t.log| - 1], t.log[|t.log| - 1]);
    assert t.log == t.log[..|t.log| - 1] + [t.log[|t.log| - 1]];
  }
}
