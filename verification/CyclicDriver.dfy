/**
 The cyclic driver: the software watchdog, when outputs are applied, and why
 the cached process data lists stay in step with the object dictionary.
 */
module CyclicDriver {
  import opened ObjectDictionary
  import opened PdoMapping
  import opened AlControl
  import opened AlRuns

  datatype Phases = Phases(watchdog: bool, outputs: bool, inputs: bool)

  predicate WatchdogExpires(al: Al, wd: int) {
    wd <= 0 && HasOutput(al.app) && al.rx.size > 0
  }

  function CountDown(wd: int): int { if wd > 0 then wd - 1 else wd }

  /** The watchdog phase of DIG_process: count down, then drop out of Operational or reload. */
  function WatchdogPhase(al: Al, wd: int, limit: int): (Al, int) {
    var w := CountDown(wd);
    if WatchdogExpires(al, w) then (GoToError(al, SAFEOP + ERROR, ALERR_WATCHDOG), w)
    else if !HasOutput(al.app) then (al, limit)
    else (al, w)
  }

  /** The output phase: new process data from the master are applied while outputs are live. */
  function OutputPhase(al: Al, wd: int, limit: int, event: bool): (Al, int) {
    if HasOutput(al.app) && event then (Did(al, AppliedOutputs), limit) else (al, wd)
  }

  function InputPhase(al: Al): Al {
    if al.app > 0 then Did(al, FetchedInputs) else al
  }

  /** DIG_process without its effect on storage. */
  function Dig(al: Al, wd: int, limit: int, p: Phases, event: bool): (Al, int) {
    var al0 := al.(log := []);
    var (al1, wd1) := if p.watchdog then WatchdogPhase(al0, wd, limit) else (al0, wd);
    var (al2, wd2) := if p.outputs then OutputPhase(al1, wd1, limit, event) else (al1, wd1);
    (if p.inputs then InputPhase(al2) else al2, wd2)
  }

  // Watchdog

  /** Number of watchdog phases since the last reload, given the number before this call of DIG_process. */
  function PhasesSince(al: Al, wd: int, limit: int, p: Phases, event: bool, since: nat): nat {
    var counted := if !p.watchdog then since else if HasOutput(al.app) then since + 1 else 0;
    var al1 := if p.watchdog then WatchdogPhase(al, wd, limit).0 else al;
    if p.outputs && HasOutput(al1.app) && event then 0 else counted
  }

  function Remaining(limit: nat, since: nat): nat {
    if since >= limit then 0 else limit - since
  }

  /** The counter is what is left of the limit, after every call. */
  lemma WatchdogCounts(al: Al, wd: int, limit: nat, p: Phases, event: bool, since: nat)
    requires wd == Remaining(limit, since)
    ensures Dig(al, wd, limit, p, event).1 == Remaining(limit, PhasesSince(al, wd, limit, p, event, since))
  {
  }

  /**
   The watchdog drops the slave to Safe-Operational with error exactly when
   outputs are live, the master has configured output data, and at least limit
   watchdog phases, this one included, have passed since the last reload.
   */
  lemma WatchdogExact(cfg: Config, al: Al, wd: int, limit: nat, p: Phases, event: bool, since: nat)
    requires Consistent(cfg, al) && wd == Remaining(limit, since)
    ensures (StateOf(Dig(al, wd, limit, p, event).0) != StateOf(al)) <==>
            (p.watchdog && StateOf(al) == OP && al.rx.size > 0 && since + 1 >= limit)
    ensures StateOf(Dig(al, wd, limit, p, event).0) != StateOf(al) ==>
            Dig(al, wd, limit, p, event).0.status == SAFEOP + ERROR
  {
  }

  lemma DigConsistent(cfg: Config, al: Al, wd: int, limit: int, p: Phases, event: bool)
    requires Consistent(cfg, al)
    ensures Consistent(cfg, Dig(al, wd, limit, p, event).0)
    ensures Dig(al, wd, limit, p, event).0.rx == al.rx && Dig(al, wd, limit, p, event).0.tx == al.tx
    ensures LeavesSafely(Dig(al, wd, limit, p, event).0) || StateOf(al) != OP
  {
    var t := Dig(al, wd, limit, p, event).0;
    if StateOf(al) == OP {
      if p.watchdog && WatchdogExpires(al, CountDown(wd)) {
        WatchdogLeavesOpSafely(cfg, al.(log := []));
        assert t.log[1] == SafeOutput;
        assert t.log[3].WroteStatus?;
      }
    }
  }

  lemma DigNeverEnters(cfg: Config, al: Al, wd: int, limit: int, p: Phases, event: bool)
    requires Consistent(cfg, al)
    ensures Exchanging(Dig(al, wd, limit, p, event).0) ==> Exchanging(al)
  {
  }

  /** Outputs are applied only in Operational, by a call that does not leave it. */
  lemma OutputsOnlyInOp(cfg: Config, al: Al, wd: int, limit: int, p: Phases, event: bool)
    requires Consistent(cfg, al)
    ensures AppliedOutputs in Dig(al, wd, limit, p, event).0.log <==>
            (p.outputs && event && StateOf(al) == OP && StateOf(Dig(al, wd, limit, p, event).0) == OP)
  {
  }

  lemma ExpiryIs(al: Al)
    requires 2 <= al.app < 4 && al.log == []
    ensures var t := GoToError(al, 0x14, 0x1B);
            && t == al.(log := t.log, status := 0x14, error := 0x1B, app := al.app % 2)
            && t.log == [Disabled(2), SafeOutput, WroteError(0x1B), WroteStatus(0x14)]
  {
  }

  /** A whole call in numbers: bit 1 of app says that outputs are live, any bit that the application runs. */
  lemma CycleIs(al: Al, wd: int, limit: int, p: Phases, event: bool)
    requires al.app < 4
    ensures var counted := if p.watchdog && wd > 0 then wd - 1 else wd;
            var live := al.app >= 2;
            var expired := p.watchdog && counted <= 0 && live && al.rx.size > 0;
            var reloaded := p.watchdog && !live;
            var applied := p.outputs && event && live && !expired;
            var fetched := p.inputs && (if expired then al.app == 3 else al.app > 0);
            var (t, w) := Dig(al, wd, limit, p, event);
            && w == (if applied || reloaded then limit else counted)
            && t == al.(log := t.log, status := if expired then 0x14 else al.status, error := if expired then 0x1B else al.error,
                        app := if expired then al.app % 2 else al.app)
            && t.log == (if expired then [Disabled(2), SafeOutput, WroteError(0x1B), WroteStatus(0x14)] else [])
                        + (if applied then [AppliedOutputs] else []) + (if fetched then [FetchedInputs] else [])
  {
    hide GoToError;
    if al.app >= 2 { ExpiryIs(al.(log := [])); }
  }

  // Which storage the mapping is read from

  predicate StoredIn(o: Object, c: nat) {
    exists i | 0 <= i < |o.entries| :: o.entries[i].data == Some(c)
  }

  /** Computing the mapping of an assign object reads storage cell c. */
  ghost predicate ReadsCell(d: Dictionary, st: Store, index: nat, c: nat)
    requires CanRecompute(d, st, index)
  {
    var n := ObjectNo(d, index);
    n >= 0 &&
    (StoredIn(d[n], c) ||
     exists s | 1 <= s <= Count(d[n], st) :: AssignedReads(d, Value16(d[n].entries[s], st), c))
  }

  predicate AssignedReads(d: Dictionary, index: nat, c: nat) {
    ObjectNo(d, index) >= 0 && StoredIn(d[ObjectNo(d, index)], c)
  }

  /** Two stores agree on every cell that the mapping is read from. */
  ghost predicate SameWhereRead(d: Dictionary, st: Store, after: Store, index: nat)
    requires CanRecompute(d, st, index)
  {
    |after| == |st| && forall c | 0 <= c < |st| && ReadsCell(d, st, index, c) :: after[c] == st[c]
  }

  ghost predicate SameObject(o: Object, st: Store, after: Store) {
    |after| == |st| && forall c | 0 <= c < |st| && StoredIn(o, c) :: after[c] == st[c]
  }

  lemma SameEntry(o: Object, st: Store, after: Store, i: nat)
    requires SameObject(o, st, after) && i < |o.entries|
    ensures forall w :: CanFetch(o.entries[i], after, w) == CanFetch(o.entries[i], st, w)
    ensures CanFetch(o.entries[i], st, 1) ==> Value8(o.entries[i], after) == Value8(o.entries[i], st)
    ensures CanFetch(o.entries[i], st, 2) ==> Value16(o.entries[i], after) == Value16(o.entries[i], st)
    ensures CanFetch(o.entries[i], st, 4) ==> Value32(o.entries[i], after) == Value32(o.entries[i], st)
  {
    if o.entries[i].data.Some? { assert o.entries[i].data == Some(o.entries[i].data.value); }
  }

  lemma {:induction false} SameValues(o: Object, st: Store, after: Store, n: nat)
    requires SameObject(o, st, after) && MappingReadable(o, st) && n <= Count(o, st)
    ensures MappingReadable(o, after) && Count(o, after) == Count(o, st) && Values(o, after, n) == Values(o, st, n)
  {
    forall c | 1 <= c <= Count(o, st) ensures Value32(o.entries[c], after) == Value32(o.entries[c], st) {
      SameEntry(o, st, after, c);
    }
    if n > 0 { SameValues(o, st, after, n - 1); }
  }

  lemma SameAssigned(d: Dictionary, st: Store, after: Store, index: nat, s: nat)
    requires CanRecompute(d, st, index) && SameWhereRead(d, st, after, index)
    requires ObjectNo(d, index) >= 0 && 1 <= s <= Count(d[ObjectNo(d, index)], st)
    ensures var e := d[ObjectNo(d, index)].entries[s];
            && CanFetch(e, after, 2) && Value16(e, after) == Value16(e, st)
            && var h := Value16(e, st);
            && h != LIST_END
            && (ObjectNo(d, h) >= 0 ==> MappingReadable(d[ObjectNo(d, h)], after))
            && ValuesOf(d, after, h) == ValuesOf(d, st, h)
  {
    var sm := d[ObjectNo(d, index)];
    assert SameObject(sm, st, after);
    SameEntry(sm, st, after, s);
    var h := Value16(sm.entries[s], st);
    if ObjectNo(d, h) >= 0 {
      var o := d[ObjectNo(d, h)];
      forall c | 0 <= c < |st| && StoredIn(o, c) ensures after[c] == st[c] {
        assert AssignedReads(d, h, c);
        assert ReadsCell(d, st, index, c);
      }
      SameValues(o, st, after, Count(o, st));
    }
  }

  /** The mapping depends on nothing else. */
  lemma RecomputeFrame(d: Dictionary, st: Store, after: Store, index: nat, max: nat, before: Pd)
    requires CanRecompute(d, st, index) && SameWhereRead(d, st, after, index)
    ensures CanRecompute(d, after, index)
    ensures Recomputed(d, after, index, max, before) == Recomputed(d, st, index, max, before)
    ensures forall c :: ReadsCell(d, after, index, c) == ReadsCell(d, st, index, c)
  {
    if ObjectNo(d, index) >= 0 {
      var sm := d[ObjectNo(d, index)];
      assert SameObject(sm, st, after);
      forall s | 1 <= s <= Count(sm, st)
        ensures CanFetch(sm.entries[s], after, 2) && Value16(sm.entries[s], after) == Value16(sm.entries[s], st)
        ensures Value16(sm.entries[s], after) != LIST_END
        ensures ObjectNo(d, Value16(sm.entries[s], after)) >= 0 ==>
                  MappingReadable(d[ObjectNo(d, Value16(sm.entries[s], after))], after)
      {
        SameAssigned(d, st, after, index, s);
      }
      SameFlattened(d, st, after, index, Count(sm, st));
    }
  }

  lemma {:induction false} SameFlattened(d: Dictionary, st: Store, after: Store, index: nat, k: nat)
    requires CanRecompute(d, st, index) && SameWhereRead(d, st, after, index)
    requires ObjectNo(d, index) >= 0 && k <= Count(d[ObjectNo(d, index)], st)
    requires AssignReadable(d, after, d[ObjectNo(d, index)])
    requires Count(d[ObjectNo(d, index)], after) == Count(d[ObjectNo(d, index)], st)
    ensures Flattened(d, after, d[ObjectNo(d, index)], k) == Flattened(d, st, d[ObjectNo(d, index)], k)
  {
    if k > 0 {
      SameAssigned(d, st, after, index, k);
      SameFlattened(d, st, after, index, k - 1);
    }
  }
}
