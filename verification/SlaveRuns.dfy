/**
 Whole runs of the slave: requests of the master, changed SyncManagers, cycles,
 and calls of the CoE server, in any order. The cached process data lists stay
 what sizeOfPDO would compute from the current dictionary.
 */
module SlaveRuns {
  import opened Words
  import opened ObjectDictionary
  import opened PdoMapping
  import opened ProcessData
  import opened AlControl
  import opened AlRuns
  import opened CyclicDriver
  import opened Mailbox
  import opened SdoTransfer
  import opened CoeHandlers
  import opened CoeWrites

  /** The state machine, the watchdog counter, and the CoE server with the application's storage. */
  datatype Slave = Slave(al: Al, wd: int, srv: Server)

  /** Room in the two lists, the watchdog count, and the data bytes of a mailbox. */
  datatype Limits = Limits(max2: nat, max3: nat, watchdog: nat, dsize: nat)

  /** Between two calls of the CoE server anything may happen in the mailboxes. */
  datatype Step =
    | Request(event: bool, r: Regs)
    | SmChange(event: bool, r: Regs)
    | Cycle(p: Phases, event: bool, image: seq<uint64>)
    | Mailboxes(m: Mbx)
    | Coe(text: Frame)

  ghost predicate CanRecomputeBoth(d: Dictionary, st: Store) {
    CanRecompute(d, st, RX_PDO_OBJIDX) && CanRecompute(d, st, TX_PDO_OBJIDX)
  }

  /** One of the two mappings is read from cell c. */
  ghost predicate HoldsMapping(d: Dictionary, st: Store, c: nat) {
    || (CanRecompute(d, st, RX_PDO_OBJIDX) && ReadsCell(d, st, RX_PDO_OBJIDX, c))
    || (CanRecompute(d, st, TX_PDO_OBJIDX) && ReadsCell(d, st, TX_PDO_OBJIDX, c))
  }

  ghost predicate KeepsMapping(d: Dictionary, st: Store, after: Store) {
    SameSizes(st, after) && forall c | 0 <= c < |st| && HoldsMapping(d, st, c) :: after[c] == st[c]
  }

  predicate OutputTo(pd: Pd, c: nat) {
    exists k | 0 <= k < |pd.lines| :: pd.lines[k].obj.Some? && pd.lines[k].obj.value.data == Some(c)
  }

  /** Nothing that happens in Safe-Operational or Operational can write cell c, now or by segments. */
  predicate OutOfReach(d: Dictionary, c: nat, rx: Pd, dsize: nat) {
    && !WritableCell(d, c, SAFEOP) && !WritableCell(d, c, OP) && !OutputTo(rx, c)
    && !TransferTarget(d, c, SAFEOP, dsize) && !TransferTarget(d, c, OP, dsize)
  }

  /** Nothing that happens during the exchange can reach the cells the mapping is read from. */
  ghost predicate Protected(d: Dictionary, st: Store, rx: Pd, dsize: nat) {
    forall c | HoldsMapping(d, st, c) :: OutOfReach(d, c, rx, dsize)
  }

  /** A transfer, in progress or over, points to no cell the mapping is read from. */
  ghost predicate PointsAway(d: Dictionary, st: Store, s: Session) {
    forall c | PointsAt(s, c) :: !HoldsMapping(d, st, c)
  }

  ghost predicate CacheAgrees(d: Dictionary, lim: Limits, al: Al, st: Store) {
    && CanRecomputeBoth(d, st)
    && al.rx == Recomputed(d, st, RX_PDO_OBJIDX, lim.max2, al.rx)
    && al.tx == Recomputed(d, st, TX_PDO_OBJIDX, lim.max3, al.tx)
  }

  /** Outputs of the cycle go where the list says; the application may change what it owns. */
  ghost predicate CycleStores(d: Dictionary, al: Al, after: Al, image: seq<uint64>, st: Store, end: Store) {
    if AppliedOutputs in after.log then
      AllMovable(al.rx.lines, st, |image|)
      && exists mid: Store | IsUnpacked(al.rx.lines, |al.rx.lines|, image, st, mid) :: KeepsMapping(d, mid, end)
    else KeepsMapping(d, st, end)
  }

  /** A stop of the mailboxes forgets the transfer, but not where it pointed. */
  function Forgotten(s: Session): Session {
    Session(0, 0, 0, s.data, 0, 0, 0)
  }

  /** Storage is as before; the mailboxes may have been started or stopped. */
  ghost predicate KeepsServer(s: Server, t: Server) {
    t == s.(mbx := t.mbx, sess := t.sess) && t.sess in {s.sess, Forgotten(s.sess)}
  }

  /** One step of the whole slave. Only a request that computes the mappings needs to read them. */
  ghost predicate Next(d: Dictionary, cfg: Config, lim: Limits, s: Slave, e: Step, t: Slave) {
    match e
    case Request(event, r) =>
      && (Recomputes(s.al, event, r) ==> CanRecomputeBoth(d, s.srv.st))
      && t.al == StateRequest(cfg, s.al, event, r, Remapped(d, s.srv.st, RX_PDO_OBJIDX, lim.max2, s.al.rx),
                              Remapped(d, s.srv.st, TX_PDO_OBJIDX, lim.max3, s.al.tx))
      && t.wd == s.wd && KeepsServer(s.srv, t.srv)
    case SmChange(event, r) => t.al == SmChanged(cfg, s.al, event, r) && t.wd == s.wd && KeepsServer(s.srv, t.srv)
    case Cycle(p, event, image) =>
      && (t.al, t.wd) == Dig(s.al, s.wd, lim.watchdog, p, event)
      && t.srv == s.srv.(st := t.srv.st) && CycleStores(d, s.al, t.al, image, s.srv.st, t.srv.st)
    case Mailboxes(m) => t == s.(srv := s.srv.(mbx := m))
    case Coe(text) =>
      CanProcess(d, s.srv, lim.dsize) && t == s.(srv := CoeProcess(d, s.srv, StateOf(s.al), lim.dsize, text))
  }

  /** A run: states and the steps between them. */
  ghost predicate IsRun(d: Dictionary, cfg: Config, lim: Limits, ss: seq<Slave>, steps: seq<Step>) {
    |ss| == |steps| + 1 && forall k | 0 <= k < |steps| :: Next(d, cfg, lim, ss[k], steps[k], ss[k + 1])
  }

  predicate Enters(s: Slave, t: Slave) { !Exchanging(s.al) && Exchanging(t.al) }

  /** Whenever the exchange starts, the mapping is out of reach of what can happen during it. */
  ghost predicate EntersProtected(d: Dictionary, lim: Limits, ss: seq<Slave>) {
    forall k | 0 <= k < |ss| - 1 && Enters(ss[k], ss[k + 1]) ::
      Protected(d, ss[k].srv.st, ss[k + 1].al.rx, lim.dsize) && PointsAway(d, ss[k].srv.st, ss[k].srv.sess)
  }

  ghost predicate Invariant(d: Dictionary, cfg: Config, lim: Limits, s: Slave) {
    && Consistent(cfg, s.al)
    && (Exchanging(s.al) ==>
          && CacheAgrees(d, lim, s.al, s.srv.st)
          && Protected(d, s.srv.st, s.al.rx, lim.dsize) && PointsAway(d, s.srv.st, s.srv.sess))
  }

  // Storage

  lemma SameByte(x: byte, y: byte)
    requires forall i: nat | i < 8 :: Bit(x, i) == Bit(y, i)
    ensures x == y
  {
    assert Pow2(8) == 256;
    SameBits(x, y, 8);
  }

  /** Unpacking changes only the cells of its lines. */
  lemma UnpackedKeeps(ms: seq<SMmap>, image: seq<uint64>, before: Store, after: Store, c: nat)
    requires AllMovable(ms, before, |image|) && IsUnpacked(ms, |ms|, image, before, after)
    requires c < |before|
    requires forall k | 0 <= k < |ms| && ms[k].obj.Some? :: ms[k].obj.value.data != Some(c)
    ensures after[c] == before[c]
  {
    forall j | 0 <= j < |before[c]| ensures after[c][j] == before[c][j] {
      forall i: nat | i < 8 ensures Bit(after[c][j], i) == Bit(before[c][j], i) {
        var b := 8 * j + i;
        UnpackedUntouched(ms, |ms|, before, image, c, b);
        assert CellBit(after, c, b) == CellBit(before, c, b);
      }
      SameByte(after[c][j], before[c][j]);
    }
  }

  /** A change outside the mapping leaves it the same mapping, read from the same cells. */
  lemma MappingStays(d: Dictionary, st: Store, after: Store, index: nat, max: nat, before: Pd)
    requires index in {RX_PDO_OBJIDX, TX_PDO_OBJIDX} && CanRecompute(d, st, index) && KeepsMapping(d, st, after)
    ensures CanRecompute(d, after, index)
    ensures Recomputed(d, after, index, max, before) == Recomputed(d, st, index, max, before)
    ensures forall c :: ReadsCell(d, after, index, c) == ReadsCell(d, st, index, c)
  {
    hide ReadsCell, CanRecompute, Recomputed;
    RecomputeFrame(d, st, after, index, max, before);
  }

  /** It changes neither the lists nor what is out of reach. */
  lemma KeepsAgreement(d: Dictionary, lim: Limits, al: Al, st: Store, after: Store)
    requires CacheAgrees(d, lim, al, st) && KeepsMapping(d, st, after)
    ensures CacheAgrees(d, lim, al, after) && forall c :: HoldsMapping(d, after, c) == HoldsMapping(d, st, c)
    ensures Protected(d, st, al.rx, lim.dsize) ==> Protected(d, after, al.rx, lim.dsize)
  {
    hide Recomputed, ReadsCell, OutOfReach, CanRecompute;
    MappingStays(d, st, after, RX_PDO_OBJIDX, lim.max2, al.rx);
    MappingStays(d, st, after, TX_PDO_OBJIDX, lim.max3, al.tx);
  }

  // Steps

  lemma RequestKeeps(d: Dictionary, cfg: Config, lim: Limits, s: Slave, event: bool, r: Regs, t: Slave)
    requires Invariant(d, cfg, lim, s) && Next(d, cfg, lim, s, Request(event, r), t)
    requires Enters(s, t) ==> Protected(d, s.srv.st, t.al.rx, lim.dsize) && PointsAway(d, s.srv.st, s.srv.sess)
    ensures Invariant(d, cfg, lim, t)
  {
    hide StateRequest, Consistent, Protected, HoldsMapping, Recomputed, CanRecompute, Remapped, Recomputes, CacheAgrees;
    var st := s.srv.st;
    var rx := Remapped(d, st, RX_PDO_OBJIDX, lim.max2, s.al.rx);
    var tx := Remapped(d, st, TX_PDO_OBJIDX, lim.max3, s.al.tx);
    StateRequestConsistent(cfg, s.al, event, r, rx, tx);
    EnteringIsChecked(cfg, s.al, event, r, rx, tx);
    if Exchanging(t.al) && Recomputes(s.al, event, r) {
      ExchangingKeepsMaps(cfg, s.al, event, r, rx, tx);
      RequestAgrees(d, lim, s.al, t.al, st, rx, tx);
    } else if Exchanging(t.al) {
      MapsUnread(cfg, s.al, event, r, rx, tx);
      ExchangingKeepsMaps(cfg, s.al, event, r, s.al.rx, s.al.tx);
      SameLists(d, lim, s.al, t.al, st);
    }
  }

  lemma RequestAgrees(d: Dictionary, lim: Limits, al: Al, after: Al, st: Store, rx: Pd, tx: Pd)
    requires CanRecomputeBoth(d, st)
    requires rx == Remapped(d, st, RX_PDO_OBJIDX, lim.max2, al.rx) && tx == Remapped(d, st, TX_PDO_OBJIDX, lim.max3, al.tx)
    requires (after.rx == rx && after.tx == tx) || (after.rx == al.rx && after.tx == al.tx && CacheAgrees(d, lim, al, st))
    ensures CacheAgrees(d, lim, after, st)
    ensures CacheAgrees(d, lim, al, st) ==> after.rx == al.rx
  {
    hide CanRecompute, Flatten, Mappable;
  }

  lemma SameLists(d: Dictionary, lim: Limits, al: Al, after: Al, st: Store)
    requires CacheAgrees(d, lim, al, st) && after.rx == al.rx && after.tx == al.tx
    ensures CacheAgrees(d, lim, after, st)
  {
  }

  lemma SmChangeKeeps(d: Dictionary, cfg: Config, lim: Limits, s: Slave, event: bool, r: Regs, t: Slave)
    requires Invariant(d, cfg, lim, s) && Next(d, cfg, lim, s, SmChange(event, r), t)
    ensures Invariant(d, cfg, lim, t)
  {
    hide SmChanged, Consistent, Protected, HoldsMapping, CacheAgrees;
    SmChangedConsistent(cfg, s.al, event, r);
    SmChangedNeverEnters(cfg, s.al, event, r);
    if Exchanging(t.al) { SameLists(d, lim, s.al, t.al, s.srv.st); }
  }

  /** The stores of a cycle leave the mapping alone. */
  lemma CycleKeepsMapping(d: Dictionary, al: Al, after: Al, image: seq<uint64>, st: Store, end: Store, dsize: nat)
    requires CanRecomputeBoth(d, st) && Protected(d, st, al.rx, dsize)
    requires CycleStores(d, al, after, image, st, end)
    ensures KeepsMapping(d, st, end)
  {
    if AppliedOutputs in after.log {
      var mid: Store :| IsUnpacked(al.rx.lines, |al.rx.lines|, image, st, mid) && KeepsMapping(d, mid, end);
      hide ReadsCell, AllMovable, Recomputed, CanRecompute, TransferTarget, WritableCell;
      assert KeepsMapping(d, st, mid) by {
        forall c | 0 <= c < |st| && HoldsMapping(d, st, c) ensures mid[c] == st[c] {
          assert OutOfReach(d, c, al.rx, dsize);
          UnpackedKeeps(al.rx.lines, image, st, mid, c);
        }
      }
      hide IsUnpacked;
      MappingStays(d, st, mid, RX_PDO_OBJIDX, 0, al.rx);
      MappingStays(d, st, mid, TX_PDO_OBJIDX, 0, al.tx);
    }
  }

  lemma CycleKeeps(d: Dictionary, cfg: Config, lim: Limits, s: Slave, p: Phases, event: bool, image: seq<uint64>, t: Slave)
    requires Invariant(d, cfg, lim, s) && Next(d, cfg, lim, s, Cycle(p, event, image), t)
    ensures Invariant(d, cfg, lim, t)
  {
    hide Dig, Consistent, Protected, HoldsMapping, CacheAgrees, CycleStores;
    DigConsistent(cfg, s.al, s.wd, lim.watchdog, p, event);
    DigNeverEnters(cfg, s.al, s.wd, lim.watchdog, p, event);
    if Exchanging(t.al) {
      assert CanRecomputeBoth(d, s.srv.st) by { Agreeing(d, lim, s.al, s.srv.st); }
      CycleKeepsMapping(d, s.al, t.al, image, s.srv.st, t.srv.st, lim.dsize);
      KeepsAgreement(d, lim, s.al, s.srv.st, t.srv.st);
      SameLists(d, lim, s.al, t.al, t.srv.st);
    }
  }

  lemma Agreeing(d: Dictionary, lim: Limits, al: Al, st: Store)
    requires CacheAgrees(d, lim, al, st)
    ensures CanRecomputeBoth(d, st)
  {
  }

  /** The CoE server writes no cell of the mapping, and leaves no transfer that could. */
  lemma CoeKeeps(d: Dictionary, cfg: Config, lim: Limits, s: Slave, text: Frame, t: Slave)
    requires Invariant(d, cfg, lim, s) && Next(d, cfg, lim, s, Coe(text), t)
    ensures Invariant(d, cfg, lim, t)
  {
    hide Consistent, HoldsMapping, CacheAgrees, CoeProcess, CanProcess, WritableCell, TransferTarget, OutputTo;
    if Exchanging(s.al) {
      ProcessReach(d, s.srv, StateOf(s.al), lim.dsize, text);
      ProcessPoints(d, s.srv, StateOf(s.al), lim.dsize, text);
      assert KeepsMapping(d, s.srv.st, t.srv.st);
      KeepsAgreement(d, lim, s.al, s.srv.st, t.srv.st);
      StillAway(d, s.srv.st, t.srv.st, s.srv.sess, t.srv.sess, s.al, lim.dsize);
    }
  }

  lemma StillAway(d: Dictionary, st: Store, after: Store, s: Session, t: Session, al: Al, dsize: nat)
    requires Exchanging(al) && PointsAway(d, st, s) && Protected(d, st, al.rx, dsize) && PointsOn(d, s, t, StateOf(al), dsize)
    requires forall c :: HoldsMapping(d, after, c) == HoldsMapping(d, st, c)
    ensures PointsAway(d, after, t)
  {
    hide HoldsMapping, TransferTarget, WritableCell, OutputTo;
  }

  lemma StepKeeps(d: Dictionary, cfg: Config, lim: Limits, s: Slave, e: Step, t: Slave)
    requires Invariant(d, cfg, lim, s) && Next(d, cfg, lim, s, e, t)
    requires Enters(s, t) ==> Protected(d, s.srv.st, t.al.rx, lim.dsize) && PointsAway(d, s.srv.st, s.srv.sess)
    ensures Invariant(d, cfg, lim, t)
  {
    match e
    case Request(event, r) => RequestKeeps(d, cfg, lim, s, event, r, t);
    case SmChange(event, r) => SmChangeKeeps(d, cfg, lim, s, event, r, t);
    case Cycle(p, event, image) => CycleKeeps(d, cfg, lim, s, p, event, image, t);
    case Mailboxes(m) => hide Consistent, CacheAgrees, Protected, PointsAt, HoldsMapping;
    case Coe(text) => CoeKeeps(d, cfg, lim, s, text, t);
  }

  /**
   In every run in which the exchange always starts with a protected mapping:
   outputs are live exactly in Operational, the mailboxes run exactly outside
   Init, and while process data are exchanged the cached lists and lengths are
   what sizeOfPDO would compute now.
   */
  lemma {:induction false} RunInvariant(d: Dictionary, cfg: Config, lim: Limits, ss: seq<Slave>, steps: seq<Step>, k: nat)
    requires IsRun(d, cfg, lim, ss, steps) && EntersProtected(d, lim, ss) && k <= |steps|
    requires Invariant(d, cfg, lim, ss[0])
    ensures Invariant(d, cfg, lim, ss[k])
  {
    if k > 0 {
      hide Invariant, Next, Protected, PointsAway;
      RunInvariant(d, cfg, lim, ss, steps, k - 1);
      assert Next(d, cfg, lim, ss[k - 1], steps[k - 1], ss[k]);
      StepKeeps(d, cfg, lim, ss[k - 1], steps[k - 1], ss[k]);
    }
  }

  // Without any assumption about the mapping

  lemma StepConsistent(d: Dictionary, cfg: Config, lim: Limits, s: Slave, e: Step, t: Slave)
    requires Consistent(cfg, s.al) && Next(d, cfg, lim, s, e, t)
    ensures Consistent(cfg, t.al)
    ensures StateOf(s.al) == OP && !e.Mailboxes? && !e.Coe? ==> LeavesSafely(t.al)
    ensures !Exchanging(s.al) && Exchanging(t.al) ==>
              && e.Request? && StateOf(s.al) == PREOP && e.r.control % 0x10 == SAFEOP && StateOf(t.al) == SAFEOP
              && OutputSmOk(cfg, e.r, t.al.rx.size) && InputSmOk(cfg, e.r, t.al.tx.size)
  {
    hide Consistent, LeavesSafely, StateRequest, SmChanged, Dig, Remapped, CanRecomputeBoth, Recomputes, CoeProcess,
      CanProcess, OutputSmOk, InputSmOk, CycleStores;
    match e
    case Request(event, r) =>
      var rx := Remapped(d, s.srv.st, RX_PDO_OBJIDX, lim.max2, s.al.rx);
      var tx := Remapped(d, s.srv.st, TX_PDO_OBJIDX, lim.max3, s.al.tx);
      StateRequestConsistent(cfg, s.al, event, r, rx, tx);
      if StateOf(s.al) == OP { RequestLeavesOpSafely(cfg, s.al, event, r, rx, tx); }
      EnteringIsChecked(cfg, s.al, event, r, rx, tx);
    case SmChange(event, r) =>
      SmChangedConsistent(cfg, s.al, event, r);
      SmChangedNeverEnters(cfg, s.al, event, r);
      if StateOf(s.al) == OP { SmChangeLeavesOpSafely(cfg, s.al, event, r); }
    case Cycle(p, event, image) =>
      DigConsistent(cfg, s.al, s.wd, lim.watchdog, p, event);
      DigNeverEnters(cfg, s.al, s.wd, lim.watchdog, p, event);
    case Mailboxes(m) =>
    case Coe(text) =>
  }

  /**
   In every run: outputs are live exactly in Operational, which never carries
   the error bit; the mailboxes run exactly outside Init; and three buffers of
   output data fit in front of the input data during the exchange.
   */
  lemma {:induction false} RunConsistent(d: Dictionary, cfg: Config, lim: Limits, ss: seq<Slave>, steps: seq<Step>, k: nat)
    requires IsRun(d, cfg, lim, ss, steps) && k <= |steps| && Consistent(cfg, ss[0].al)
    ensures Consistent(cfg, ss[k].al)
  {
    hide Consistent, Next;
    if k > 0 {
      RunConsistent(d, cfg, lim, ss, steps, k - 1);
      assert Next(d, cfg, lim, ss[k - 1], steps[k - 1], ss[k]);
      StepConsistent(d, cfg, lim, ss[k - 1], steps[k - 1], ss[k]);
    }
  }

  /**
   Every step of every run that leaves Operational makes the outputs safe before
   it writes the new status, and the exchange starts only by a request in
   Pre-Operational, with registers that fit the fresh mappings.
   */
  lemma RunLeavesAndEnters(d: Dictionary, cfg: Config, lim: Limits, ss: seq<Slave>, steps: seq<Step>, k: nat)
    requires IsRun(d, cfg, lim, ss, steps) && k < |steps| && Consistent(cfg, ss[0].al)
    ensures StateOf(ss[k].al) == OP && !steps[k].Mailboxes? && !steps[k].Coe? ==> LeavesSafely(ss[k + 1].al)
    ensures !Exchanging(ss[k].al) && Exchanging(ss[k + 1].al) ==>
              && steps[k].Request? && StateOf(ss[k].al) == PREOP && StateOf(ss[k + 1].al) == SAFEOP
              && OutputSmOk(cfg, steps[k].r, ss[k + 1].al.rx.size) && InputSmOk(cfg, steps[k].r, ss[k + 1].al.tx.size)
  {
    hide Consistent, Next, LeavesSafely, OutputSmOk, InputSmOk;
    RunConsistent(d, cfg, lim, ss, steps, k);
    assert Next(d, cfg, lim, ss[k], steps[k], ss[k + 1]);
    StepConsistent(d, cfg, lim, ss[k], steps[k], ss[k + 1]);
  }

  // The watchdog over a run

  /** Watchdog phases since the last reload, up to state k of a run. */
  function SinceReload(lim: Limits, ss: seq<Slave>, steps: seq<Step>, k: nat): nat
    requires |ss| == |steps| + 1 && k <= |steps|
  {
    if k == 0 then 0
    else
      var since := SinceReload(lim, ss, steps, k - 1);
      match steps[k - 1]
      case Cycle(p, event, _) => PhasesSince(ss[k - 1].al, ss[k - 1].wd, lim.watchdog, p, event, since)
      case _ => since
  }

  /** In every run from a loaded watchdog, the counter is what is left of the limit. */
  lemma {:induction false} RunWatchdog(d: Dictionary, cfg: Config, lim: Limits, ss: seq<Slave>, steps: seq<Step>, k: nat)
    requires IsRun(d, cfg, lim, ss, steps) && k <= |steps| && ss[0].wd == lim.watchdog
    ensures ss[k].wd == Remaining(lim.watchdog, SinceReload(lim, ss, steps, k))
  {
    hide PhasesSince, Dig, StateRequest, SmChanged, CycleStores, Remapped, CanRecomputeBoth, Recomputes, CoeProcess, CanProcess;
    if k > 0 {
      RunWatchdog(d, cfg, lim, ss, steps, k - 1);
      var s := ss[k - 1];
      assert Next(d, cfg, lim, s, steps[k - 1], ss[k]);
      if steps[k - 1].Cycle? {
        var c := steps[k - 1];
        WatchdogCounts(s.al, s.wd, lim.watchdog, c.p, c.event, SinceReload(lim, ss, steps, k - 1));
      }
    }
  }

  /** A cycle of a run drops out of Operational exactly when the limit has passed since the last reload. */
  lemma RunWatchdogDrops(d: Dictionary, cfg: Config, lim: Limits, ss: seq<Slave>, steps: seq<Step>, k: nat)
    requires IsRun(d, cfg, lim, ss, steps) && k < |steps| && steps[k].Cycle?
    requires Consistent(cfg, ss[0].al) && ss[0].wd == lim.watchdog
    ensures StateOf(ss[k + 1].al) != StateOf(ss[k].al) <==>
            (steps[k].p.watchdog && StateOf(ss[k].al) == OP && ss[k].al.rx.size > 0
             && SinceReload(lim, ss, steps, k) + 1 >= lim.watchdog)
    ensures StateOf(ss[k + 1].al) != StateOf(ss[k].al) ==> ss[k + 1].al.status == SAFEOP + ERROR
  {
    hide Consistent, Dig, StateRequest, SmChanged, CycleStores, Remapped, CanRecomputeBoth, Recomputes, CoeProcess,
      CanProcess, SinceReload;
    RunConsistent(d, cfg, lim, ss, steps, k);
    RunWatchdog(d, cfg, lim, ss, steps, k);
    var c := steps[k];
    assert Next(d, cfg, lim, ss[k], c, ss[k + 1]);
    WatchdogExact(cfg, ss[k].al, ss[k].wd, lim.watchdog, c.p, c.event, SinceReload(lim, ss, steps, k));
  }
}
