/**
 Whole runs of the galvo controller: whatever the master assigns, downloads and
 requests, the cached process data lists agree with its dictionary.
 */
module GalvoRuns {
  import opened ObjectDictionary
  import opened PdoMapping
  import opened ProcessData
  import opened AlControl
  import opened AlRuns
  import opened CyclicDriver
  import opened Mailbox
  import opened CoeHandlers
  import opened CoeWrites
  import opened SlaveRuns
  import opened Galvo

  /** The variables have their sizes, and no transfer points to one of them. */
  predicate Regular(s: Slave) {
    GalvoStore(s.srv.st) && s.srv.sess.data.Scratch?
  }

  lemma CoeKeepsRegular(s: Server, state: nat, dsize: nat, text: Frame)
    requires GalvoStore(s.st) && s.sess.data.Scratch? && dsize >= 28 && CanProcess(SDO_OBJECTS, s, dsize)
    ensures var t := CoeProcess(SDO_OBJECTS, s, state, dsize, text); GalvoStore(t.st) && t.sess.data.Scratch?
  {
    hide CanProcess, CoeProcess, TransferTarget, WritableCell, SDO_OBJECTS;
    ProcessReach(SDO_OBJECTS, s, state, dsize, text);
    ProcessPoints(SDO_OBJECTS, s, state, dsize, text);
    var t := CoeProcess(SDO_OBJECTS, s, state, dsize, text);
    if t.sess.data.Cell? {
      assert PointsAt(t.sess, t.sess.data.c);
      NoTargets(t.sess.data.c, state, dsize);
    }
  }

  lemma StepKeepsRegular(cfg: Config, lim: Limits, s: Slave, e: Step, t: Slave)
    requires lim.dsize >= 28 && Regular(s) && Next(SDO_OBJECTS, cfg, lim, s, e, t)
    ensures Regular(t)
  {
    hide CanProcess, CoeProcess, Dig, StateRequest, SmChanged, Remapped, Recomputes, CanRecomputeBoth, AllMovable, HoldsMapping,
      SDO_OBJECTS;
    match e
    case Request(_, _) =>
    case SmChange(_, _) =>
    case Cycle(_, _, _) =>
    case Mailboxes(_) =>
    case Coe(text) => CoeKeepsRegular(s.srv, StateOf(s.al), lim.dsize, text);
  }

  /** The exchange always starts with a protected mapping. */
  lemma EntersWell(cfg: Config, lim: Limits, s: Slave, e: Step, t: Slave)
    requires lim.dsize >= 28 && Regular(s) && Next(SDO_OBJECTS, cfg, lim, s, e, t) && Consistent(cfg, s.al) && Enters(s, t)
    ensures Protected(SDO_OBJECTS, s.srv.st, t.al.rx, lim.dsize) && PointsAway(SDO_OBJECTS, s.srv.st, s.srv.sess)
  {
    StepConsistent(SDO_OBJECTS, cfg, lim, s, e, t);
    hide SDO_OBJECTS, StateRequest, Recomputes, CanRecompute, Recomputed, Protected, HoldsMapping, SmChanged, Dig, CoeProcess,
      CanProcess, Consistent, CycleStores, GalvoStore, OutputSmOk, InputSmOk;
    var st := s.srv.st;
    EnteringIsChecked(cfg, s.al, e.event, e.r, Remapped(SDO_OBJECTS, st, RX_PDO_OBJIDX, lim.max2, s.al.rx),
                      Remapped(SDO_OBJECTS, st, TX_PDO_OBJIDX, lim.max3, s.al.tx));
    AlwaysProtected(st, lim.max2, s.al.rx, lim.dsize);
  }

  lemma {:induction false} RunRegular(cfg: Config, lim: Limits, ss: seq<Slave>, steps: seq<Step>, k: nat)
    requires lim.dsize >= 28 && IsRun(SDO_OBJECTS, cfg, lim, ss, steps) && k <= |steps| && Regular(ss[0])
    ensures Regular(ss[k])
  {
    hide SDO_OBJECTS, Next, Regular;
    if k > 0 {
      RunRegular(cfg, lim, ss, steps, k - 1);
      assert Next(SDO_OBJECTS, cfg, lim, ss[k - 1], steps[k - 1], ss[k]);
      StepKeepsRegular(cfg, lim, ss[k - 1], steps[k - 1], ss[k]);
    }
  }

  /**
   In every run of the shipped dictionary that starts outside the exchange with
   no transfer in progress, with mailboxes of at least 28 data bytes: while
   process data are exchanged, the cached lists and lengths are what sizeOfPDO
   would compute now, and the mapping is out of reach. The master may assign
   what it likes in Pre-Operational.
   */
  lemma GalvoRunInvariant(cfg: Config, lim: Limits, ss: seq<Slave>, steps: seq<Step>, k: nat)
    requires lim.dsize >= 28 && IsRun(SDO_OBJECTS, cfg, lim, ss, steps) && k <= |steps|
    requires Consistent(cfg, ss[0].al) && !Exchanging(ss[0].al) && Regular(ss[0])
    ensures Invariant(SDO_OBJECTS, cfg, lim, ss[k])
  {
    hide SDO_OBJECTS, Next, Regular, Consistent, Protected, PointsAway;
    forall j | 0 <= j < |ss| - 1 && Enters(ss[j], ss[j + 1])
      ensures Protected(SDO_OBJECTS, ss[j].srv.st, ss[j + 1].al.rx, lim.dsize)
      ensures PointsAway(SDO_OBJECTS, ss[j].srv.st, ss[j].srv.sess)
    {
      assert Next(SDO_OBJECTS, cfg, lim, ss[j], steps[j], ss[j + 1]);
      RunRegular(cfg, lim, ss, steps, j);
      RunConsistent(SDO_OBJECTS, cfg, lim, ss, steps, j);
      EntersWell(cfg, lim, ss[j], steps[j], ss[j + 1]);
    }
    RunInvariant(SDO_OBJECTS, cfg, lim, ss, steps, k);
  }
}
