/**
 What holds of the mailbox buffers in every run: nothing is lost or used
 twice, and the last message the master fetched can always be sent again.
 */
module MailboxRuns {
  import opened Mailbox

  /**
   Everything that acts on the buffers. Protocol handlers claim and queue one
   buffer (Respond), may leave one claimed (Claim), and release the inbox or
   keep it for a continued transfer (Consume).
   */
  datatype Step =
    | Process(i: Input)
    | Respond(f: Frame)
    | Claim
    | Consume(release: bool, xoe: nat)
    | Reject
    | Load(full0: bool, full1: bool, repeat: bool)
    | Start
    | Stop

  function Next(m: Mbx, s: Step, size: nat): (r: Mbx)
    requires Shaped(m)
    ensures LikeShaped(r, m)
  {
    match s
    case Process(i) => Processed(m, i, size)
    case Respond(f) => Sent(m, f)
    case Claim => Claimed(m)
    case Consume(release, xoe) => (if release then InboxDropped(m) else m).(xoe := xoe)
    case Reject => Rejected(m)
    case Load(full0, full1, repeat) => Loaded(m, full0, full1, repeat)
    case Start => Started(m)
    case Stop => Stopped(m)
  }

  /** Number of buffers in a state. */
  function Num(c: seq<BufferState>, s: BufferState): nat {
    if c == [] then 0 else Num(c[..|c| - 1], s) + (if c[|c| - 1] == s then 1 else 0)
  }

  function One(b: bool): nat { if b then 1 else 0 }

  lemma {:induction false} NumUpdate(c: seq<BufferState>, i: nat, x: BufferState, s: BufferState)
    requires i < |c|
    ensures Num(c[i := x], s) == Num(c, s) - One(c[i] == s) + One(x == s)
  {
    var n := |c| - 1;
    if i < n {
      NumUpdate(c[..n], i, x, s);
      assert c[i := x][..n] == c[..n][i := x];
    } else {
      assert c[i := x][..n] == c[..n];
    }
  }

  /** The tally after one buffer changes its state. */
  lemma Update(c: seq<BufferState>, i: nat, x: BufferState)
    requires i < |c|
    ensures Num(c[i := x], Idle) == Num(c, Idle) - One(c[i] == Idle) + One(x == Idle)
    ensures Num(c[i := x], Inclaim) == Num(c, Inclaim) - One(c[i] == Inclaim) + One(x == Inclaim)
    ensures Num(c[i := x], Outclaim) == Num(c, Outclaim) - One(c[i] == Outclaim) + One(x == Outclaim)
    ensures Num(c[i := x], Outreq) == Num(c, Outreq) - One(c[i] == Outreq) + One(x == Outreq)
    ensures Num(c[i := x], Outpost) == Num(c, Outpost) - One(c[i] == Outpost) + One(x == Outpost)
    ensures Num(c[i := x], Backup) == Num(c, Backup) - One(c[i] == Backup) + One(x == Backup)
    ensures Num(c[i := x], Again) == Num(c, Again) - One(c[i] == Again) + One(x == Again)
  {
    hide Num;
    NumUpdate(c, i, x, Idle);
    NumUpdate(c, i, x, Inclaim);
    NumUpdate(c, i, x, Outclaim);
    NumUpdate(c, i, x, Outreq);
    NumUpdate(c, i, x, Outpost);
    NumUpdate(c, i, x, Backup);
    NumUpdate(c, i, x, Again);
  }

  lemma {:induction false} NumAll(c: seq<BufferState>)
    ensures Num(c, Idle) + Num(c, Inclaim) + Num(c, Outclaim) + Num(c, Outreq) + Num(c, Outpost)
            + Num(c, Backup) + Num(c, Again) == |c|
  {
    if c != [] { NumAll(c[..|c| - 1]); }
  }

  lemma {:induction false} NumIdle(n: nat, s: BufferState)
    ensures Num(seq(n, _ => Idle), s) == if s == Idle then n else 0
  {
    if n > 0 {
      assert seq(n, _ => Idle)[..n - 1] == seq(n - 1, _ => Idle);
      NumIdle(n - 1, s);
    }
  }

  lemma {:induction false} NumPositive(c: seq<BufferState>, i: nat, s: BufferState)
    requires i < |c| && c[i] == s
    ensures Num(c, s) >= 1
  {
    if i < |c| - 1 { NumPositive(c[..|c| - 1], i, s); }
  }

  /** A state held by one buffer only is held by no other. */
  lemma NumOne(c: seq<BufferState>, i: nat, j: nat, s: BufferState)
    requires i < |c| && j < |c| && c[i] == s && c[j] == s && Num(c, s) == 1
    ensures i == j
  {
    if i != j {
      Update(c, i, if s == Idle then Backup else Idle);
      NumPositive(c[i := if s == Idle then Backup else Idle], j, s);
    }
  }

  /** Holds in every run. */
  ghost predicate Safe(m: Mbx) {
    && Shaped(m)
    && m.control[0] in {Idle, Inclaim}
    && Num(m.control, Inclaim) == One(m.control[0] == Inclaim)
    && m.txcue == Num(m.control, Outclaim) + Num(m.control, Outreq)
    && Num(m.control, Backup) == One(m.backup != 0)
    && (m.backup != 0 ==> m.control[m.backup] == Backup)
    && (m.outpost != 0 ==> m.control[m.outpost] in {Outpost, Again})
  }

  /** Holds in every run in which a posted mailbox stays full until its event. */
  ghost predicate Conserving(m: Mbx) {
    && Safe(m)
    && Num(m.control, Outpost) + Num(m.control, Again) == One(m.outpost != 0)
    && (m.outpost != 0 ==> m.full1 && !m.free)
  }

  /** The register contents of this step show a posted mailbox as full unless its event has come. */
  predicate StaysFull(m: Mbx, s: Step) {
    match s
    case Process(i) => (m.outpost != 0 && !i.event1 ==> i.full1) && i.fullAfterPost
    case Load(full0, full1, repeat) => m.outpost != 0 ==> full1
    case _ => true
  }

  lemma SafeInitially(m: Mbx)
    requires Shaped(m)
    ensures Conserving(Stopped(m))
  {
    hide Num;
    var n := |m.control|;
    NumIdle(n, Inclaim);
    NumIdle(n, Outclaim);
    NumIdle(n, Outreq);
    NumIdle(n, Outpost);
    NumIdle(n, Backup);
    NumIdle(n, Again);
  }

  lemma ClaimedSafe(m: Mbx)
    requires Safe(m)
    ensures Safe(Claimed(m))
    ensures Conserving(m) ==> Conserving(Claimed(m))
  {
    hide Num, Highest;
    if FreeBuffer(m) > 0 { Update(m.control, FreeBuffer(m), Outclaim); }
  }

  lemma QueuedSafe(m: Mbx, n: nat, f: Frame)
    requires Safe(m) && 0 < n < |m.control| && m.control[n] == Outclaim
    ensures Safe(Queued(m, n, f))
    ensures Conserving(m) ==> Conserving(Queued(m, n, f))
  {
    hide Num;
    Update(m.control, n, Outreq);
  }

  lemma SentSafe(m: Mbx, f: Frame)
    requires Safe(m)
    ensures Safe(Sent(m, f))
    ensures Conserving(m) ==> Conserving(Sent(m, f))
  {
    assert Shaped(m);
    hide Num, Highest, Safe, Conserving;
    ClaimedSafe(m);
    if FreeBuffer(m) > 0 { QueuedSafe(Claimed(m), FreeBuffer(m), f); }
  }

  lemma InboxDroppedSafe(m: Mbx)
    requires Safe(m)
    ensures Safe(InboxDropped(m))
    ensures Conserving(m) ==> Conserving(InboxDropped(m))
  {
    hide Num;
    Update(m.control, 0, Idle);
  }

  lemma FilledSafe(m: Mbx, f: Frame, size: nat)
    requires Safe(m) && m.control[0] == Idle
    ensures Safe(Filled(m, f, size).(full0 := false))
    ensures Conserving(m) ==> Conserving(Filled(m, f, size).(full0 := false))
  {
    hide Num;
    Update(m.control, 0, Inclaim);
  }

  lemma HeaderCheckedSafe(m: Mbx, size: nat)
    requires Safe(m)
    ensures Safe(HeaderChecked(m, size))
    ensures Conserving(m) ==> Conserving(HeaderChecked(m, size))
  {
    assert Shaped(m);
    hide Safe, Conserving, Sent, InboxDropped;
    SentSafe(m, ErrorFrame(MBXERR_INVALIDHEADER));
    InboxDroppedSafe(Sent(m, ErrorFrame(MBXERR_INVALIDHEADER)));
  }

  lemma CounterCheckedSafe(m: Mbx, cnt: nat)
    requires Safe(m)
    ensures Safe(CounterChecked(m, cnt))
    ensures Conserving(m) ==> Conserving(CounterChecked(m, cnt))
  {
    hide Num;
    InboxDroppedSafe(m);
  }

  lemma ReceivedSafe(m: Mbx, f: Frame, size: nat)
    requires Safe(m) && m.control[0] == Idle
    ensures Safe(Received(m, f, size))
    ensures Conserving(m) ==> Conserving(Received(m, f, size))
  {
    FilledSafe(m, f, size);
    hide Safe, Conserving, HeaderChecked, CounterChecked;
    HeaderCheckedSafe(Filled(m, f, size).(full0 := false), size);
    CounterCheckedSafe(HeaderChecked(Filled(m, f, size).(full0 := false), size), f.cnt);
  }

  lemma AcknowledgedSafe(m: Mbx)
    requires Safe(m) && m.outpost != 0
    ensures Safe(Acknowledged(m))
    ensures Num(m.control, Outpost) + Num(m.control, Again) == 1 ==> Conserving(Acknowledged(m))
  {
    hide Num;
    var c := if m.backup == 0 then m.control else m.control[m.backup := Idle];
    if m.backup != 0 { Update(m.control, m.backup, Idle); }
    Update(c, m.outpost, Backup);
  }

  lemma RepeatedSafe(m: Mbx)
    requires Safe(m)
    ensures Safe(Repeated(m))
    ensures Conserving(m) ==> Conserving(Repeated(m))
  {
    hide Num;
    if m.outpost != 0 { Update(m.control, m.outpost, Again); }
  }

  lemma PostedSafe(m: Mbx, fullAfterPost: bool)
    requires Safe(m)
    ensures Safe(Posted(m, fullAfterPost))
    ensures Posted(m, fullAfterPost).control[0] == m.control[0]
    ensures Conserving(m) && fullAfterPost ==> Conserving(Posted(m, fullAfterPost))
  {
    hide Num, Highest;
    var n := Highest(m.control, Outreq, |m.control| - 1);
    if n > 0 {
      Update(m.control, n, Outpost);
      NumPositive(m.control, n, Outreq);
    }
  }

  lemma ProcessedSafe(m: Mbx, i: Input, size: nat)
    requires Safe(m)
    ensures Safe(Processed(m, i, size))
    ensures Conserving(m) && StaysFull(m, Process(i)) ==> Conserving(Processed(m, i, size))
  {
    RefreshedSafe(m, i);
    var r := Refreshed(m, i);
    hide Num, Received, Posted, Repeated, Acknowledged;
    if m.run {
      if m.outpost != 0 && i.event1 {
        AcknowledgedSafe(r);
      } else if m.repeat != m.toggle {
        RepeatedSafe(r);
      } else {
        PostedSafe(r, i.fullAfterPost);
        var p := Posted(r, i.fullAfterPost);
        if Receives(p) { ReceivedSafe(p, i.message, size); }
      }
    }
  }

  lemma RefreshedSafe(m: Mbx, i: Input)
    requires Safe(m)
    ensures Safe(Refreshed(m, i))
    ensures Conserving(m) && (m.outpost != 0 && !i.event1 ==> i.full1) && !(m.outpost != 0 && i.event1) ==>
              Conserving(Refreshed(m, i))
  {
    hide Num;
  }

  lemma RejectedSafe(m: Mbx)
    requires Safe(m)
    ensures Safe(Rejected(m))
    ensures Conserving(m) ==> Conserving(Rejected(m))
  {
    if m.run && m.xoe == 0 && m.control[0] == Inclaim {
      hide Safe, Conserving, Sent, InboxDropped;
      var f := m.buf[0];
      var e := ErrorFrame(if f.mtype == 0 || f.length == 0 then MBXERR_INVALIDHEADER else MBXERR_UNSUPPORTEDPROTOCOL);
      SentSafe(m, e);
      InboxDroppedSafe(Sent(m, e));
    }
  }

  lemma ConsumedSafe(m: Mbx, release: bool, xoe: nat)
    requires Safe(m)
    ensures Safe(Next(m, Consume(release, xoe), 0))
    ensures Conserving(m) ==> Conserving(Next(m, Consume(release, xoe), 0))
  {
    hide Num;
    InboxDroppedSafe(m);
  }

  /** Every step keeps the buffers in order. */
  lemma StepSafe(m: Mbx, s: Step, size: nat)
    requires Safe(m)
    ensures Safe(Next(m, s, size))
    ensures Conserving(m) && StaysFull(m, s) ==> Conserving(Next(m, s, size))
  {
    hide Num, Sent, Claimed, Processed, InboxDropped, Stopped, Rejected;
    match s
    case Process(i) => ProcessedSafe(m, i, size);
    case Respond(f) => SentSafe(m, f);
    case Claim => ClaimedSafe(m);
    case Consume(release, xoe) => ConsumedSafe(m, release, xoe);
    case Reject => RejectedSafe(m);
    case Load(_, _, _) =>
    case Start =>
    case Stop => SafeInitially(m);
  }

  function Run(m: Mbx, steps: seq<Step>, size: nat): (r: Mbx)
    requires Shaped(m)
    ensures LikeShaped(r, m)
    decreases |steps|
  {
    if steps == [] then m else Run(Next(m, steps[0], size), steps[1..], size)
  }

  ghost predicate AlwaysStaysFull(m: Mbx, steps: seq<Step>, size: nat)
    requires Shaped(m)
    decreases |steps|
  {
    steps == [] || (StaysFull(m, steps[0]) && AlwaysStaysFull(Next(m, steps[0], size), steps[1..], size))
  }

  /** In every run the queue counter is exact, buffer 0 only receives, and the backup is the only one. */
  lemma {:induction false} RunSafe(m: Mbx, steps: seq<Step>, size: nat)
    requires Safe(m)
    ensures Safe(Run(m, steps, size))
    ensures Conserving(m) && AlwaysStaysFull(m, steps, size) ==> Conserving(Run(m, steps, size))
    decreases |steps|
  {
    assert Shaped(m);
    hide Next, Safe, Conserving, StaysFull;
    if steps != [] {
      StepSafe(m, steps[0], size);
      RunSafe(Next(m, steps[0], size), steps[1..], size);
    }
  }

  /** No buffer is lost: every sending buffer is free, queued or claimed, posted, or the backup. */
  lemma Conservation(m: Mbx)
    requires Conserving(m)
    ensures Num(m.control[1..], Idle) + m.txcue + One(m.outpost != 0) + One(m.backup != 0) == |m.control| - 1
    ensures m.outpost != 0 ==> forall k | 0 <= k < |m.control| && m.control[k] in {Outpost, Again} :: k == m.outpost
    ensures m.backup != 0 ==> forall k | 0 <= k < |m.control| && m.control[k] == Backup :: k == m.backup
  {
    NumAll(m.control);
    NumTail(m.control, Idle);
    if m.backup != 0 {
      forall k | 0 <= k < |m.control| && m.control[k] == Backup ensures k == m.backup {
        NumOne(m.control, k, m.backup, Backup);
      }
    }
    if m.outpost != 0 {
      forall k | 0 <= k < |m.control| && m.control[k] in {Outpost, Again} ensures k == m.outpost {
        NumPositive(m.control, m.outpost, m.control[m.outpost]);
        NumPositive(m.control, k, m.control[k]);
        NumOne(m.control, k, m.outpost, m.control[m.outpost]);
      }
    }
  }

  lemma {:induction false} NumTail(c: seq<BufferState>, s: BufferState)
    requires |c| >= 1
    ensures Num(c, s) == Num(c[1..], s) + One(c[0] == s)
  {
    if |c| > 1 {
      NumTail(c[..|c| - 1], s);
      assert c[..|c| - 1][1..] == c[1..][..|c| - 2];
    }
  }
}
