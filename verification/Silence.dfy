/**
 How many lost buffers silence the slave: all sending buffers but one. The
 buffer left over keeps one message, and no other is ever queued until the
 mailboxes stop.
 */
module Silence {
  import opened ObjectDictionary
  import opened Mailbox
  import opened MailboxRuns
  import opened MailboxBackup
  import opened SdoTransfer
  import opened CoeHandlers
  import opened CoeAnswers
  import opened CoeMailbox
  import opened CoeRounds
  import opened LostBuffers

  // Buffers on their way

  /** A message is queued, posted, to be sent again, or kept. */
  predicate OnItsWay(b: BufferState) {
    b in {Outreq, Outpost, Again, Backup}
  }

  /** Some sending buffer holds a message. */
  ghost predicate Busy(m: Mbx) {
    exists k :: BusyAt(m, k)
  }

  ghost predicate BusyAt(m: Mbx, k: nat) {
    0 < k < |m.control| && OnItsWay(m.control[k])
  }

  lemma ProcessedIs(m: Mbx, i: Input, size: nat)
    requires Shaped(m)
    ensures var t := Processed(m, i, size);
            var r := Refreshed(m, i);
            && r == m.(full0 := r.full0, full1 := r.full1)
            && (if !m.run then t == m
                else if m.outpost != 0 && i.event1 then t == Acknowledged(r)
                else if m.repeat != m.toggle then t == Repeated(r)
                else var p := Posted(r, i.fullAfterPost); t == p || t == Received(p, i.message, size))
  {
    hide Acknowledged, Repeated, Posted, Received;
  }

  /** What the sending half of a call does to a buffer in use. */
  lemma AcknowledgedUse(m: Mbx)
    requires Shaped(m) && m.outpost != 0
    ensures Acknowledged(m).buf == m.buf && Acknowledged(m).control[m.outpost] == Backup
  {
    var m1 := m.(free := true);
    var m2 := if m.backup == 0 then m1 else m1.(control := m1.control[m.backup := Idle]);
    assert m2.buf == m.buf && m2.outpost == m.outpost && Shaped(m2);
    var m3 := if m2.control[m.outpost] == Again then Written(m2, m.outpost) else m2;
    assert m3.buf == m.buf && Shaped(m3);
    hide Written;
  }

  lemma RepeatedUse(m: Mbx, k: nat)
    requires Shaped(m) && 0 < k < |m.control|
    ensures var r := Repeated(m); r.buf == m.buf && (r.control[k] == m.control[k] || r.control[k] == Again)
  {
  }

  lemma PostedUse(m: Mbx, fullAfterPost: bool, k: nat)
    requires Shaped(m) && 0 < k < |m.control|
    ensures var r := Posted(m, fullAfterPost);
            r.buf == m.buf && (r.control[k] == m.control[k] || (m.control[k] == Outreq && r.control[k] == Outpost))
  {
    hide Highest;
  }

  /** A buffer in use is the one fetched, or stays in use; its content stays. */
  lemma ProcessedUse(m: Mbx, i: Input, size: nat, k: nat)
    requires Shaped(m) && 0 < k < |m.control| && m.control[k] != Idle
    ensures var r := Processed(m, i, size);
            && r.buf[k] == m.buf[k]
            && (if m.run && m.outpost != 0 && i.event1 then r.control[m.outpost] == Backup
                else OnItsWay(m.control[k]) ==> OnItsWay(r.control[k]))
  {
    hide Acknowledged, Repeated, Posted, Received, Processed, Refreshed;
    ProcessedIs(m, i, size);
    var r := Refreshed(m, i);
    if m.outpost != 0 { AcknowledgedUse(r); }
    RepeatedUse(r, k);
    PostedUse(r, i.fullAfterPost, k);
    ReceivedLeaves(Posted(r, i.fullAfterPost), i.message, size, k);
  }

  lemma ProcessedBusy(m: Mbx, i: Input, size: nat, k: nat) returns (n: nat)
    requires Shaped(m) && BusyAt(m, k)
    ensures BusyAt(Processed(m, i, size), n)
  {
    ProcessedUse(m, i, size, k);
    n := if m.run && m.outpost != 0 && i.event1 then m.outpost else k;
    hide Processed;
  }

  lemma RejectedBusy(m: Mbx, k: nat)
    requires Shaped(m) && BusyAt(m, k)
    ensures BusyAt(Rejected(m), k)
  {
    hide Sent, ErrorFrame;
    SentLeaves(m, ErrorFrame(MBXERR_INVALIDHEADER), k);
    SentLeaves(m, ErrorFrame(MBXERR_UNSUPPORTEDPROTOCOL), k);
  }

  /** Only a message fetched later takes the place of the backup: until a stop, some buffer stays in use. */
  lemma BusyStays(m: Mbx, x: Step, size: nat)
    requires Shaped(m) && Busy(m) && !x.Stop?
    ensures Busy(Next(m, x, size))
  {
    hide Processed, Rejected, Sent, Highest;
    var k :| BusyAt(m, k);
    match x
    case Process(i) => var n := ProcessedBusy(m, i, size, k);
    case Respond(f) => SentLeaves(m, f, k); assert BusyAt(Sent(m, f), k);
    case Reject => RejectedBusy(m, k);
    case Claim => assert BusyAt(Claimed(m), k);
    case Consume(_, _) => assert BusyAt(Next(m, x, size), k);
    case Load(_, _, _) => assert BusyAt(Next(m, x, size), k);
    case Start => assert BusyAt(Next(m, x, size), k);
  }

  // One buffer left

  /** Every sending buffer but b is lost, and b is in use. */
  ghost predicate OnlyLeft(m: Mbx, b: nat) {
    && Safe(m) && 0 < b < |m.control| && m.control[b] != Idle
    && forall k | 0 < k < |m.control| && k != b :: m.control[k] == Outclaim
  }

  lemma NotReceiving(m: Mbx, k: nat)
    requires Safe(m) && 0 < k < |m.control|
    ensures m.control[k] != Inclaim
  {
    NumTail(m.control, Inclaim);
    if m.control[k] == Inclaim { NumPositive(m.control[1..], k - 1, Inclaim); }
  }

  lemma NextKeepsContent(m: Mbx, x: Step, size: nat, b: nat)
    requires Shaped(m) && 0 < b < |m.control| && m.control[b] != Idle
    ensures Next(m, x, size).buf[b] == m.buf[b]
  {
    hide Highest, ErrorFrame, Sent, Received;
    match x
    case Process(i) => ProcessedUse(m, i, size, b); hide Processed;
    case Respond(f) => SentLeaves(m, f, b);
    case Reject =>
      SentLeaves(m, ErrorFrame(MBXERR_INVALIDHEADER), b);
      SentLeaves(m, ErrorFrame(MBXERR_UNSUPPORTEDPROTOCOL), b);
    case _ =>
  }

  /** No step but a stop gives a buffer back, and the message left stays what it is. */
  lemma LeftStays(m: Mbx, x: Step, size: nat, b: nat)
    requires OnlyLeft(m, b) && !x.Stop?
    ensures OnlyLeft(Next(m, x, size), b) && Next(m, x, size).buf[b] == m.buf[b]
    ensures FreeBuffer(m) == 0
  {
    hide Next, Num, Highest;
    StepSafe(m, x, size);
    NextKeepsContent(m, x, size, b);
    NotReceiving(m, b);
    var r := Next(m, x, size);
    forall k | 0 < k < |m.control| && m.control[k] == Outclaim ensures r.control[k] == Outclaim {
      ClaimedStays(m, x, size, k);
    }
    if m.control[b] != Outclaim {
      assert BusyAt(m, b);
      BusyStays(m, x, size);
      var k :| BusyAt(r, k);
      assert k == b;
    }
  }

  /** The message left has been fetched, or there is none. */
  ghost predicate Settled(m: Mbx, b: nat) {
    OnlyLeft(m, b) && m.control[b] in {Outclaim, Backup}
  }

  lemma SettledVariables(m: Mbx, b: nat)
    requires Settled(m, b)
    ensures m.outpost == 0 && m.backup == (if m.control[b] == Backup then b else 0)
    ensures Shaped(m) && forall k | 0 < k < |m.control| :: m.control[k] !in {Outreq, Idle}
  {
    if m.control[b] == Backup { NumPositive(m.control, b, Backup); }
  }

  /** From then on nothing is written but the backup, each time the master asks for a repetition. */
  lemma SettledStep(m: Mbx, x: Step, size: nat, b: nat)
    requires Settled(m, b) && !x.Stop?
    ensures var r := Next(m, x, size);
            && Settled(r, b) && r.control[b] == m.control[b] && r.buf[b] == m.buf[b]
            && r.wire == m.wire + (if m.control[b] == Backup && Repeats(m, x) then [m.buf[b]] else [])
  {
    LeftStays(m, x, size, b);
    SettledVariables(m, b);
    hide OnlyLeft;
    SettledWire(m, x, size, b);
  }

  lemma SettledWire(m: Mbx, x: Step, size: nat, b: nat)
    requires Shaped(m) && 0 < b < |m.control| && !x.Stop? && m.control[b] in {Outclaim, Backup}
    requires m.outpost == 0 && m.backup == (if m.control[b] == Backup then b else 0)
    requires forall k | 0 < k < |m.control| :: m.control[k] !in {Outreq, Idle}
    ensures var r := Next(m, x, size);
            && r.control[b] == m.control[b]
            && r.wire == m.wire + (if m.control[b] == Backup && Repeats(m, x) then [m.buf[b]] else [])
  {
    hide Processed, Sent, Highest, ErrorFrame;
    match x
    case Process(i) => SettledProcessed(m, i, size, b);
    case Respond(f) => SentLeaves(m, f, b);
    case Reject =>
      SentLeaves(m, ErrorFrame(MBXERR_INVALIDHEADER), b);
      SentLeaves(m, ErrorFrame(MBXERR_UNSUPPORTEDPROTOCOL), b);
    case _ =>
  }

  lemma SettledProcessed(m: Mbx, i: Input, size: nat, b: nat)
    requires Shaped(m) && 0 < b < |m.control| && m.control[b] in {Outclaim, Backup}
    requires m.outpost == 0 && m.backup == (if m.control[b] == Backup then b else 0)
    requires forall k | 0 < k < |m.control| :: m.control[k] !in {Outreq, Idle}
    ensures var r := Processed(m, i, size);
            && r.control[b] == m.control[b]
            && r.wire == m.wire + (if m.control[b] == Backup && Repeats(m, Process(i)) then [m.buf[b]] else [])
  {
    hide Received;
    var r := Refreshed(m, i);
    assert NextToPost(r) == 0;
    ReceivedLeaves(r, i.message, size, b);
  }

  lemma {:induction false} LeftStaysInRun(m: Mbx, steps: seq<Step>, size: nat, b: nat)
    requires OnlyLeft(m, b) && Stop !in steps
    ensures var r := Run(m, steps, size);
            OnlyLeft(r, b) && r.buf[b] == m.buf[b] && FreeBuffer(r) == 0
    decreases |steps|
  {
    LeftStays(m, Start, size, b);
    hide Next, OnlyLeft;
    if steps != [] {
      LeftStays(m, steps[0], size, b);
      LeftStaysInRun(Next(m, steps[0], size), steps[1..], size, b);
    }
  }

  /** n times the same message. */
  function Copies(f: Frame, n: nat): seq<Frame> { seq(n, _ => f) }

  /** In every run without a stop, nothing is written but the backup. */
  lemma {:induction false} SettledRun(m: Mbx, steps: seq<Step>, size: nat, b: nat) returns (n: nat)
    requires Settled(m, b) && Stop !in steps
    ensures var r := Run(m, steps, size);
            && Settled(r, b) && r.control[b] == m.control[b] && r.buf[b] == m.buf[b] && FreeBuffer(r) == 0
            && r.wire == m.wire + Copies(m.buf[b], n) && (m.control[b] != Backup ==> n == 0)
    decreases |steps|
  {
    LeftStays(m, Start, size, b);
    hide Next, Settled;
    n := 0;
    if steps != [] {
      SettledStep(m, steps[0], size, b);
      var k := SettledRun(Next(m, steps[0], size), steps[1..], size, b);
      n := k + One(m.control[b] == Backup && Repeats(m, steps[0]));
      assert Copies(m.buf[b], 1) == [m.buf[b]];
    }
  }

  // From refusals to silence

  /** From a refusal on: some buffer is in use, or all are lost. */
  ghost predicate Committed(m: Mbx) {
    Busy(m) || forall k | 0 < k < |m.control| :: m.control[k] == Outclaim
  }

  lemma CommittedStays(m: Mbx, x: Step, size: nat)
    requires Safe(m) && Committed(m) && !x.Stop?
    ensures Committed(Next(m, x, size))
  {
    hide Next, Num, Busy;
    if Busy(m) {
      BusyStays(m, x, size);
    } else {
      forall k | 0 < k < |m.control| ensures Next(m, x, size).control[k] == Outclaim {
        ClaimedStays(m, x, size, k);
      }
    }
  }

  lemma {:induction false} CommittedRun(m: Mbx, steps: seq<Step>, size: nat)
    requires Safe(m) && Committed(m) && Stop !in steps
    ensures Committed(Run(m, steps, size))
    decreases |steps|
  {
    assert Shaped(m);
    hide Next, Safe, Committed;
    if steps != [] {
      CommittedStays(m, steps[0], size);
      StepSafe(m, steps[0], size);
      CommittedRun(Next(m, steps[0], size), steps[1..], size);
    }
  }

  /** The abort that refuses a segment takes a second buffer; if there is none, no other refusal can follow. */
  lemma RefusalCommits(d: Dictionary, s: Server, state: nat, dsize: nat)
    requires CanSegment(d, s) && FreeBuffer(s.mbx) > 0 && Safe(s.mbx) && SpreadRefused(d, SegmentStored(s)) != 0
    ensures Committed(SdoDownloadSegment(d, s, state).mbx)
  {
    SegmentOutcome(d, s, state);
    var m, r := s.mbx, SdoDownloadSegment(d, s, state).mbx;
    hide Num, SdoDownloadSegment, SpreadRefused, SegmentStored, CanSegment, FreeBuffer;
    AbortCommits(m, r, FreeBuffer(m));
  }

  lemma AbortCommits(m: Mbx, r: Mbx, n: nat)
    requires Safe(m) && 0 < n == FreeBuffer(m) && LeavesClaimed(m, r, n)
    ensures Committed(r)
  {
    hide Num;
    var k := FreeBuffer(Claimed(m));
    if k > 0 {
      assert BusyAt(r, k);
    } else if !Busy(r) {
      forall j | 0 < j < |r.control| ensures r.control[j] == Outclaim {
        NotReceiving(m, j);
        assert !BusyAt(r, j);
      }
    }
  }

  lemma RoundCommits(d: Dictionary, s: Server, i: Input, state: nat, dsize: nat, text: Frame)
    requires CanRound(d, s, i, dsize) && Safe(s.mbx) && Refuses(d, s, i, dsize)
    ensures Committed(Round(d, s, i, state, dsize, text).mbx)
  {
    hide Processed, HasWork, Safe, Committed, CanHandle, CanSegment, SdoDownloadSegment, Rejected, Round, TakenOn,
      KindOf,
      SegmentStored, SpreadRefused, CanProcess;
    RefusedRound(d, s, i, state, dsize, text);
    ProcessedLoses(s.mbx, i, dsize);
    var s1 := s.(mbx := Processed(s.mbx, i, dsize));
    TakenOnInbox(s1);
    var h := TakenOn(s1);
    RefusalCommits(d, h, state, dsize);
    var t := SdoDownloadSegment(d, h, state);
    SegmentServes(d, h, state, dsize);
    var steps :| Serve(h.mbx, t.mbx, steps, dsize);
    LostStaysInRun(h.mbx, steps, dsize);
    CommittedStays(t.mbx, Reject, dsize);
  }

  lemma DeedCommits(d: Dictionary, s: Server, e: Deed, t: Server, dsize: nat)
    requires Does(d, s, e, t, dsize) && Safe(s.mbx) && e != Other(Stop)
    requires Committed(s.mbx) || (e.Poll? && Refuses(d, s, e.i, dsize))
    ensures Committed(t.mbx)
  {
    var steps := DeedIsRun(d, s, e, t, dsize);
    hide Safe, Committed, Refuses, Run, Round;
    if Committed(s.mbx) {
      CommittedRun(s.mbx, steps, dsize);
    } else {
      RoundCommits(d, s, e.i, e.state, dsize, e.text);
    }
  }

  lemma {:induction false} RefusalsCommit(d: Dictionary, ss: seq<Server>, es: seq<Deed>, dsize: nat, k: nat)
    requires IsServerRun(d, ss, es, dsize) && k <= |es| && NoStop(es, 0, k) && Safe(ss[0].mbx)
    requires Refusals(d, ss, es, dsize, k) > 0
    ensures Committed(ss[k].mbx)
  {
    hide Does, Safe, Committed, Refuses;
    ServerRunSafe(d, ss, es, dsize, 0, k - 1);
    assert Does(d, ss[k - 1], es[k - 1], ss[k], dsize);
    if Refusals(d, ss, es, dsize, k - 1) > 0 { RefusalsCommit(d, ss, es, dsize, k - 1); }
    DeedCommits(d, ss[k - 1], es[k - 1], ss[k], dsize);
  }

  lemma AllButOne(c: seq<BufferState>, b: nat, s: BufferState)
    requires b < |c| && c[b] != s && Num(c, s) >= |c| - 1
    ensures forall k | 0 <= k < |c| && k != b :: c[k] == s
  {
    NumUpdate(c, b, s, s);
    NumFull(c[b := s], s);
    forall k | 0 <= k < |c| && k != b ensures c[k] == s { assert c[b := s][k] == s; }
  }

  /** All sending buffers but one are lost, and that one is in use; or all are. */
  lemma LeftOver(m: Mbx) returns (b: nat)
    requires Safe(m) && Committed(m) && Lost(m) >= |m.control| - 2 >= 0
    ensures OnlyLeft(m, b)
  {
    if Busy(m) {
      b :| BusyAt(m, b);
      NumTail(m.control, Outclaim);
      AllButOne(m.control[1..], b - 1, Outclaim);
      forall k | 0 < k < |m.control| && k != b ensures m.control[k] == Outclaim {
        assert m.control[1..][k - 1] == Outclaim;
      }
    } else {
      b := 1;
    }
  }

  /** As many refusals as silence a slave with n buffers, one of which receives. */
  function Enough(n: nat): nat { if n > 3 then n - 2 else 1 }

  lemma SilentAfter(d: Dictionary, ss: seq<Server>, es: seq<Deed>, dsize: nat, k: nat) returns (b: nat)
    requires IsServerRun(d, ss, es, dsize) && k <= |es| && NoStop(es, 0, k) && Safe(ss[0].mbx)
             && |ss[0].mbx.control| > 1
    requires Refusals(d, ss, es, dsize, k) >= Enough(|ss[0].mbx.control|)
    ensures OnlyLeft(ss[k].mbx, b)
  {
    hide Does, Safe, Lost, Refusals, Committed, OnlyLeft;
    ServerRunSafe(d, ss, es, dsize, 0, k);
    RefusalsAreLost(d, ss, es, dsize, k);
    RefusalsCommit(d, ss, es, dsize, k);
    b := LeftOver(ss[k].mbx);
  }

  /** With one buffer left no segment is refused, since none is answered. */
  lemma NoneRefused(d: Dictionary, s: Server, i: Input, dsize: nat, b: nat)
    requires OnlyLeft(s.mbx, b)
    ensures !Refuses(d, s, i, dsize)
  {
    hide HasWork, CanSegment, KindOf, SpreadRefused, SegmentStored;
    LeftStays(s.mbx, Process(i), dsize, b);
    var s1 := s.(mbx := Processed(s.mbx, i, dsize));
    LeftStays(s1.mbx, Start, dsize, b);
    if TakenOn(s1).mbx.xoe == MBXCOE {
      TakenOnInbox(s1);
    }
    hide Processed, OnlyLeft;
  }

  /** In no run without a stop are there more refusals than that. */
  lemma {:induction false} NeverMore(d: Dictionary, ss: seq<Server>, es: seq<Deed>, dsize: nat, k: nat)
    requires IsServerRun(d, ss, es, dsize) && k <= |es| && NoStop(es, 0, k) && Safe(ss[0].mbx)
             && |ss[0].mbx.control| > 1
    ensures Refusals(d, ss, es, dsize, k) <= Enough(|ss[0].mbx.control|)
  {
    hide Does, Safe, Refuses, OnlyLeft;
    if k > 0 {
      NeverMore(d, ss, es, dsize, k - 1);
      assert Does(d, ss[k - 1], es[k - 1], ss[k], dsize);
      if Refusals(d, ss, es, dsize, k - 1) == Enough(|ss[0].mbx.control|) && es[k - 1].Poll? {
        var b := SilentAfter(d, ss, es, dsize, k - 1);
        NoneRefused(d, ss[k - 1], es[k - 1].i, dsize, b);
      }
    }
  }

  /**
   So many refused segments silence the slave: from then on, in every run
   without a stop of the mailboxes, no buffer is ever free for an answer, and the
   one buffer left, if any, keeps its message. Once the master has fetched that
   message, it is all that is ever written, each time a repetition is asked for.
   */
  lemma RefusalsSilence(d: Dictionary, ss: seq<Server>, es: seq<Deed>, dsize: nat, j: nat, k: nat) returns (b: nat,
                        n: nat)
    requires IsServerRun(d, ss, es, dsize) && j <= k <= |es| && NoStop(es, 0, k)
    requires Safe(ss[0].mbx) && |ss[0].mbx.control| > 1
    requires Refusals(d, ss, es, dsize, j) >= Enough(|ss[0].mbx.control|)
    ensures OnlyLeft(ss[j].mbx, b) && OnlyLeft(ss[k].mbx, b)
    ensures FreeBuffer(ss[k].mbx) == 0 && ss[k].mbx.buf[b] == ss[j].mbx.buf[b]
    ensures Settled(ss[j].mbx, b) ==>
              && Settled(ss[k].mbx, b) && ss[k].mbx.wire == ss[j].mbx.wire + Copies(ss[j].mbx.buf[b], n)
              && (ss[j].mbx.control[b] == Outclaim ==> n == 0)
  {
    hide Does, Safe, Refusals, Run;
    n := 0;
    b := SilentAfter(d, ss, es, dsize, j);
    assert Shaped(ss[j].mbx) by { SafeShaped(ss[j].mbx); }
    var steps := ServerRunIsRun(d, ss, es, dsize, j, k);
    LeftStaysInRun(ss[j].mbx, steps, dsize, b);
    if Settled(ss[j].mbx, b) { n := SettledRun(ss[j].mbx, steps, dsize, b); }
  }

  // Only then

  /** The master fetches what is posted; with nothing posted, the next message is posted. */
  const FETCH: Step := Process(Input(false, true, false, false, true, ErrorFrame(0)))
  const POST: Step := Process(Input(true, false, false, false, true, ErrorFrame(0)))

  ghost predicate Going(m: Mbx) {
    Conserving(m) && m.run && m.repeat == m.toggle
  }

  lemma FetchStep(m: Mbx, size: nat)
    requires Going(m) && m.outpost != 0
    ensures var r := Next(m, FETCH, size);
            && Going(r) && r.outpost == 0 && r.backup == m.outpost && r.control[m.outpost] == Backup
            && (m.backup != 0 ==> r.control[m.backup] == Idle)
            && forall k | 0 < k < |m.control| && k != m.backup && k != m.outpost :: r.control[k] == m.control[k]
  {
    StepSafe(m, FETCH, size);
    ProcessedIs(m, FETCH.i, size);
    hide Num, Conserving, Written, Processed;
  }

  lemma PostStep(m: Mbx, size: nat, k: nat)
    requires Going(m) && m.outpost == 0 && 0 < k < |m.control| && m.control[k] == Outreq
    ensures var r := Next(m, POST, size);
            && Going(r) && r.outpost != 0 && r.backup == m.backup
            && forall k | BusyAt(m, k) :: BusyAt(r, k)
  {
    StepSafe(m, POST, size);
    NumPositive(m.control, k, Outreq);
    var r := Refreshed(m, POST.i);
    assert NextToPost(r) > 0;
    var p := Posted(r, true);
    assert p.outpost != 0 && p.backup == m.backup && p.run && p.repeat == p.toggle;
    assert forall k | BusyAt(m, k) :: BusyAt(p, k);
    hide Num, Conserving, Highest, Posted, Received;
    assert Next(m, POST, size) == p;
  }

  /** With nothing posted, one of two buffers in use is queued. */
  lemma OneIsQueued(m: Mbx, a: nat, b: nat)
    requires Conserving(m) && m.outpost == 0 && BusyAt(m, a) && BusyAt(m, b) && a != b
    ensures m.control[a] == Outreq || m.control[b] == Outreq
  {
    NumPositive(m.control, a, m.control[a]);
    NumPositive(m.control, b, m.control[b]);
    if m.control[a] == Backup && m.control[b] == Backup { NumOne(m.control, a, b, Backup); }
  }

  /** With two buffers in use, fetching what is posted frees one of them. */
  lemma FetchingFrees(m: Mbx, size: nat, a: nat, b: nat) returns (steps: seq<Step>)
    requires Going(m) && BusyAt(m, a) && BusyAt(m, b) && a != b
    ensures Stop !in steps && FreeBuffer(Run(m, steps, size)) > 0
    decreases One(m.backup == 0), One(m.outpost == 0)
  {
    InDifferentStates(m);
    hide Num, Next, Safe;
    if m.outpost != 0 {
      FetchStep(m, size);
      var r := Next(m, FETCH, size);
      if m.backup != 0 {
        steps := [FETCH];
        assert Run(r, [], size) == r;
      } else {
        var rest := FetchingFrees(r, size, a, b);
        steps := [FETCH] + rest;
      }
    } else {
      OneIsQueued(m, a, b);
      PostStep(m, size, if m.control[a] == Outreq then a else b);
      var rest := FetchingFrees(Next(m, POST, size), size, a, b);
      steps := [POST] + rest;
    }
  }

  lemma InDifferentStates(m: Mbx)
    requires Conserving(m)
    ensures Shaped(m) && (m.backup != 0 && m.outpost != 0 ==> m.backup != m.outpost)
  {
  }

  /**
   A running slave whose buffers are in order stays without a free buffer
   whatever its master does, a stop excepted, exactly if one sending buffer is
   left over at most.
   */
  lemma SilentExactly(m: Mbx, size: nat)
    requires Conserving(m) && m.run && |m.control| > 1
    ensures (exists b :: OnlyLeft(m, b)) <==> forall steps | Stop !in steps :: FreeBuffer(Run(m, steps, size)) == 0
  {
    if b :| OnlyLeft(m, b) {
      forall steps | Stop !in steps ensures FreeBuffer(Run(m, steps, size)) == 0 {
        LeftStaysInRun(m, steps, size, b);
      }
    } else {
      var steps := FreedOtherwise(m, size);
    }
  }

  lemma FreedOtherwise(m: Mbx, size: nat) returns (steps: seq<Step>)
    requires Conserving(m) && m.run && |m.control| > 1 && !exists b :: OnlyLeft(m, b)
    ensures Stop !in steps && FreeBuffer(Run(m, steps, size)) > 0
  {
    if FreeBuffer(m) > 0 {
      steps := [];
    } else {
      var a, b := TwoInUse(m);
      var load := Load(m.full0, true, m.toggle);
      StepSafe(m, load, size);
      var r := Next(m, load, size);
      assert BusyAt(r, a) && BusyAt(r, b);
      hide Conserving, BusyAt, Num;
      var rest := FetchingFrees(r, size, a, b);
      steps := [load] + rest;
    }
  }

  lemma TwoInUse(m: Mbx) returns (a: nat, b: nat)
    requires Safe(m) && |m.control| > 1 && FreeBuffer(m) == 0 && !exists b :: OnlyLeft(m, b)
    ensures BusyAt(m, a) && BusyAt(m, b) && a != b
  {
    hide Num;
    forall k | 0 < k < |m.control| ensures m.control[k] != Outclaim ==> BusyAt(m, k) {
      NotReceiving(m, k);
    }
    assert !OnlyLeft(m, 1);
    a :| BusyAt(m, a);
    assert !OnlyLeft(m, a);
    b :| BusyAt(m, b) && b != a;
  }
}
