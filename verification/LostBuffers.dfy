/**
 Buffers that are never given back: the last segment of a complete download
 that is refused leaves the buffer claimed for its answer claimed until the
 mailboxes stop.
 */
module LostBuffers {
  import opened ObjectDictionary
  import opened Mailbox
  import opened MailboxRuns
  import opened SdoTransfer
  import opened CompleteAccess
  import opened CoeHandlers
  import opened CoeAnswers
  import opened CoeMailbox
  import opened CoeRounds

  // When a segment is refused

  /** A complete download of more bytes than one message holds is being collected. */
  predicate Collecting(s: Server, total: nat, collected: nat) {
    && s.sess.flags == COMPLETE_ACCESS_FLAG && s.sess.frags == total && s.sess.fragsleft == collected
    && s.sess.data == Scratch(collected)
  }

  /** An accepted complete download that needs segments starts to collect. */
  lemma CollectingStarts(d: Dictionary, s: Server, state: nat, dsize: nat)
    requires CanDownloadComplete(d, s, dsize) && Collects(s.mbx.buf[0], dsize)
    requires var r := s.mbx.buf[0];
             && CompleteRefused(d, IndexOf(r), SubindexOf(r)) == 0
             && var f := Lookup(d, IndexOf(r), SubindexOf(r));
                DownloadSize(r) <= ObjectBytes(d[f.o], f.n) <= 0xFFFF && !BlockTooBig(DownloadSize(r), s)
    ensures var r := s.mbx.buf[0];
            var t := SdoDownloadComplete(d, s, state, dsize);
            && Collecting(t, DownloadSize(r), dsize - COE_HEADERSIZE)
            && t.sess.index == IndexOf(r) && t.sess.subindex == SubindexOf(r)
  {
    hide Highest, Sent, Lookup, Serviceable, ObjectBytes, DownloadSize;
  }

  /** A segment is refused exactly if it is flagged last but bytes are missing. */
  lemma RefusedExactly(d: Dictionary, s: Server, total: nat, collected: nat)
    requires CanSegment(d, s) && Collecting(s, total, collected) && Lookup(d, s.sess.index, s.sess.subindex).Found?
    ensures var r := s.mbx.buf[0];
            SpreadRefused(d, SegmentStored(s)) != 0 <==> LastSegment(Command(r)) && collected + SegmentSize(r) < total
  {
    hide Lookup, SegmentData, SegmentSize;
  }

  /** A segment that will be refused, with a buffer for its answer. */
  ghost predicate WillRefuse(d: Dictionary, h: Server) {
    && Shaped(h.mbx) && h.mbx.xoe == MBXCOE && FreeBuffer(h.mbx) > 0
    && IsRequest(h.mbx.buf[0]) && KindOf(h.mbx.buf[0], h.sess.segmented).DownloadSeg?
    && CanSegment(d, h) && SpreadRefused(d, SegmentStored(h)) != 0
  }

  /** A segment without data that claims to be the last one. */
  function EmptyLastSegment(dsize: nat): Frame
    requires dsize >= 11
  {
    Frame(COE_HEADERSIZE, MBXCOE, 0, [0, COE_SDOREQUEST * 0x10, 0x0F] + Zeros(dsize - 3))
  }

  /** Sent right after the start of any download that is collected, it is refused. */
  lemma EmptySegmentRefused(d: Dictionary, s: Server, state: nat, dsize: nat, m: Mbx)
    requires CanDownloadComplete(d, s, dsize) && Collects(s.mbx.buf[0], dsize)
    requires var r := s.mbx.buf[0];
             && CompleteRefused(d, IndexOf(r), SubindexOf(r)) == 0
             && var f := Lookup(d, IndexOf(r), SubindexOf(r));
                DownloadSize(r) <= ObjectBytes(d[f.o], f.n) <= 0xFFFF && !BlockTooBig(DownloadSize(r), s)
    requires Shaped(m) && m.xoe == MBXCOE && FreeBuffer(m) > 0 && m.buf[0] == EmptyLastSegment(dsize)
    ensures WillRefuse(d, SdoDownloadComplete(d, s, state, dsize).(mbx := m))
  {
    hide Highest, Sent, Lookup, ObjectBytes, DownloadSize, CanLoad, LoopResult, FreeBuffer, WellFormed, Loadable;
    CollectingStarts(d, s, state, dsize);
    var t := SdoDownloadComplete(d, s, state, dsize);
    var h := t.(mbx := m);
    assert |t.block| == |s.block|;
    assert SegmentSize(m.buf[0]) == 0 && LastSegment(Command(m.buf[0]));
    assert CanTake(h) && WellFormed(d);
    assert KindOf(m.buf[0], h.sess.segmented).DownloadSeg?;
    assert SpreadRefused(d, SegmentStored(h)) == ABORT_TYPEMISMATCH;
    assert CanSegment(d, h);
  }

  // Such a download exists

  const TABLE: Dictionary := [
    Object(0x2000, OTYPE_ARRAY, 1, [Entry(0, 0x0005, 8, 0x07, 1, None), Entry(1, 0x0260, 256, 0x3F, 0, Some(0))]),
    Object(LIST_END, 0, 0, [])
  ]

  /** A complete download of the object's 34 bytes, for mailboxes of 32. */
  const START: Frame := Frame(32, MBXCOE, 1, [0, COE_SDOREQUEST * 0x10, 0x31, 0x00, 0x20, 0x00, 34, 0, 0, 0] + Zeros(22))

  lemma TableObject(st: Store)
    requires |st| == 1 && |st[0]| == 32
    ensures Serviceable(TABLE, st) && Lookup(TABLE, 0x2000, 0) == Found(0, 0)
    ensures !IsDynamic(TABLE[0]) && ObjectBytes(TABLE[0], 0) == 34
  {
    var o := TABLE[0];
    assert WellFormedObject(o) && Loadable(o, st);
    assert Extent(o, 2, 272, 0) == 272;
    assert Extent(o, 1, 16, 0) == 272;
    assert Extent(o, 0, 0, 0) == 272;
  }

  lemma StartFields()
    ensures IsRequest(START) && IndexOf(START) == 0x2000 && SubindexOf(START) == 0 && DownloadSize(START) == 34
    ensures START.length == 32 && START.cnt == 1 && START.mtype == MBXCOE && |START.body| == 32 && |TABLE| == 2
    ensures Collects(START, 32) && forall x :: KindOf(START, x).DownloadAll?
  {
  }

  /** It is accepted and collected, so that the segment above is refused. */
  lemma RefusalReachable(s: Server, state: nat, m: Mbx)
    requires Shaped(s.mbx) && s.mbx.buf[0] == START && |s.st| == 1 && |s.st[0]| == 32 && |s.block| >= 64
    requires Shaped(m) && m.xoe == MBXCOE && FreeBuffer(m) > 0 && m.buf[0] == EmptyLastSegment(32)
    ensures KindOf(START, s.sess.segmented).DownloadAll? && CanDownloadComplete(TABLE, s, 32)
    ensures WillRefuse(TABLE, SdoDownloadComplete(TABLE, s, state, 32).(mbx := m))
  {
    hide Lookup, Serviceable, ObjectBytes, IsDynamic, Highest, WillRefuse, START, EmptyLastSegment, DownloadSize, Loadable, CanLoad;
    TableObject(s.st);
    StartFields();
    EmptySegmentRefused(TABLE, s, state, 32, m);
  }

  // Claimed buffers stay claimed

  lemma ClaimedStays(m: Mbx, x: Step, size: nat, n: nat)
    requires Safe(m) && 0 < n < |m.control| && m.control[n] == Outclaim && !x.Stop?
    ensures Next(m, x, size).control[n] == Outclaim
  {
    assert Shaped(m);
    hide Num, Written, ErrorFrame, NextCnt;
    if x.Process? && m.run {
      ProcessedLeaves(m, x.i, size, n);
    }
    hide Processed;
  }

  /** A sending buffer in use, and what is written, as they were. */
  predicate SameBuffer(m: Mbx, r: Mbx, n: nat)
    requires Shaped(m) && n < |m.control|
  {
    LikeShaped(r, m) && r.control[n] == m.control[n] && r.buf[n] == m.buf[n] && r.wire == m.wire
  }

  lemma SentLeaves(m: Mbx, f: Frame, n: nat)
    requires Shaped(m) && 0 < n < |m.control| && m.control[n] != Idle
    ensures SameBuffer(m, Sent(m, f), n)
  {
    hide NextCnt, Highest;
  }

  lemma HeaderLeaves(m: Mbx, size: nat, n: nat)
    requires Shaped(m) && 0 < n < |m.control| && m.control[n] != Idle
    ensures SameBuffer(m, HeaderChecked(m, size), n)
  {
    hide ErrorFrame, Sent;
    SentLeaves(m, ErrorFrame(MBXERR_INVALIDHEADER), n);
  }

  lemma ReceivedLeaves(m: Mbx, f: Frame, size: nat, n: nat)
    requires Shaped(m) && 0 < n < |m.control| && m.control[n] != Idle
    ensures SameBuffer(m, Received(m, f, size), n)
  {
    hide HeaderChecked;
    HeaderLeaves(Filled(m, f, size).(full0 := false), size, n);
  }

  lemma PostedLeaves(m: Mbx, fullAfterPost: bool, n: nat)
    requires Shaped(m) && 0 < n < |m.control| && m.control[n] == Outclaim
    ensures Posted(m, fullAfterPost).control[n] == Outclaim
  {
    hide Highest;
  }

  lemma SendingLeaves(m: Mbx, fullAfterPost: bool, n: nat)
    requires Shaped(m) && 0 < n < |m.control| && m.control[n] == Outclaim && n != m.backup && n != m.outpost
    ensures m.outpost != 0 ==> Acknowledged(m).control[n] == Outclaim
    ensures Repeated(m).control[n] == Outclaim && Posted(m, fullAfterPost).control[n] == Outclaim
  {
    hide Posted;
    PostedLeaves(m, fullAfterPost, n);
  }

  lemma ProcessedLeaves(m: Mbx, i: Input, size: nat, n: nat)
    requires Safe(m) && 0 < n < |m.control| && m.control[n] == Outclaim
    ensures Processed(m, i, size).control[n] == Outclaim
  {
    assert n != m.backup && n != m.outpost;
    hide Num, Safe, Acknowledged, Repeated, Posted, Received;
    var r := Refreshed(m, i);
    SendingLeaves(r, i.fullAfterPost, n);
    ReceivedLeaves(Posted(r, i.fullAfterPost), i.message, size, n);
  }

  /** The number of buffers lost so far. */
  function Lost(m: Mbx): nat { Num(m.control, Outclaim) }

  lemma {:induction false} NumGrows(a: seq<BufferState>, b: seq<BufferState>, s: BufferState)
    requires |a| == |b| && forall k | 0 <= k < |a| && a[k] == s :: b[k] == s
    ensures Num(a, s) <= Num(b, s)
  {
    if a != [] { NumGrows(a[..|a| - 1], b[..|b| - 1], s); }
  }

  lemma LostStays(m: Mbx, x: Step, size: nat)
    requires Safe(m) && !x.Stop?
    ensures Lost(m) <= Lost(Next(m, x, size))
  {
    var r := Next(m, x, size);
    forall k | 0 <= k < |m.control| && m.control[k] == Outclaim ensures r.control[k] == Outclaim {
      ClaimedStays(m, x, size, k);
    }
    NumGrows(m.control, r.control, Outclaim);
  }

  lemma {:induction false} LostStaysInRun(m: Mbx, steps: seq<Step>, size: nat)
    requires Safe(m) && Stop !in steps
    ensures Safe(Run(m, steps, size)) && Lost(m) <= Lost(Run(m, steps, size))
    decreases |steps|
  {
    assert Shaped(m);
    hide Next, Safe, Lost;
    if steps != [] {
      StepSafe(m, steps[0], size);
      LostStays(m, steps[0], size);
      LostStaysInRun(Next(m, steps[0], size), steps[1..], size);
    }
  }

  /** One refusal loses one buffer. */
  lemma RefusalLoses(d: Dictionary, s: Server, state: nat, dsize: nat)
    requires CanSegment(d, s) && FreeBuffer(s.mbx) > 0 && Safe(s.mbx) && SpreadRefused(d, SegmentStored(s)) != 0
    ensures Lost(SdoDownloadSegment(d, s, state).mbx) == Lost(s.mbx) + 1
  {
    SegmentOutcome(d, s, state);
    var m, r := s.mbx, SdoDownloadSegment(d, s, state).mbx;
    hide Num, SdoDownloadSegment, SpreadRefused, SegmentStored, CanSegment, Safe, Claimed, FreeBuffer;
    var n, k := FreeBuffer(m), FreeBuffer(Claimed(m));
    LostOne(m.control, r.control, n, k);
  }

  lemma LostOne(a: seq<BufferState>, b: seq<BufferState>, n: nat, k: nat)
    requires 0 < n < |a| && k < |a| && k != n && a[n] == Idle && a[0] in {Idle, Inclaim} && (k > 0 ==> a[k] == Idle)
    requires b == (if k == 0 then a[n := Outclaim] else a[n := Outclaim][k := Outreq])[0 := Idle]
    ensures Num(b, Outclaim) == Num(a, Outclaim) + 1
  {
    hide Num;
    Update(a, n, Outclaim);
    var c := if k == 0 then a[n := Outclaim] else a[n := Outclaim][k := Outreq];
    if k > 0 { Update(a[n := Outclaim], k, Outreq); }
    Update(c, 0, Idle);
  }

  // All of them

  lemma {:induction false} NumFull(c: seq<BufferState>, s: BufferState)
    ensures Num(c, s) <= |c|
    ensures Num(c, s) == |c| ==> forall k | 0 <= k < |c| :: c[k] == s
  {
    if c != [] { NumFull(c[..|c| - 1], s); }
  }

  lemma LostBound(m: Mbx)
    requires Safe(m)
    ensures Lost(m) <= |m.control| - 1
  {
    NumTail(m.control, Outclaim);
    NumFull(m.control[1..], Outclaim);
  }

  // Runs of the server

  /** The round takes such a segment. */
  ghost predicate Refuses(d: Dictionary, s: Server, i: Input, dsize: nat)
    requires Shaped(s.mbx)
  {
    s.mbx.run && HasWork(s.mbx, i) && WillRefuse(d, TakenOn(s.(mbx := Processed(s.mbx, i, dsize))))
  }

  lemma ProcessedLoses(m: Mbx, i: Input, size: nat)
    requires Safe(m)
    ensures Safe(Processed(m, i, size)) && Lost(m) <= Lost(Processed(m, i, size))
  {
    LostStays(m, Process(i), size);
    ProcessedSafe(m, i, size);
    hide Processed, Safe, Lost;
  }

  lemma TakenOnInbox(s: Server)
    requires Shaped(s.mbx) && Safe(s.mbx) && TakenOn(s).mbx.xoe == MBXCOE
    ensures TakenOn(s).mbx == s.mbx.(xoe := MBXCOE) && Safe(TakenOn(s).mbx) && Lost(TakenOn(s).mbx) == Lost(s.mbx)
  {
    SentKeepsTransfer(s.mbx, ErrorFrame(MBXERR_INVALIDSIZE));
    hide Num, Sent;
  }

  lemma RefusedRound(d: Dictionary, s: Server, i: Input, state: nat, dsize: nat, text: Frame)
    requires CanRound(d, s, i, dsize) && Refuses(d, s, i, dsize)
    ensures var h := TakenOn(s.(mbx := Processed(s.mbx, i, dsize)));
            && CanSegment(d, h)
            && Round(d, s, i, state, dsize, text).mbx == Rejected(SdoDownloadSegment(d, h, state).mbx)
  {
    hide Processed, HasWork, Rejected, TakenOn, SdoDownloadSegment, CanSegment, KindOf, SegmentStored, SpreadRefused;
    ProcessedRuns(s.mbx, i, dsize);
    assert !ContinuesList(TakenOn(s.(mbx := Processed(s.mbx, i, dsize))));
  }

  lemma ProcessedRuns(m: Mbx, i: Input, size: nat)
    requires Shaped(m)
    ensures Processed(m, i, size).run == m.run
  {
    hide Highest, Received;
    ReceivedKeepsXoe(Posted(Refreshed(m, i), i.fullAfterPost), i.message, size);
  }

  lemma RoundLoses(d: Dictionary, s: Server, i: Input, state: nat, dsize: nat, text: Frame)
    requires CanRound(d, s, i, dsize) && Safe(s.mbx) && Refuses(d, s, i, dsize)
    ensures Lost(Round(d, s, i, state, dsize, text).mbx) >= Lost(s.mbx) + 1
  {
    hide Processed, HasWork, Safe, Lost, CanHandle, CanSegment, SdoDownloadSegment, Rejected, Round, TakenOn, KindOf,
      SegmentStored, SpreadRefused, CanProcess;
    RefusedRound(d, s, i, state, dsize, text);
    ProcessedLoses(s.mbx, i, dsize);
    var s1 := s.(mbx := Processed(s.mbx, i, dsize));
    TakenOnInbox(s1);
    var h := TakenOn(s1);
    RefusalLoses(d, h, state, dsize);
    var t := SdoDownloadSegment(d, h, state);
    SegmentServes(d, h, state, dsize);
    var steps :| Serve(h.mbx, t.mbx, steps, dsize);
    LostStaysInRun(h.mbx, steps, dsize);
    RejectLoses(t.mbx);
  }

  lemma RejectLoses(m: Mbx)
    requires Safe(m)
    ensures Lost(m) <= Lost(Rejected(m))
  {
    LostStays(m, Reject, 0);
  }

  /** Refused segments in the first k deeds of a run. */
  ghost function Refusals(d: Dictionary, ss: seq<Server>, es: seq<Deed>, dsize: nat, k: nat): nat
    requires IsServerRun(d, ss, es, dsize) && k <= |es|
  {
    if k == 0 then 0
    else
      assert Does(d, ss[k - 1], es[k - 1], ss[k], dsize);
      Refusals(d, ss, es, dsize, k - 1) + One(es[k - 1].Poll? && Refuses(d, ss[k - 1], es[k - 1].i, dsize))
  }

  /** Each of them has cost a buffer. */
  lemma {:induction false} RefusalsAreLost(d: Dictionary, ss: seq<Server>, es: seq<Deed>, dsize: nat, k: nat)
    requires IsServerRun(d, ss, es, dsize) && k <= |es| && NoStop(es, 0, k) && Safe(ss[0].mbx)
    ensures Safe(ss[k].mbx) && Refusals(d, ss, es, dsize, k) <= Lost(ss[k].mbx)
    ensures Lost(ss[k].mbx) <= |ss[k].mbx.control| - 1
  {
    hide Does, Safe, Lost, Refuses;
    ServerRunSafe(d, ss, es, dsize, 0, k);
    LostBound(ss[k].mbx);
    if k > 0 {
      RefusalsAreLost(d, ss, es, dsize, k - 1);
      var s, e := ss[k - 1], es[k - 1];
      assert Does(d, s, e, ss[k], dsize);
      DeedLoses(d, s, e, ss[k], dsize);
    }
  }

  lemma DeedLoses(d: Dictionary, s: Server, e: Deed, t: Server, dsize: nat)
    requires Does(d, s, e, t, dsize) && Safe(s.mbx) && e != Other(Stop)
    ensures Lost(t.mbx) >= Lost(s.mbx) + One(e.Poll? && Refuses(d, s, e.i, dsize))
  {
    var steps := DeedIsRun(d, s, e, t, dsize);
    hide Safe, Lost, Refuses, Run, Round;
    LostStaysInRun(s.mbx, steps, dsize);
    if e.Poll? && Refuses(d, s, e.i, dsize) { RoundLoses(d, s, e.i, e.state, dsize, e.text); }
  }
}
