/**
 A run that silences a slave with three mailbox buffers: the start of a
 complete download, its response fetched, and one empty last segment.
 */
module SilencingRun {
  import opened ObjectDictionary
  import opened Mailbox
  import opened MailboxRuns
  import opened SdoTransfer
  import opened CompleteAccess
  import opened CoeHandlers
  import opened CoeAnswers
  import opened CoeRounds
  import opened LostBuffers
  import opened Silence

  /** Register contents of a poll that finds a message, one that finds nothing, and one after a fetch. */
  function Arrives(f: Frame): Input { Input(true, false, true, false, true, f) }
  const QUIET: Input := Input(false, false, false, false, true, START)
  const FETCHED: Input := Input(false, true, false, false, true, START)

  /** Between the deeds of the run: buffer 0 is idle, and a message may be received or posted. */
  predicate Between(m: Mbx, one: BufferState, two: BufferState) {
    && Shaped(m) && m.control == [Idle, one, two] && m.run && m.repeat == m.toggle && m.xoe == 0
    && m.outpost == (if two == Outpost then 2 else 0) && m.backup == (if two == Backup then 2 else 0)
    && m.txcue == (if two == Outreq then 1 else 0) && (m.outpost == 0 ==> m.free) && |m.buf[0].body| == 32
  }

  /** The message is in the inbox, and has been taken on. */
  predicate Taken(m: Mbx, two: BufferState, f: Frame) {
    && Shaped(m) && m.control == [Inclaim, Idle, two] && m.run && m.repeat == m.toggle && m.xoe == MBXCOE
    && m.outpost == 0 && m.backup == (if two == Backup then 2 else 0) && m.txcue == 0 && m.free && m.buf[0] == f
  }

  lemma Starts(m: Mbx)
    requires Shaped(m) && |m.control| == 3 && |m.buf[0].body| == 32
    ensures Between(Started(Stopped(m)), Idle, Idle) && Started(Stopped(m)).incnt == 0
  {
  }

  /** A message behind which the inbox holds zeroes only is received as it is. */
  lemma ReadsWhole(before: Frame, f: Frame)
    requires |f.body| == |before.body| == 32 && 0 < f.length <= 32 && before.body[f.length..] == f.body[f.length..]
    ensures ReadOver(before, f, 32) == f
  {
  }

  lemma Receipt(m: Mbx, two: BufferState, f: Frame)
    requires Between(m, Idle, two) && two in {Idle, Backup} && |f.body| == 32 && 0 < f.length <= 32
    requires m.buf[0].body[f.length..] == f.body[f.length..] && (f.cnt == 0 || f.cnt != m.incnt)
    requires f.mtype == MBXCOE && f.length >= COE_MINIMUM_LENGTH
    ensures HasWork(m, Arrives(f))
    ensures var p := Processed(m, Arrives(f), 32);
            p.xoe == 0 && p.control[0] == Inclaim && p.buf[0] == f && Taken(p.(xoe := MBXCOE), two, f)
  {
    ReadsWhole(m.buf[0], f);
    hide Sent, ErrorFrame, ReadOver;
    var r := Refreshed(m, Arrives(f));
    assert NextToPost(r) == 0;
  }

  lemma Answering(m: Mbx, f: Frame)
    requires Taken(m, Idle, START)
    ensures FreeBuffer(m) == 2
    ensures Between(InboxDropped(Sent(m, f)).(xoe := 0), Idle, Outreq)
             && InboxDropped(Sent(m, f)).(xoe := 0).buf[0] == START
  {
    assert FreeBuffer(m) == 2;
    hide NextCnt;
  }

  /** The response to the start of the download is queued in buffer 2. */
  lemma StartAnswered(s: Server, state: nat)
    requires Taken(s.mbx, Idle, START) && |s.st| == 1 && |s.st[0]| == 32 && |s.block| >= 64
    ensures CanDownloadComplete(TABLE, s, 32)
    ensures var t := SdoDownloadComplete(TABLE, s, state, 32);
            Between(t.mbx, Idle, Outreq) && t.mbx.buf[0] == START && t.st == s.st
  {
    hide Lookup, Serviceable, ObjectBytes, IsDynamic, Highest, Sent, DownloadSize, TABLE, START, Between,
      CollectStarted;
    StartFields();
    TableObject(s.st);
    Answering(s.mbx, DownloadResponse(0x2000, 0, COE_COMMAND_DOWNLOADRESPONSE + COE_COMPLETEACCESS));
    RefusalReachable(s, state, s.mbx.(buf := s.mbx.buf[0 := EmptyLastSegment(32)]));
  }

  /** What the CoE server works on after a message was received in this round. */
  function Received(s: Server, f: Frame): (r: Server)
    requires Shaped(s.mbx)
    ensures Shaped(r.mbx)
  {
    s.(mbx := Processed(s.mbx, Arrives(f), 32).(xoe := MBXCOE))
  }

  lemma FirstPoll(s: Server, state: nat, text: Frame)
    requires Between(s.mbx, Idle, Idle) && s.mbx.incnt == 0 && |s.st| == 1 && |s.st[0]| == 32 && |s.block| >= 64
    ensures CanRound(TABLE, s, Arrives(START), 32) && CanDownloadComplete(TABLE, Received(s, START), 32)
    ensures var t := Round(TABLE, s, Arrives(START), state, 32, text);
            && t == SdoDownloadComplete(TABLE, Received(s, START), state, 32)
            && Between(t.mbx, Idle, Outreq) && t.mbx.buf[0] == START && t.st == s.st
  {
    hide TABLE, KindOf, Processed, HasWork, SdoDownloadComplete, Serviceable, CanDownloadObject, Lookup, START,
      IsRequest,
      CompleteRefused;
    StartFields();
    Receipt(s.mbx, Idle, START);
    StartAnswered(Received(s, START), state);
  }

  lemma SegmentFields()
    ensures var f := EmptyLastSegment(32);
            && f.length == COE_HEADERSIZE && f.cnt == 0 && f.mtype == MBXCOE && |f.body| == 32 && |START.body| == 32
            && START.body[f.length..] == f.body[f.length..]
  {
    assert START.body[10..] == Zeros(22) == EmptyLastSegment(32).body[10..];
  }

  lemma Posting(m: Mbx)
    requires Between(m, Idle, Outreq)
    ensures Between(Processed(m, QUIET, 32), Idle, Outpost) && !HasWork(m, QUIET)
    ensures Processed(m, QUIET, 32).buf[0] == m.buf[0]
  {
    hide Mailbox.Received;
    assert NextToPost(m) == 2;
  }

  lemma Fetching(m: Mbx)
    requires Between(m, Idle, Outpost)
    ensures Between(Processed(m, FETCHED, 32), Idle, Backup) && !HasWork(m, FETCHED)
    ensures Processed(m, FETCHED, 32).buf[0] == m.buf[0]
  {
  }

  /** The segment that is refused takes the last idle buffer, and none is left for the abort. */
  lemma LastPoll(h: Server, s: Server, state: nat, text: Frame)
    requires Taken(h.mbx, Idle, START) && |h.st| == 1 && |h.st[0]| == 32 && |h.block| >= 64
    requires CanDownloadComplete(TABLE, h, 32) && s == SdoDownloadComplete(TABLE, h, state, 32).(mbx := s.mbx)
             && s.st == h.st
    requires Between(s.mbx, Idle, Backup) && s.mbx.buf[0] == START
    ensures var i := Arrives(EmptyLastSegment(32));
            && CanRound(TABLE, s, i, 32) && Refuses(TABLE, s, i, 32)
            && Round(TABLE, s, i, state, 32, text).mbx.control == [Idle, Outclaim, Backup]
  {
    hide TABLE, KindOf, Processed, HasWork, SdoDownloadComplete, CanDownloadComplete, CanSegment, SdoDownloadSegment,
      SegmentStored, SpreadRefused, EmptyLastSegment, START, Serviceable, Highest;
    TableObject(s.st);
    SegmentFields();
    StartFields();
    var f := EmptyLastSegment(32);
    Receipt(s.mbx, Backup, f);
    var r := Received(s, f);
    assert r.mbx.control[1] == Idle;
    RefusalReachable(h, state, r.mbx);
    RefusedRound(TABLE, s, Arrives(f), state, 32, text);
    SegmentOutcome(TABLE, r, state);
  }

  /** The deeds: the mailboxes start, the download starts, its response is posted and fetched, the segment comes. */
  function Deeds(state: nat, text: Frame): seq<Deed> {
    [Other(Start), Poll(Arrives(START), state, text), Poll(QUIET, state, text), Poll(FETCHED, state, text),
     Poll(Arrives(EmptyLastSegment(32)), state, text)]
  }

  lemma FirstDeeds(m: Mbx, srv: Server, state: nat, text: Frame) returns (h: Server, ss: seq<Server>)
    requires Shaped(m) && |m.control| == 3 && |m.buf[0].body| == 32 && srv.mbx == Stopped(m)
    requires |srv.st| == 1 && |srv.st[0]| == 32 && |srv.block| >= 64
    ensures |ss| == 5 && ss[0] == srv && Shaped(srv.mbx)
    ensures forall k | 0 <= k < 4 :: Does(TABLE, ss[k], Deeds(state, text)[k], ss[k + 1], 32)
    ensures Taken(h.mbx, Idle, START) && h.st == srv.st && h.block == srv.block && CanDownloadComplete(TABLE, h, 32)
    ensures ss[4] == SdoDownloadComplete(TABLE, h, state, 32).(mbx := ss[4].mbx) && ss[4].st == h.st
    ensures Between(ss[4].mbx, Idle, Backup) && ss[4].mbx.buf[0] == START
  {
    hide TABLE, START, Processed, HasWork, SdoDownloadComplete, CanDownloadComplete, CanProcess, EmptyLastSegment,
      Stopped, Between,
      Taken;
    Starts(m);
    var s1 := srv.(mbx := Started(srv.mbx));
    FirstPoll(s1, state, text);
    h := Received(s1, START);
    StartFields();
    TakenAtStart(s1.mbx);
    var s2 := Round(TABLE, s1, Arrives(START), state, 32, text);
    Posting(s2.mbx);
    var s3 := s2.(mbx := Processed(s2.mbx, QUIET, 32));
    Fetching(s3.mbx);
    var s4 := s3.(mbx := Processed(s3.mbx, FETCHED, 32));
    ss := [srv, s1, s2, s3, s4];
    var es := Deeds(state, text);
    assert Does(TABLE, srv, es[0], s1, 32);
    assert Does(TABLE, s1, es[1], s2, 32);
    assert Does(TABLE, s2, es[2], s3, 32);
    assert Does(TABLE, s3, es[3], s4, 32);
  }

  lemma TakenAtStart(m: Mbx)
    requires Between(m, Idle, Idle) && m.incnt == 0
    ensures Taken(Processed(m, Arrives(START), 32).(xoe := MBXCOE), Idle, START)
  {
    StartFields();
    hide START;
    Receipt(m, Idle, START);
  }

  /**
   From stopped mailboxes with three buffers, as the repository has them, two
   requests are enough: one segment is refused, and the only buffer that is not
   lost is the backup.
   */
  lemma SilencedByTwoRequests(m: Mbx, srv: Server, state: nat, text: Frame) returns (ss: seq<Server>)
    requires Shaped(m) && |m.control| == 3 && |m.buf[0].body| == 32 && srv.mbx == Stopped(m)
    requires |srv.st| == 1 && |srv.st[0]| == 32 && |srv.block| >= 64
    ensures IsServerRun(TABLE, ss, Deeds(state, text), 32) && ss[0] == srv && NoStop(Deeds(state, text), 0, 5)
    ensures Refusals(TABLE, ss, Deeds(state, text), 32, 5) == Enough(3) == 1
    ensures Settled(ss[5].mbx, 2) && ss[5].mbx.control == [Idle, Outclaim, Backup]
  {
    hide TABLE, START, Does, CanDownloadComplete, SdoDownloadComplete, Between, Taken, Refuses, Round, CanRound,
      EmptyLastSegment,
      Stopped, Num;
    var h, first := FirstDeeds(m, srv, state, text);
    var es := Deeds(state, text);
    LastPoll(h, first[4], state, text);
    var last := Round(TABLE, first[4], es[4].i, state, 32, text);
    ss := first + [last];
    assert Does(TABLE, ss[4], es[4], ss[5], 32) by { DoesPoll(TABLE, ss[4], es[4], 32); }
    assert IsServerRun(TABLE, ss, es, 32);
    SafeInitially(m);
    ServerRunSafe(TABLE, ss, es, 32, 0, 5);
    NeverMore(TABLE, ss, es, 32, 5);
  }

  lemma DoesPoll(d: Dictionary, s: Server, e: Deed, dsize: nat)
    requires e.Poll? && CanRound(d, s, e.i, dsize)
    ensures Does(d, s, e, Round(d, s, e.i, e.state, dsize, e.text), dsize)
  {
  }
}
