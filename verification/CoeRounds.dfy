/**
 Whole runs of the CoE server: rounds of the mailbox part of ecat_slv_poll,
 with register reads, starts, stops and messages of other protocols between
 them. They are runs of the buffers, so the buffers stay in order and the
 backup is kept; and two kinds of requests take something away for good.
 */
module CoeRounds {
  import opened ObjectDictionary
  import opened Mailbox
  import opened MailboxRuns
  import opened MailboxBackup
  import opened SdoTransfer
  import opened CoeHandlers
  import opened CoeMailbox

  datatype Deed = Poll(i: Input, state: nat, text: Frame) | Other(s: Step)

  /** Only the server itself and a stop of the mailboxes touch the transfer. */
  ghost predicate Does(d: Dictionary, s: Server, e: Deed, t: Server, dsize: nat) {
    match e
    case Poll(i, state, text) => CanRound(d, s, i, dsize) && t == Round(d, s, i, state, dsize, text)
    case Other(x) => Shaped(s.mbx) && t.mbx == Next(s.mbx, x, dsize) && (!x.Stop? ==> t.sess == s.sess)
  }

  ghost predicate IsServerRun(d: Dictionary, ss: seq<Server>, es: seq<Deed>, dsize: nat) {
    && |ss| == |es| + 1 && Shaped(ss[0].mbx)
    && forall k | 0 <= k < |es| :: Does(d, ss[k], es[k], ss[k + 1], dsize)
  }

  ghost predicate NoStop(es: seq<Deed>, j: nat, k: nat) {
    forall x | j <= x < k <= |es| :: es[x] != Other(Stop)
  }

  // Rounds are runs of the buffers

  lemma RoundIsRun(d: Dictionary, s: Server, i: Input, state: nat, dsize: nat, text: Frame) returns (steps: seq<Step>)
    requires CanRound(d, s, i, dsize)
    ensures Round(d, s, i, state, dsize, text).mbx == Run(s.mbx, steps, dsize) && Stop !in steps
  {
    hide CoeProcess, CanProcess, Processed, Rejected, HasWork;
    var s1 := s.(mbx := Processed(s.mbx, i, dsize));
    assert Run(s.mbx, [Process(i)], dsize) == Run(s1.mbx, [], dsize);
    steps := [Process(i)];
    if HasWork(s.mbx, i) {
      var t := CoeProcess(d, s1, state, dsize, text).mbx;
      CoeProcessServes(d, s1, state, dsize, text);
      var served :| Serve(s1.mbx, t, served, dsize);
      RunJoin(s.mbx, steps, served, dsize);
      RunJoin(s.mbx, steps + served, [Reject], dsize);
      assert Run(t, [Reject], dsize) == Run(Rejected(t), [], dsize);
      steps := steps + served + [Reject];
    }
  }

  lemma DeedIsRun(d: Dictionary, s: Server, e: Deed, t: Server, dsize: nat) returns (steps: seq<Step>)
    requires Does(d, s, e, t, dsize)
    ensures Shaped(s.mbx) && t.mbx == Run(s.mbx, steps, dsize) && (e != Other(Stop) ==> Stop !in steps)
  {
    hide Round, CanProcess, HasWork, Next;
    match e
    case Poll(i, state, text) => steps := RoundIsRun(d, s, i, state, dsize, text);
    case Other(x) =>
      steps := [x];
      assert Run(s.mbx, [x], dsize) == Run(Next(s.mbx, x, dsize), [], dsize);
  }

  /** Everything proved of runs of the buffers holds of runs of the server. */
  lemma {:induction false} ServerRunIsRun(d: Dictionary, ss: seq<Server>, es: seq<Deed>, dsize: nat, j: nat, k: nat)
    returns (steps: seq<Step>)
    requires IsServerRun(d, ss, es, dsize) && j <= k <= |es| && Shaped(ss[j].mbx)
    ensures ss[k].mbx == Run(ss[j].mbx, steps, dsize) && (NoStop(es, j, k) ==> Stop !in steps)
    decreases k - j
  {
    hide Does, Next;
    if j == k {
      steps := [];
    } else {
      var before := ServerRunIsRun(d, ss, es, dsize, j, k - 1);
      assert Does(d, ss[k - 1], es[k - 1], ss[k], dsize);
      var last := DeedIsRun(d, ss[k - 1], es[k - 1], ss[k], dsize);
      RunJoin(ss[j].mbx, before, last, dsize);
      steps := before + last;
    }
  }

  // What was posted and fetched

  /** A round posts and fetches what its first part, ESC_mbxprocess, does. */
  ghost function NextDeed(h: History, e: Deed, t: Server, dsize: nat): (r: History)
    requires Shaped(h.m) && Shaped(t.mbx)
    ensures Shaped(r.m)
  {
    match e
    case Poll(i, _, _) => NextHistory(h, Process(i), dsize).(m := t.mbx)
    case Other(x) => NextHistory(h, x, dsize)
  }

  /** The message posted last and the message fetched last, after k deeds. */
  ghost function DeedHistory(d: Dictionary, ss: seq<Server>, es: seq<Deed>, dsize: nat, k: nat): (h: History)
    requires IsServerRun(d, ss, es, dsize) && k <= |es|
    ensures h.m == ss[k].mbx && Shaped(h.m)
  {
    if k == 0 then History(ss[0].mbx, None, None)
    else
      assert Does(d, ss[k - 1], es[k - 1], ss[k], dsize);
      NextDeed(DeedHistory(d, ss, es, dsize, k - 1), es[k - 1], ss[k], dsize)
  }

  /** The rest of a round leaves the posted and the backup buffer alone. */
  lemma RestOfRound(d: Dictionary, s: Server, i: Input, state: nat, dsize: nat, text: Frame)
    requires CanRound(d, s, i, dsize) && Safe(Processed(s.mbx, i, dsize))
    ensures var t := Round(d, s, i, state, dsize, text).mbx;
            Safe(t) && SameInUse(Processed(s.mbx, i, dsize), t)
  {
    hide CoeProcess, CanProcess, Processed, Rejected, HasWork, Safe;
    var s1 := s.(mbx := Processed(s.mbx, i, dsize));
    if HasWork(s.mbx, i) {
      CoeProcessInOrder(d, s1, state, dsize, text);
      var t := CoeProcess(d, s1, state, dsize, text).mbx;
      RejectedKeeps(t);
      RejectedSafe(t);
    }
  }

  lemma DeedKeeps(d: Dictionary, s: Server, e: Deed, t: Server, dsize: nat, h: History)
    requires Does(d, s, e, t, dsize) && Kept(h) && h.m == s.mbx
    ensures Shaped(t.mbx) && Kept(NextDeed(h, e, t, dsize))
    ensures e != Other(Stop) && h.fetched.Some? ==> NextDeed(h, e, t, dsize).fetched.Some?
  {
    hide Round, CanRound, Next, Safe, Processed;
    match e
    case Poll(i, state, text) =>
      StepKeeps(h, Process(i), dsize);
      SafeShaped(h.m);
      ProcessIsStep(h, i, dsize);
      RestOfRound(d, s, i, state, dsize, text);
    case Other(x) => StepKeeps(h, x, dsize);
  }

  lemma ProcessIsStep(h: History, i: Input, size: nat)
    requires Shaped(h.m)
    ensures NextHistory(h, Process(i), size).m == Processed(h.m, i, size)
  {
  }

  /**
   From the start of the mailboxes on, in every run of the server, the posted
   buffer holds the message posted last and the backup the message fetched last.
   */
  lemma {:induction false} ServerRunKeeps(d: Dictionary, ss: seq<Server>, es: seq<Deed>, dsize: nat, m: Mbx, k: nat)
    requires IsServerRun(d, ss, es, dsize) && k <= |es| && Shaped(m) && ss[0].mbx == Stopped(m)
    ensures Kept(DeedHistory(d, ss, es, dsize, k))
  {
    hide Stopped, Kept, Does, NextDeed;
    if k == 0 {
      KeptInitially(m);
    } else {
      ServerRunKeeps(d, ss, es, dsize, m, k - 1);
      assert Does(d, ss[k - 1], es[k - 1], ss[k], dsize);
      DeedKeeps(d, ss[k - 1], es[k - 1], ss[k], dsize, DeedHistory(d, ss, es, dsize, k - 1));
    }
  }

  /** A fetched message stays the backup until another one is fetched or the mailboxes stop. */
  lemma {:induction false} FetchedStays(d: Dictionary, ss: seq<Server>, es: seq<Deed>, dsize: nat, m: Mbx, j: nat, k: nat)
    requires IsServerRun(d, ss, es, dsize) && j <= k <= |es| && Shaped(m) && ss[0].mbx == Stopped(m) && NoStop(es, j, k)
    requires DeedHistory(d, ss, es, dsize, j).fetched.Some?
    ensures DeedHistory(d, ss, es, dsize, k).fetched.Some?
    decreases k - j
  {
    hide Stopped, Kept, Does, NextDeed;
    if j < k {
      FetchedStays(d, ss, es, dsize, m, j, k - 1);
      ServerRunKeeps(d, ss, es, dsize, m, k - 1);
      assert Does(d, ss[k - 1], es[k - 1], ss[k], dsize);
      DeedKeeps(d, ss[k - 1], es[k - 1], ss[k], dsize, DeedHistory(d, ss, es, dsize, k - 1));
    }
  }

  /** So in every run a round that finds a repeat request sends the message fetched last, if there is one. */
  lemma RepeatServed(d: Dictionary, ss: seq<Server>, es: seq<Deed>, dsize: nat, m: Mbx, k: nat)
    requires IsServerRun(d, ss, es, dsize) && k < |es| && Shaped(m) && ss[0].mbx == Stopped(m)
    requires es[k].Poll? && Repeats(ss[k].mbx, Process(es[k].i))
    ensures var h := DeedHistory(d, ss, es, dsize, k);
            var r, t := ss[k].mbx, ss[k + 1].mbx;
            if h.fetched.Some? then t.wire == r.wire + [h.fetched.value] && t.toggle == r.repeat
            else if r.outpost != 0 then t.wire == r.wire + [r.buf[0]] && t.toggle == r.repeat
            else t.wire == r.wire && t.toggle == r.toggle
  {
    ServerRunKeeps(d, ss, es, dsize, m, k);
    assert Does(d, ss[k], es[k], ss[k + 1], dsize);
    hide Stopped, Kept, Processed, CoeProcess, CanProcess, NextDeed;
    RepeatAnswer(DeedHistory(d, ss, es, dsize, k), es[k].i, dsize);
  }

  lemma ServerRunSafe(d: Dictionary, ss: seq<Server>, es: seq<Deed>, dsize: nat, j: nat, k: nat)
    requires IsServerRun(d, ss, es, dsize) && j <= k <= |es| && Safe(ss[j].mbx)
    ensures Safe(ss[k].mbx) && |ss[k].mbx.control| == |ss[j].mbx.control|
  {
    hide Does, Num;
    var steps := ServerRunIsRun(d, ss, es, dsize, j, k);
    RunSafe(ss[j].mbx, steps, dsize);
    RunJoin(ss[j].mbx, steps, [], dsize);
  }

  // Requests that hold the inbox

  /** An SDO request whose command no branch matches is in the inbox. */
  predicate Held(s: Server) {
    && Shaped(s.mbx) && s.mbx.run && s.mbx.xoe == MBXCOE && s.mbx.control[0] == Inclaim
    && IsRequest(s.mbx.buf[0]) && KindOf(s.mbx.buf[0], s.sess.segmented).Unmatched?
  }

  /** Which requests these are: among them every abort sent by the master. */
  lemma UnmatchedExactly(r: Frame, segmented: nat)
    requires IsRequest(r)
    ensures KindOf(r, segmented).Unmatched? <==>
            && Service(r) == COE_SDOREQUEST
            && (Command(r) >= 0x80
                || (0x40 <= Command(r) < 0x60 && r.length != COE_HEADERSIZE)
                || (0x60 <= Command(r) < 0x80 &&
                    !(Command(r) in {0x60, 0x70} && r.length == COE_HEADERSIZE && segmented == MBXSEU)))
    ensures Service(r) == COE_SDOREQUEST && Command(r) == COE_COMMAND_SDOABORT ==> KindOf(r, segmented).Unmatched?
  {
  }

  /** The same message is in the inbox, in the same condition. */
  predicate SameInbox(m: Mbx, r: Mbx) {
    Shaped(m) && LikeShaped(r, m) && r.run == m.run && r.xoe == m.xoe && r.control[0] == m.control[0] && r.buf[0] == m.buf[0]
  }

  lemma AcknowledgedInbox(m: Mbx)
    requires Shaped(m) && m.outpost != 0
    ensures SameInbox(m, Acknowledged(m))
  {
    var m1 := m.(free := true);
    var m2 := if m.backup == 0 then m1 else m1.(control := m1.control[m.backup := Idle]);
    assert SameInbox(m, m2) && m2.outpost == m.outpost;
    var m3 := if m2.control[m.outpost] == Again then Written(m2, m.outpost) else m2;
    assert m3 == m2.(free := m3.free, wire := m3.wire);
    hide Written;
  }

  lemma PostedInbox(m: Mbx, fullAfterPost: bool)
    requires Shaped(m)
    ensures SameInbox(m, Posted(m, fullAfterPost))
  {
    hide Highest;
  }

  lemma SendingKeepsInbox(m: Mbx, fullAfterPost: bool)
    requires Shaped(m)
    ensures m.outpost != 0 ==> SameInbox(m, Acknowledged(m))
    ensures SameInbox(m, Repeated(m)) && SameInbox(m, Posted(m, fullAfterPost))
  {
    hide Acknowledged, Posted;
    if m.outpost != 0 { AcknowledgedInbox(m); }
    PostedInbox(m, fullAfterPost);
  }

  lemma HeldProcessed(m: Mbx, i: Input, size: nat)
    requires Shaped(m) && m.xoe != 0
    ensures SameInbox(m, Processed(m, i, size))
  {
    hide Received, Acknowledged, Repeated, Posted;
    SendingKeepsInbox(Refreshed(m, i), i.fullAfterPost);
  }

  /** A round neither answers nor drops it. */
  lemma HeldRound(d: Dictionary, s: Server, i: Input, state: nat, dsize: nat, text: Frame)
    requires Held(s) && CanRound(d, s, i, dsize)
    ensures Round(d, s, i, state, dsize, text) == s.(mbx := Processed(s.mbx, i, dsize))
    ensures var t := Round(d, s, i, state, dsize, text); Held(t) && t.mbx.buf[0] == s.mbx.buf[0]
  {
    HeldProcessed(s.mbx, i, dsize);
    hide Processed, HasWork, KindOf, CanRead;
  }

  /** Nor does anything else that leaves the inbox to the CoE server. */
  lemma HeldNext(m: Mbx, x: Step, size: nat)
    requires Shaped(m) && m.run && m.xoe != 0 && !x.Stop? && !x.Consume?
    ensures SameInbox(m, Next(m, x, size))
  {
    hide Processed, Highest;
    if x.Process? { HeldProcessed(m, x.i, size); }
  }

  ghost predicate InboxUntouched(es: seq<Deed>, j: nat, k: nat) {
    forall x | j <= x < k <= |es| :: es[x].Other? ==> !es[x].s.Stop? && !es[x].s.Consume?
  }

  /**
   Such a request holds the inbox until the mailboxes stop: in every run the
   same message stays in it, so that no other message is received.
   */
  lemma {:induction false} HeldForever(d: Dictionary, ss: seq<Server>, es: seq<Deed>, dsize: nat, j: nat, k: nat)
    requires IsServerRun(d, ss, es, dsize) && j <= k <= |es| && InboxUntouched(es, j, k) && Held(ss[j])
    ensures Held(ss[k]) && ss[k].mbx.buf[0] == ss[j].mbx.buf[0]
    decreases k - j
  {
    if j < k {
      HeldForever(d, ss, es, dsize, j, k - 1);
      var s, e := ss[k - 1], es[k - 1];
      assert Does(d, s, e, ss[k], dsize);
      hide Round, CanRound, Next, KindOf;
      match e
      case Poll(i, state, text) => HeldRound(d, s, i, state, dsize, text);
      case Other(x) => HeldNext(s.mbx, x, dsize);
    }
  }

  lemma HeaderKeepsXoe(m: Mbx, size: nat)
    requires Shaped(m)
    ensures var r := HeaderChecked(m, size); r.xoe == m.xoe && r.run == m.run
  {
    hide Sent, ErrorFrame;
    SentKeepsTransfer(m, ErrorFrame(MBXERR_INVALIDHEADER));
  }

  lemma ReceivedKeepsXoe(m: Mbx, f: Frame, size: nat)
    requires Shaped(m)
    ensures var r := Received(m, f, size); r.xoe == m.xoe && r.run == m.run
  {
    hide HeaderChecked;
    HeaderKeepsXoe(Filled(m, f, size).(full0 := false), size);
  }

  /** It does so from the round in which it is received, unanswered. */
  lemma UnmatchedIsHeld(d: Dictionary, s: Server, i: Input, state: nat, dsize: nat, text: Frame)
    requires CanRound(d, s, i, dsize) && s.mbx.run && HasWork(s.mbx, i) && s.mbx.xoe == 0
    requires var m := Processed(s.mbx, i, dsize);
             && m.control[0] == Inclaim && m.buf[0].mtype == MBXCOE && m.buf[0].length >= COE_MINIMUM_LENGTH
             && IsRequest(m.buf[0]) && KindOf(m.buf[0], s.sess.segmented).Unmatched?
    ensures var t := Round(d, s, i, state, dsize, text);
            Held(t) && t == s.(mbx := Processed(s.mbx, i, dsize).(xoe := MBXCOE))
  {
    hide Sent, KindOf, CanRead, Repeated, Acknowledged, Received, Posted;
    var r := Refreshed(s.mbx, i);
    var p := Posted(r, i.fullAfterPost);
    SendingKeepsInbox(r, i.fullAfterPost);
    ReceivedKeepsXoe(p, i.message, dsize);
  }
}
