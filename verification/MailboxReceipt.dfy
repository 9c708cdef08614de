/**
 Which messages are taken, kept and posted: what one call of ESC_mbxprocess
 does, in the numbers of the mailbox header, and that a repeated message is
 never served.
 */
module MailboxReceipt {
  import opened Words
  import opened ObjectDictionary
  import opened Mailbox
  import opened MailboxRuns
  import opened CoeHandlers
  import opened CoeMailbox
  import opened CoeRounds

  // What the call finds

  /** The full bits of both mailboxes are read when there is an event. */
  predicate InFull(m: Mbx, i: Input) { if i.event0 || i.event1 then i.full0 else m.full0 }
  predicate OutFull(m: Mbx, i: Input) { if i.event0 || i.event1 then i.full1 else m.full1 }

  /** The master has fetched the posted message. */
  predicate Fetched(m: Mbx, i: Input) { m.run && m.outpost != 0 && i.event1 }

  /** The repeat bit differs from its acknowledgement. */
  predicate AsksAgain(m: Mbx, i: Input) { m.run && !Fetched(m, i) && m.repeat != m.toggle }

  /** Buffer k is the highest queued one, and the outgoing mailbox is free for it. */
  predicate PostsAt(m: Mbx, i: Input, k: nat) {
    && m.run && !Fetched(m, i) && !AsksAgain(m, i)
    && m.txcue > 0 && (m.free || !OutFull(m, i))
    && 0 < k < |m.control| && m.control[k] == Outreq && forall j | k < j < |m.control| :: m.control[j] != Outreq
  }

  /** A message is taken from the incoming mailbox: nothing goes out, and the last one is done with. */
  ghost predicate Takes(m: Mbx, i: Input) {
    && m.run && !Fetched(m, i) && !AsksAgain(m, i) && (forall k :: !PostsAt(m, i, k))
    && m.outpost == 0 && InFull(m, i) && m.xoe == 0 && |m.control| > 0 && m.control[0] == Idle
  }

  /** It stays: its length is not zero and fits, and it is not the message before it again. */
  predicate Stays(f: Frame, before: nat, size: nat) {
    0 < f.length <= size && (f.cnt == 0 || f.cnt != before)
  }

  // What it does

  lemma NextIs(m: Mbx, i: Input, k: nat)
    requires Shaped(m) && m.run && !Fetched(m, i) && !AsksAgain(m, i)
    ensures PostsAt(m, i, k) ==> NextToPost(Refreshed(m, i)) == k
    ensures (forall j :: !PostsAt(m, i, j)) ==> NextToPost(Refreshed(m, i)) == 0
  {
    var n := NextToPost(Refreshed(m, i));
    if n > 0 { assert PostsAt(m, i, n); }
  }

  /** The buffers the receive part of a call works on. */
  lemma TakingIs(m: Mbx, i: Input, size: nat)
    requires Shaped(m) && Takes(m, i)
    ensures var r := Refreshed(m, i);
            && r == m.(full0 := r.full0, full1 := r.full1)
            && Processed(m, i, size) == Received(r, i.message, size)
  {
    hide Received, Acknowledged, Repeated;
    NextIs(m, i, 0);
  }

  /** A good header: only buffer 0 and the variables of receiving change. */
  lemma ReceivedGood(m: Mbx, f: Frame, size: nat)
    requires Shaped(m) && m.control[0] == Idle && 0 < f.length <= size
    ensures var r := Received(m, f, size);
            && r == m.(control := r.control, buf := r.buf, incnt := f.cnt, full0 := false)
            && r.control == m.control[0 := if Stays(f, m.incnt, size) then Inclaim else Idle]
            && r.buf == m.buf[0 := f.(body := r.buf[0].body)]
  {
    hide ReadOver, HeaderChecked;
    var g := m.(control := m.control[0 := Inclaim], buf := m.buf[0 := ReadOver(m.buf[0], f, size)], full0 := false);
    GoodHeader(g, size);
    assert m.control[0 := Inclaim][0 := Idle] == m.control[0 := Idle];
  }

  lemma GoodHeader(g: Mbx, size: nat)
    requires Shaped(g) && 0 < g.buf[0].length <= size
    ensures HeaderChecked(g, size) == g
  {
  }

  /** A bad one is answered, if a buffer is free, and the message dropped. */
  lemma ReceivedBad(m: Mbx, f: Frame, size: nat)
    requires Shaped(m) && m.control[0] == Idle && !(0 < f.length <= size)
    ensures var r := Received(m, f, size);
            && r.control[0] == Idle && r.incnt == f.cnt && !r.full0 && r.buf[0] == f.(body := r.buf[0].body)
            && r.wire == m.wire && r.outpost == m.outpost && r.backup == m.backup
            && (FreeBuffer(m) == 0 ==> r.control == m.control && r.buf[1..] == m.buf[1..])
            && (FreeBuffer(m) > 0 ==>
                  var n := FreeBuffer(m);
                  && r.control == m.control[n := Outreq]
                  && r.buf[n] == Frame(4, 0, r.buf[n].cnt, [1, 0, 5, 0])
                  && forall k | 0 < k < |m.buf| && k != n :: r.buf[k] == m.buf[k])
  {
    hide Sent, ErrorFrame, FreeBuffer, CounterChecked, Received, Highest;
    var g := m.(control := m.control[0 := Inclaim], buf := m.buf[0 := ReadOver(m.buf[0], f, size)], full0 := false);
    InboxIsNoBuffer(m, g);
    ErrorBytes(MBXERR_INVALIDHEADER);
    var e := ErrorFrame(MBXERR_INVALIDHEADER);
    SentExactly(g, e);
    Refusing(m, f, size);
    var n := FreeBuffer(m);
    if n > 0 {
      assert g.control[n := Outreq][0 := Idle] == m.control[n := Outreq];
    } else {
      assert g.control[0 := Idle] == m.control;
    }
  }

  lemma Refusing(m: Mbx, f: Frame, size: nat)
    requires Shaped(m) && !(0 < f.length <= size)
    ensures var g := m.(control := m.control[0 := Inclaim], buf := m.buf[0 := ReadOver(m.buf[0], f, size)], full0 := false);
            var d := Sent(g, ErrorFrame(5));
            Received(m, f, size) == d.(control := d.control[0 := Idle], incnt := f.cnt)
  {
    hide Sent, ErrorFrame, ReadOver, HeaderChecked, CounterChecked;
    var g := m.(control := m.control[0 := Inclaim], buf := m.buf[0 := ReadOver(m.buf[0], f, size)], full0 := false);
    BadHeader(g, size);
    DroppedTwice(Sent(g, ErrorFrame(5)), f.cnt);
  }

  lemma BadHeader(g: Mbx, size: nat)
    requires Shaped(g) && !(0 < g.buf[0].length <= size)
    ensures HeaderChecked(g, size) == InboxDropped(Sent(g, ErrorFrame(5)))
  {
    hide Sent, ErrorFrame;
  }

  lemma DroppedTwice(d: Mbx, cnt: nat)
    requires Shaped(d)
    ensures CounterChecked(InboxDropped(d), cnt) == d.(control := d.control[0 := Idle], incnt := cnt)
  {
    assert d.control[0 := Idle][0 := Idle] == d.control[0 := Idle];
  }

  lemma ErrorBytes(code: uint16)
    ensures ErrorFrame(code) == Frame(4, 0, 0, [1, 0, code % 0x100, code / 0x100])
  {
  }

  /** Sending takes the highest idle buffer; counters run from 1 to 7. Without an idle buffer nothing happens. */
  lemma SentExactly(m: Mbx, f: Frame)
    requires Shaped(m)
    ensures var n := FreeBuffer(m);
            var r := Sent(m, f);
            && (n == 0 ==> r == m)
            && (n > 0 ==>
                  && r == m.(control := m.control[n := Outreq], buf := m.buf[n := f.(cnt := r.cnt)], cnt := r.cnt,
                             txcue := m.txcue + 1)
                  && (m.cnt <= 7 ==> r.cnt == m.cnt % 7 + 1))
    ensures FreeBuffer(m) > 0 <==> exists k | 0 < k < |m.control| :: m.control[k] == Idle
    ensures FreeBuffer(m) > 0 ==>
              m.control[FreeBuffer(m)] == Idle && forall k | FreeBuffer(m) < k < |m.control| :: m.control[k] != Idle
  {
    hide Highest;
  }

  lemma {:induction false} SameHighest(c: seq<BufferState>, b: BufferState, n: nat)
    requires n < |c|
    ensures Highest(c[0 := b], Idle, n) == Highest(c, Idle, n)
  {
    if n > 0 { SameHighest(c, b, n - 1); }
  }

  lemma InboxIsNoBuffer(m: Mbx, g: Mbx)
    requires Shaped(m) && Shaped(g) && |g.control| == |m.control| && g.control == m.control[0 := g.control[0]]
    ensures FreeBuffer(g) == FreeBuffer(m)
  {
    SameHighest(m.control, g.control[0], |m.control| - 1);
  }

  /**
   A message that is taken stays in buffer 0 if and only if its header is in
   order and its counter is 0 or differs from that of the message taken before;
   its counter is remembered either way, and there is work to do.
   */
  lemma TakenExactly(m: Mbx, i: Input, size: nat)
    requires Shaped(m) && Takes(m, i)
    ensures var r := Processed(m, i, size);
            && (r.control[0] == Inclaim <==> Stays(i.message, m.incnt, size)) && r.control[0] in {Idle, Inclaim}
            && r.incnt == i.message.cnt && r.xoe == 0 && !r.full0
            && r.buf[0] == i.message.(body := r.buf[0].body)
            && HasWork(m, i)
  {
    TakingIs(m, i, size);
    if 0 < i.message.length <= size {
      ReceivedGood(Refreshed(m, i), i.message, size);
    } else {
      ReceivedBad(Refreshed(m, i), i.message, size);
    }
    ReceivedKeepsXoe(Refreshed(m, i), i.message, size);
    WorkIs(m, i);
    hide Received, Refreshed, Processed, HasWork;
  }

  /** The three ways in which nothing is taken. */
  lemma SendingIs(m: Mbx, i: Input, size: nat)
    requires Shaped(m) && !Takes(m, i)
    ensures var r := Refreshed(m, i);
            && r == m.(full0 := r.full0, full1 := r.full1)
            && Processed(m, i, size) ==
               (if !m.run then m
                else if Fetched(m, i) then Acknowledged(r)
                else if AsksAgain(m, i) then Repeated(r)
                else Posted(r, i.fullAfterPost))
  {
    hide Received, Acknowledged, Repeated, Highest, Written;
    if m.run && !Fetched(m, i) && !AsksAgain(m, i) {
      if k :| PostsAt(m, i, k) { NextIs(m, i, k); } else { NextIs(m, i, 0); }
    }
  }

  lemma SendingCounters(m: Mbx, fullAfterPost: bool)
    requires Shaped(m)
    ensures m.outpost != 0 ==> Acknowledged(m).incnt == m.incnt
    ensures Repeated(m).incnt == m.incnt && Posted(m, fullAfterPost).incnt == m.incnt
  {
    hide Highest;
  }

  lemma WorkIs(m: Mbx, i: Input)
    requires Shaped(m)
    ensures HasWork(m, i) <==> Takes(m, i) || (Fetched(m, i) && m.xoe > 0)
  {
    hide Highest, Written;
    if m.run && !Fetched(m, i) && !AsksAgain(m, i) {
      if k :| PostsAt(m, i, k) { NextIs(m, i, k); } else { NextIs(m, i, 0); }
    }
  }

  /** Otherwise buffer 0 and the remembered counter are as they were; a fetch of a continued message is work, too. */
  lemma NotTaken(m: Mbx, i: Input, size: nat)
    requires Shaped(m) && !Takes(m, i)
    ensures var r := Processed(m, i, size);
            && r.control[0] == m.control[0] && r.buf[0] == m.buf[0] && r.incnt == m.incnt && r.xoe == m.xoe
            && (HasWork(m, i) <==> Fetched(m, i) && m.xoe > 0)
  {
    hide Acknowledged, Repeated, Posted, Processed, Refreshed, HasWork, Takes;
    SendingIs(m, i, size);
    WorkIs(m, i);
    var r := Refreshed(m, i);
    SendingKeepsInbox(r, i.fullAfterPost);
    SendingCounters(r, i.fullAfterPost);
  }

  // What goes out

  /** The highest queued buffer is posted when the outgoing mailbox is free, and nothing is taken. */
  lemma PostedExactly(m: Mbx, i: Input, size: nat, k: nat)
    requires Shaped(m) && PostsAt(m, i, k)
    ensures var r := Processed(m, i, size);
            && r == m.(full0 := InFull(m, i), full1 := i.fullAfterPost, free := false, outpost := k, txcue := m.txcue - 1,
                       control := m.control[k := Outpost], wire := m.wire + [m.buf[k]])
            && !HasWork(m, i)
  {
    hide Received, Acknowledged, Repeated, Processed, HasWork, Highest;
    assert !Takes(m, i);
    SendingIs(m, i, size);
    WorkIs(m, i);
    NextIs(m, i, k);
  }

  /** With nothing to post, to repeat or fetched, nothing goes out. */
  lemma NothingPosted(m: Mbx, i: Input, size: nat)
    requires Shaped(m) && !Fetched(m, i) && !AsksAgain(m, i) && forall k :: !PostsAt(m, i, k)
    ensures var r := Processed(m, i, size);
            r.wire == m.wire && r.outpost == m.outpost && r.backup == m.backup
  {
    hide Received, Acknowledged, Repeated, Processed, Highest, Takes, Stays;
    if m.run { NextIs(m, i, 0); }
    if Takes(m, i) {
      TakingIs(m, i, size);
      var r := Refreshed(m, i);
      assert m.control[0] == Idle by { TakesIdle(m, i); }
      if 0 < i.message.length <= size {
        ReceivedGood(r, i.message, size);
      } else {
        ReceivedBad(r, i.message, size);
      }
    } else {
      SendingIs(m, i, size);
    }
  }

  lemma TakesIdle(m: Mbx, i: Input)
    requires Takes(m, i)
    ensures m.control[0] == Idle
  {
  }

  /** A fetched message becomes the backup, and the old one is free; one to be sent again is written first. */
  lemma FetchedExactly(m: Mbx, i: Input, size: nat)
    requires Shaped(m) && Fetched(m, i) && m.backup != m.outpost
    ensures var r := Processed(m, i, size);
            var again := m.control[m.outpost] == Again;
            && r == m.(full0 := i.full0, full1 := i.full1, free := !again, outpost := 0, backup := m.outpost,
                       control := r.control, wire := m.wire + (if again then [m.buf[m.outpost]] else []))
            && |r.control| == |m.control|
            && forall k | 0 <= k < |m.control| ::
                 r.control[k] == if k == m.outpost then Backup else if k == m.backup != 0 then Idle else m.control[k]
  {
    hide Processed, Refreshed, Acknowledged;
    SendingIs(m, i, size);
    AcknowledgedIs(Refreshed(m, i));
    FullsAre(m, i);
  }

  lemma FullsAre(m: Mbx, i: Input)
    requires Shaped(m)
    ensures Refreshed(m, i) == m.(full0 := InFull(m, i), full1 := OutFull(m, i))
  {
  }

  lemma AcknowledgedIs(m: Mbx)
    requires Shaped(m) && m.outpost != 0 && m.backup != m.outpost
    ensures var r := Acknowledged(m);
            var again := m.control[m.outpost] == Again;
            && r == m.(free := !again, outpost := 0, backup := m.outpost, control := r.control,
                       wire := m.wire + (if again then [m.buf[m.outpost]] else []))
            && |r.control| == |m.control|
            && forall k | 0 <= k < |m.control| ::
                 r.control[k] == if k == m.outpost then Backup else if k == m.backup != 0 then Idle else m.control[k]
  {
    var m1 := m.(free := true);
    var m2 := if m.backup == 0 then m1 else m1.(control := m1.control[m.backup := Idle]);
    assert m2.control[m.outpost] == m.control[m.outpost];
    assert m.wire + [] == m.wire;
  }

  /** A repeat request is answered by the backup, or buffer 0; with neither posted message nor backup it stays open. */
  lemma RepeatedExactly(m: Mbx, i: Input, size: nat)
    requires Shaped(m) && AsksAgain(m, i)
    ensures var r := Processed(m, i, size);
            var fulls := m.(full0 := InFull(m, i), full1 := OutFull(m, i));
            r == if m.outpost == 0 && m.backup == 0 then fulls
                 else fulls.(control := if m.outpost == 0 then m.control else m.control[m.outpost := Again],
                             toggle := m.repeat, free := false, wire := m.wire + [m.buf[m.backup]])
  {
    hide Processed, Refreshed;
    SendingIs(m, i, size);
    FullsAre(m, i);
  }

  /** A message that no protocol has taken is dropped and answered by an error: 5 for a bad header, 2 for its protocol. */
  lemma RejectedExactly(m: Mbx)
    requires Shaped(m)
    ensures var r := Rejected(m);
            if m.run && m.xoe == 0 && m.control[0] == Inclaim then
              var n := FreeBuffer(m);
              && r.wire == m.wire && r.outpost == m.outpost && r.backup == m.backup && r.xoe == 0 && r.incnt == m.incnt
              && (n == 0 ==> r.control == m.control[0 := Idle] && r.buf == m.buf)
              && (n > 0 ==>
                    var code: byte := if m.buf[0].mtype == 0 || m.buf[0].length == 0 then 5 else 2;
                    r.control == m.control[n := Outreq][0 := Idle]
                    && r.buf == m.buf[n := Frame(4, 0, r.cnt, [1, 0, code, 0])])
            else r == m
  {
    hide Sent, ErrorFrame, FreeBuffer;
    SentExactly(m, ErrorFrame(MBXERR_INVALIDHEADER));
    SentExactly(m, ErrorFrame(MBXERR_UNSUPPORTEDPROTOCOL));
    ErrorBytes(MBXERR_INVALIDHEADER);
    ErrorBytes(MBXERR_UNSUPPORTEDPROTOCOL);
  }

  /** The bytes of a message in buffer 0: as many as it announces, at most a mailbox, and those of before behind them. */
  lemma ReadBytes(before: Frame, f: Frame, size: nat, k: nat)
    requires |f.body| == |before.body| == size && k < size
    ensures |ReadOver(before, f, size).body| == size
    ensures ReadOver(before, f, size).body[k] == if k < f.length then f.body[k] else before.body[k]
  {
  }

  // Repeated messages

  /** A round that takes the message before it once more does nothing but remember it. */
  lemma RepeatIgnored(d: Dictionary, s: Server, i: Input, state: nat, dsize: nat, text: Frame)
    requires CanRound(d, s, i, dsize) && Takes(s.mbx, i) && i.message.cnt == s.mbx.incnt != 0
    ensures var t := Round(d, s, i, state, dsize, text);
            && t == s.(mbx := t.mbx) && t.mbx.incnt == s.mbx.incnt && t.mbx.wire == s.mbx.wire
            && t.mbx.control[0] == Idle
            && (0 < i.message.length <= dsize ==> t.mbx.control[1..] == s.mbx.control[1..] && t.mbx.txcue == s.mbx.txcue)
  {
    TakenExactly(s.mbx, i, dsize);
    NothingPosted(s.mbx, i, dsize);
    TakingIs(s.mbx, i, dsize);
    if 0 < i.message.length <= dsize { ReceivedGood(Refreshed(s.mbx, i), i.message, dsize); }
    hide Processed, Received, HasWork, Sent, ErrorFrame, Handled, CanHandle, Listing, Refreshed;
  }

  /** After a round that had work, no message is left that nobody has taken on. */
  lemma NothingLeft(d: Dictionary, s: Server, i: Input, state: nat, dsize: nat, text: Frame)
    requires CanRound(d, s, i, dsize) && HasWork(s.mbx, i)
    ensures var m := Round(d, s, i, state, dsize, text).mbx;
            !m.run || m.xoe != 0 || m.control[0] != Inclaim
  {
    hide Processed, HasWork, CoeProcess, CanProcess, Rejected;
    RejectedExactly(CoeProcess(d, s.(mbx := Processed(s.mbx, i, dsize)), state, dsize, text).mbx);
  }

  /** The counter of the message taken last, after k deeds of a run; 0 before the first one and after a stop. */
  ghost function CounterBefore(ss: seq<Server>, es: seq<Deed>, k: nat): nat
    requires k <= |es| < |ss|
  {
    if k == 0 then 0
    else
      var s, e := ss[k - 1], es[k - 1];
      if e == Other(Stop) then 0
      else if e.Poll? && Takes(s.mbx, e.i) then e.i.message.cnt
      else if e.Other? && e.s.Process? && Takes(s.mbx, e.s.i) then e.s.i.message.cnt
      else CounterBefore(ss, es, k - 1)
  }

  lemma StepCounter(m: Mbx, x: Step, size: nat)
    requires Shaped(m)
    ensures Next(m, x, size).incnt ==
            if x.Stop? then 0 else if x.Process? && Takes(m, x.i) then x.i.message.cnt else m.incnt
  {
    hide Processed, Takes, Highest, ErrorFrame;
    match x
    case Process(i) => if Takes(m, i) { TakenExactly(m, i, size); } else { NotTaken(m, i, size); }
    case Respond(f) => SentExactly(m, f);
    case Reject => RejectedCounter(m);
    case _ =>
  }

  lemma RejectedCounter(m: Mbx)
    requires Shaped(m)
    ensures Rejected(m).incnt == m.incnt
  {
    hide Sent, ErrorFrame;
    SentExactly(m, ErrorFrame(MBXERR_INVALIDHEADER));
    SentExactly(m, ErrorFrame(MBXERR_UNSUPPORTEDPROTOCOL));
  }

  lemma {:induction false} ServerKeepsCounter(m: Mbx, steps: seq<Step>, size: nat)
    requires Shaped(m) && forall k | 0 <= k < |steps| :: IsServerStep(steps[k])
    ensures Run(m, steps, size).incnt == m.incnt
    decreases |steps|
  {
    hide Next;
    if steps != [] {
      StepCounter(m, steps[0], size);
      ServerKeepsCounter(Next(m, steps[0], size), steps[1..], size);
    }
  }

  /** The rest of a round does not touch it. */
  lemma RoundCounter(d: Dictionary, s: Server, i: Input, state: nat, dsize: nat, text: Frame)
    requires CanRound(d, s, i, dsize)
    ensures Round(d, s, i, state, dsize, text).mbx.incnt == Processed(s.mbx, i, dsize).incnt
  {
    hide CoeProcess, CanProcess, Processed, Rejected, HasWork, Run;
    var s1 := s.(mbx := Processed(s.mbx, i, dsize));
    if HasWork(s.mbx, i) {
      var t := CoeProcess(d, s1, state, dsize, text).mbx;
      CoeProcessServes(d, s1, state, dsize, text);
      var steps :| Serve(s1.mbx, t, steps, dsize);
      ServerKeepsCounter(s1.mbx, steps, dsize);
      RejectedCounter(t);
    }
  }

  lemma DeedCounter(d: Dictionary, s: Server, e: Deed, t: Server, dsize: nat)
    requires Does(d, s, e, t, dsize)
    ensures Shaped(s.mbx)
    ensures t.mbx.incnt ==
            if e == Other(Stop) then 0
            else if e.Poll? && Takes(s.mbx, e.i) then e.i.message.cnt
            else if e.Other? && e.s.Process? && Takes(s.mbx, e.s.i) then e.s.i.message.cnt
            else s.mbx.incnt
  {
    hide Round, CanProcess, HasWork, Next, Takes, Processed;
    match e
    case Poll(i, state, text) =>
      RoundCounter(d, s, i, state, dsize, text);
      if Takes(s.mbx, i) { TakenExactly(s.mbx, i, dsize); } else { NotTaken(s.mbx, i, dsize); }
    case Other(x) => StepCounter(s.mbx, x, dsize);
  }

  lemma {:induction false} CounterIs(d: Dictionary, ss: seq<Server>, es: seq<Deed>, dsize: nat, k: nat)
    requires IsServerRun(d, ss, es, dsize) && k <= |es| && ss[0].mbx.incnt == 0
    ensures ss[k].mbx.incnt == CounterBefore(ss, es, k)
  {
    hide Does, Takes;
    if k > 0 {
      CounterIs(d, ss, es, dsize, k - 1);
      assert Does(d, ss[k - 1], es[k - 1], ss[k], dsize);
      DeedCounter(d, ss[k - 1], es[k - 1], ss[k], dsize);
    }
  }

  /**
   In every run from stopped mailboxes, a round that takes a message with the
   counter of the message taken before it serves nothing: storage, block and
   transfer stay, and nothing is written.
   */
  lemma NoneServedTwice(d: Dictionary, ss: seq<Server>, es: seq<Deed>, dsize: nat, m: Mbx, k: nat)
    requires IsServerRun(d, ss, es, dsize) && k < |es| && Shaped(m) && ss[0].mbx == Stopped(m)
    requires es[k].Poll? && Takes(ss[k].mbx, es[k].i) && es[k].i.message.cnt == CounterBefore(ss, es, k) != 0
    ensures var s, t := ss[k], ss[k + 1];
            && t == s.(mbx := t.mbx) && t.mbx.wire == s.mbx.wire && t.mbx.incnt == s.mbx.incnt
            && (0 < es[k].i.message.length <= dsize ==> t.mbx.control[1..] == s.mbx.control[1..])
  {
    CounterIs(d, ss, es, dsize, k);
    assert Does(d, ss[k], es[k], ss[k + 1], dsize);
    hide Round, CanRound, Takes, IsServerRun;
    RepeatIgnored(d, ss[k], es[k].i, es[k].state, dsize, es[k].text);
  }
}
