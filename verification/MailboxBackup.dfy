/**
 The last message the master has fetched stays available: from the first
 acknowledged message until the mailboxes stop, a repeat request that finds
 nothing posted sends exactly that message again.
 */
module MailboxBackup {
  import opened ObjectDictionary
  import opened Mailbox
  import opened MailboxRuns

  /** A run together with the message posted last and the message fetched last. */
  datatype History = History(m: Mbx, posted: Option<Frame>, fetched: Option<Frame>)

  predicate Fetches(m: Mbx, s: Step) {
    s.Process? && m.run && m.outpost != 0 && s.i.event1
  }

  predicate Repeats(m: Mbx, s: Step) {
    s.Process? && m.run && !(m.outpost != 0 && s.i.event1) && m.repeat != m.toggle
  }

  /** The buffer this step posts, or 0. */
  function Posts(m: Mbx, s: Step): nat
    requires Shaped(m)
  {
    if s.Process? && m.run && !Fetches(m, s) && !Repeats(m, s) then NextToPost(Refreshed(m, s.i)) else 0
  }

  function NextHistory(h: History, s: Step, size: nat): (r: History)
    requires Shaped(h.m)
    ensures Shaped(r.m)
  {
    var m' := Next(h.m, s, size);
    if s.Stop? then History(m', None, None)
    else if Fetches(h.m, s) then History(m', h.posted, h.posted)
    else if Posts(h.m, s) != 0 then History(m', Some(h.m.buf[Posts(h.m, s)]), h.fetched)
    else History(m', h.posted, h.fetched)
  }

  /** The posted and the backup buffer still hold what was sent. */
  ghost predicate Kept(h: History) {
    && Safe(h.m)
    && (h.m.outpost != 0 ==> h.posted == Some(h.m.buf[h.m.outpost]))
    && (h.m.backup != 0 <==> h.fetched.Some?)
    && (h.m.backup != 0 ==> h.fetched == Some(h.m.buf[h.m.backup]))
  }

  /** The sending buffers in use keep their content and their role. */
  ghost predicate SameInUse(m: Mbx, r: Mbx) {
    && Shaped(m) && LikeShaped(r, m)
    && r.outpost == m.outpost && r.backup == m.backup
    && (m.outpost != 0 ==> r.buf[m.outpost] == m.buf[m.outpost])
    && (m.backup != 0 ==> r.buf[m.backup] == m.buf[m.backup])
  }

  /** A handler is never given a buffer that is posted, to be sent again, or kept as backup. */
  lemma ClaimIsUnused(m: Mbx)
    requires Safe(m)
    ensures var n := FreeBuffer(m);
            n > 0 ==> m.control[n] == Idle && n != m.outpost && n != m.backup
    ensures FreeBuffer(m) == 0 <==> Num(m.control[1..], Idle) == 0
  {
    hide Highest;
    var n := FreeBuffer(m);
    if n > 0 {
      NumPositive(m.control[1..], n - 1, Idle);
    } else {
      NumNone(m.control[1..], Idle);
    }
  }

  lemma {:induction false} NumNone(c: seq<BufferState>, s: BufferState)
    requires forall k | 0 <= k < |c| :: c[k] != s
    ensures Num(c, s) == 0
  {
    if c != [] { NumNone(c[..|c| - 1], s); }
  }

  lemma SentKeeps(m: Mbx, f: Frame)
    requires Safe(m)
    ensures SameInUse(m, Claimed(m)) && SameInUse(m, Sent(m, f))
  {
    ClaimIsUnused(m);
    hide Num, Highest;
  }

  lemma HeaderCheckedKeeps(m: Mbx, size: nat)
    requires Safe(m)
    ensures SameInUse(m, HeaderChecked(m, size))
  {
    hide Sent, Num, Safe;
    SafeShaped(m);
    SentKeeps(m, ErrorFrame(MBXERR_INVALIDHEADER));
  }

  lemma ReceivedKeeps(m: Mbx, f: Frame, size: nat)
    requires Safe(m) && m.control[0] == Idle
    ensures SameInUse(m, Received(m, f, size))
  {
    hide HeaderChecked, Safe;
    SafeShaped(m);
    FilledSafe(m, f, size);
    HeaderCheckedKeeps(Filled(m, f, size).(full0 := false), size);
  }

  lemma RejectedKeeps(m: Mbx)
    requires Safe(m)
    ensures SameInUse(m, Rejected(m))
  {
    assert SameInUse(m, m);
    if m.run && m.xoe == 0 && m.control[0] == Inclaim {
      var f := m.buf[0];
      SentKeeps(m, ErrorFrame(if f.mtype == 0 || f.length == 0 then MBXERR_INVALIDHEADER else MBXERR_UNSUPPORTEDPROTOCOL));
      hide Sent, Num, Safe;
    }
  }

  lemma PostedKeeps(m: Mbx, fullAfterPost: bool)
    requires Safe(m)
    ensures var r := Posted(m, fullAfterPost);
            if NextToPost(m) == 0 then r == m
            else r.outpost == NextToPost(m) && r.backup == m.backup && r.buf == m.buf
  {
    hide NextToPost;
  }

  lemma ProcessedKeeps(m: Mbx, i: Input, size: nat)
    requires Safe(m) && m.run && !Fetches(m, Process(i))
    ensures var n := Posts(m, Process(i));
            var r := Processed(m, i, size);
            if n == 0 then SameInUse(m, r)
            else r.outpost == n && r.buf[n] == m.buf[n] && r.backup == m.backup
                 && (m.backup != 0 ==> r.buf[m.backup] == m.buf[m.backup])
  {
    hide Num, Safe, Received, Posted, NextToPost;
    assert Shaped(m) by { SafeShaped(m); }
    if !Repeats(m, Process(i)) {
      RefreshedSafe(m, i);
      var r := Refreshed(m, i);
      PostedSafe(r, i.fullAfterPost);
      PostedKeeps(r, i.fullAfterPost);
      var p := Posted(r, i.fullAfterPost);
      SafeShaped(p);
      if Receives(p) { ReceivedKeeps(p, i.message, size); }
    }
  }

  lemma SafeShaped(m: Mbx)
    requires Safe(m)
    ensures Shaped(m)
  {
  }

  lemma StepKeeps(h: History, s: Step, size: nat)
    requires Kept(h)
    ensures Kept(NextHistory(h, s, size))
    ensures h.fetched.Some? && !s.Stop? ==> NextHistory(h, s, size).fetched.Some?
  {
    var m := h.m;
    StepSafe(m, s, size);
    hide Num, Highest, Sent, Claimed, Received, Posted, Rejected, Safe;
    match s
    case Process(i) =>
      if Fetches(m, s) {
        FetchKeeps(h, i, size);
      } else if m.run {
        ProcessedKeeps(m, i, size);
        hide Processed;
      }
    case Respond(f) => SentKeeps(m, f);
    case Claim => SentKeeps(m, ErrorFrame(0));
    case Consume(_, _) =>
    case Reject => RejectedKeeps(m);
    case Load(_, _, _) =>
    case Start =>
    case Stop =>
  }

  lemma FetchKeeps(h: History, i: Input, size: nat)
    requires Kept(h) && Fetches(h.m, Process(i))
    ensures var r := Processed(h.m, i, size);
            r.outpost == 0 && r.backup == h.m.outpost && r.buf == h.m.buf
  {
  }

  /**
   What a repeat request is answered with: the message fetched last if there
   is one, whether or not another one is posted. With a posted message but none
   fetched yet, it is the content of the receive buffer; with neither, nothing
   is sent and the request stays open.
   */
  lemma RepeatAnswer(h: History, i: Input, size: nat)
    requires Kept(h) && Repeats(h.m, Process(i))
    ensures var r := Processed(h.m, i, size);
            if h.fetched.Some? then r.wire == h.m.wire + [h.fetched.value] && r.toggle == h.m.repeat
            else if h.m.outpost != 0 then r.wire == h.m.wire + [h.m.buf[0]] && r.toggle == h.m.repeat
            else r.wire == h.m.wire && r.toggle == h.m.toggle
  {
  }

  lemma KeptInitially(m: Mbx)
    requires Shaped(m)
    ensures Kept(History(Stopped(m), None, None))
  {
    SafeInitially(m);
  }

  function RunHistory(h: History, steps: seq<Step>, size: nat): History
    requires Shaped(h.m)
    decreases |steps|
  {
    if steps == [] then h else RunHistory(NextHistory(h, steps[0], size), steps[1..], size)
  }

  /** In every run from the start of the mailboxes; and once a message was fetched, only a stop takes it away. */
  lemma {:induction false} RunKeeps(h: History, steps: seq<Step>, size: nat)
    requires Kept(h)
    ensures Kept(RunHistory(h, steps, size))
    ensures h.fetched.Some? && Stop !in steps ==> RunHistory(h, steps, size).fetched.Some?
    decreases |steps|
  {
    assert Shaped(h.m);
    hide Kept, NextHistory;
    if steps != [] {
      StepKeeps(h, steps[0], size);
      RunKeeps(NextHistory(h, steps[0], size), steps[1..], size);
    }
  }

  lemma RunKeepsFromStart(m: Mbx, steps: seq<Step>, size: nat)
    requires Shaped(m)
    ensures Kept(RunHistory(History(Stopped(m), None, None), steps, size))
  {
    KeptInitially(m);
    RunKeeps(History(Stopped(m), None, None), steps, size);
  }

  lemma {:induction false} HistoryIsRun(h: History, steps: seq<Step>, size: nat)
    requires Shaped(h.m)
    ensures RunHistory(h, steps, size).m == Run(h.m, steps, size)
    decreases |steps|
  {
    hide Next;
    if steps != [] { HistoryIsRun(NextHistory(h, steps[0], size), steps[1..], size); }
  }
}
