/**
 What the CoE server does to the mailbox buffers: whatever the request, it
 claims and queues answers and releases or keeps the inbox. All properties of
 runs of the buffers therefore hold of the server.
 */
module CoeMailbox {
  import opened ObjectDictionary
  import opened Mailbox
  import opened MailboxRuns
  import opened MailboxBackup
  import opened SdoTransfer
  import opened CompleteAccess
  import opened ObjectList
  import opened CoeHandlers
  import opened CoeAnswers

  predicate IsServerStep(s: Step) {
    s.Respond? || s.Claim? || s.Consume?
  }

  /** These steps of a protocol server lead from m to r. */
  ghost predicate Serve(m: Mbx, r: Mbx, steps: seq<Step>, size: nat) {
    Shaped(m) && (forall k | 0 <= k < |steps| :: IsServerStep(steps[k])) && r == Run(m, steps, size)
  }

  ghost predicate ByServer(m: Mbx, r: Mbx, size: nat) {
    exists steps :: Serve(m, r, steps, size)
  }

  lemma {:induction false} RunJoin(m: Mbx, a: seq<Step>, b: seq<Step>, size: nat)
    requires Shaped(m)
    ensures LikeShaped(Run(m, a, size), m)
    ensures Run(m, a + b, size) == Run(Run(m, a, size), b, size)
    decreases |a|
  {
    hide Next;
    if a == [] {
      assert a + b == b;
    } else {
      RunJoin(Next(m, a[0], size), a[1..], b, size);
      assert (a + b)[0] == a[0] && (a + b)[1..] == a[1..] + b;
    }
  }

  lemma NothingServed(m: Mbx, size: nat)
    requires Shaped(m)
    ensures ByServer(m, m, size)
  {
    assert Serve(m, m, [], size);
  }

  /** One more step. */
  lemma Served(m: Mbx, r: Mbx, s: Step, size: nat)
    requires ByServer(m, r, size) && IsServerStep(s)
    ensures LikeShaped(r, m) && ByServer(m, Next(r, s, size), size)
  {
    hide Next;
    var steps :| Serve(m, r, steps, size);
    RunJoin(m, steps, [s], size);
    assert [s][1..] == [];
    assert Serve(m, Next(r, s, size), steps + [s], size);
  }

  lemma ServedOne(m: Mbx, s: Step, size: nat)
    requires Shaped(m) && IsServerStep(s)
    ensures ByServer(m, Next(m, s, size), size)
  {
    NothingServed(m, size);
    Served(m, m, s, size);
  }

  lemma ServedTwice(m: Mbx, r: Mbx, t: Mbx, size: nat)
    requires ByServer(m, r, size) && ByServer(r, t, size)
    ensures ByServer(m, t, size)
  {
    var a :| Serve(m, r, a, size);
    var b :| Serve(r, t, b, size);
    RunJoin(m, a, b, size);
    assert Serve(m, t, a + b, size);
  }

  // The handlers

  lemma ReleaseServed(m: Mbx, t: Server, size: nat)
    requires ByServer(m, t.mbx, size)
    ensures Shaped(t.mbx) && ByServer(m, Released(t).mbx, size)
  {
    Served(m, t.mbx, Consume(true, 0), size);
  }

  /** An answer if there is a buffer, and the inbox released. */
  lemma AnswerServed(s: Server, t: Server, size: nat)
    requires Shaped(s.mbx) && (t.mbx == s.mbx || SentOne(s.mbx, t.mbx))
    ensures Shaped(t.mbx) && ByServer(s.mbx, Released(t).mbx, size)
  {
    hide ByServer;
    if t.mbx == s.mbx {
      NothingServed(s.mbx, size);
    } else {
      var f: Frame :| t.mbx == Sent(s.mbx, f);
      ServedOne(s.mbx, Respond(f), size);
    }
    ReleaseServed(s.mbx, t, size);
  }

  lemma UploadAllServes(d: Dictionary, s: Server, state: nat, dsize: nat)
    requires CanServe(d, s, dsize)
    ensures var t := UploadAllTried(d, s, state, dsize).mbx; t == s.mbx || SentOne(s.mbx, t)
  {
    if FreeBuffer(s.mbx) > 0 {
      UploadAllSends(d, s, state, dsize);
    } else {
      hide Highest, BlockSent, Serviceable, Lookup, LoopSize, CompleteRefused;
    }
  }

  /** A segment that is refused leaves one buffer claimed, and the refusal goes out in another. */
  lemma SegmentServes(d: Dictionary, s: Server, state: nat, dsize: nat)
    requires CanSegment(d, s)
    ensures ByServer(s.mbx, SdoDownloadSegment(d, s, state).mbx, dsize)
  {
    hide ByServer, CanSpread, Spread, SpreadRefused, SegmentStored, Claimed, Queued, Highest, FreeBuffer, Sent;
    if FreeBuffer(s.mbx) == 0 {
      NothingServed(s.mbx, dsize);
      ReleaseServed(s.mbx, s, dsize);
    } else {
      ClaimedCanSegment(d, s);
      var n := FreeBuffer(s.mbx);
      var c := s.(mbx := Claimed(s.mbx));
      var t := SegmentAnswered(d, c, state, n);
      SegmentAnswerServed(d, s, c, t, state, n, dsize);
      ReleaseServed(s.mbx, t, dsize);
    }
  }

  lemma SegmentAnswerServed(d: Dictionary, s: Server, c: Server, t: Server, state: nat, n: nat, dsize: nat)
    requires CanSegment(d, s) && c == s.(mbx := Claimed(s.mbx)) && CanSegment(d, c) && n == FreeBuffer(s.mbx) > 0
    requires t == SegmentAnswered(d, c, state, n)
    ensures ByServer(s.mbx, t.mbx, dsize)
  {
    hide ByServer, WellFormed, CanSpread, Spread, SpreadRefused, SegmentStored, Claimed, Queued, Highest, Sent;
    var code := SpreadRefused(d, SegmentStored(c));
    if code != 0 {
      ServedOne(s.mbx, Claim, dsize);
      Served(s.mbx, c.mbx, Respond(AbortFrame(s.sess.index, s.sess.subindex, code)), dsize);
    } else {
      SentIs(s.mbx, SegmentResponse(Command(c.mbx.buf[0])));
      ServedOne(s.mbx, Respond(SegmentResponse(Command(c.mbx.buf[0]))), dsize);
    }
  }

  lemma AnsweredServes(s: Server, f: Frame, size: nat)
    requires Shaped(s.mbx)
    ensures ByServer(s.mbx, Answered(s, f).mbx, size)
  {
    hide ByServer, Sent;
    NothingServed(s.mbx, size);
    if FreeBuffer(s.mbx) > 0 {
      ServedOne(s.mbx, Respond(f), size);
      ReleaseServed(s.mbx, Replied(s, f), size);
    }
  }

  lemma ListRequestServes(d: Dictionary, s: Server, dsize: nat)
    requires Shaped(s.mbx) && IsRequest(s.mbx.buf[0]) && 11 <= dsize < 0x1_0000 && 1 < |d| <= 0x1_0000
    ensures ByServer(s.mbx, SdoGetOdList(d, s, dsize).mbx, dsize)
  {
    FragmentCount(Entries(d), dsize);
    FirstBounds(Entries(d), dsize);
    hide ByServer, Sent, Claimed, Queued, FirstFragment, CountFrame, InfoError, Listed, Fragments;
    var s1 := s.(entries := Entries(d));
    if SizeField(s.mbx.buf[0]) > 1 {
      AnsweredServes(s1, InfoError(ABORT_UNSUPPORTED), dsize);
    } else if FreeBuffer(s.mbx) > 0 {
      var f := if SizeField(s.mbx.buf[0]) == 0 then CountFrame(Entries(d))
               else FirstFragment(Listed(d, 0, FirstCount(Entries(d), dsize)), Fragments(Entries(d), dsize));
      SentIs(s.mbx, f);
      ServedOne(s.mbx, Respond(f), dsize);
      ReleaseServed(s.mbx, s1.(mbx := Sent(s.mbx, f)), dsize);
      Served(s.mbx, Sent(s.mbx, f), Consume(false, MBXCOE + MBXODL), dsize);
    } else {
      NothingServed(s.mbx, dsize);
    }
  }

  lemma ListContServes(d: Dictionary, s: Server, dsize: nat)
    requires Shaped(s.mbx) && 11 <= dsize < 0x1_0000 && Listing(d, s, dsize)
    ensures ByServer(s.mbx, SdoGetOdListCont(d, s, dsize).mbx, dsize)
  {
    hide ByServer, Sent, NextFragment, Listed, Fragments, NextFrom, NextTo;
    NextBounds(s.entries, s.sess.frags, s.sess.fragsleft, dsize);
    NothingServed(s.mbx, dsize);
    if FreeBuffer(s.mbx) > 0 {
      var f := NextFragment(Listed(d, NextFrom(s.sess.frags, s.sess.fragsleft, dsize),
                                   NextTo(s.entries, s.sess.frags, s.sess.fragsleft, dsize)), s.sess.fragsleft);
      ServedOne(s.mbx, Respond(f), dsize);
      ReleaseServed(s.mbx, s.(sess := s.sess.(fragsleft := s.sess.fragsleft - 1), mbx := Sent(s.mbx, f)), dsize);
    }
  }

  lemma UploadSegServes(s: Server, dsize: nat)
    requires Shaped(s.mbx) && IsRequest(s.mbx.buf[0]) && 11 <= dsize < 0x1_0000 && CanSend(s)
    ensures ByServer(s.mbx, SdoUploadSegment(s, dsize).mbx, dsize)
  {
    hide ByServer, SegmentReply;
    var (t, f) := SegmentReply(Command(s.mbx.buf[0]), s.sess, Source(s.sess.data, s.st, s.block), dsize);
    AnswerServed(s, Replied(s.(sess := t), f), dsize);
    AnswerServed(s, s, dsize);
  }

  lemma DownloadServes(d: Dictionary, s: Server, state: nat, dsize: nat)
    requires CanDownload(d, s, dsize)
    ensures ByServer(s.mbx, SdoDownload(d, s, state, dsize).mbx, dsize)
  {
    hide ByServer, Lookup, Serviceable;
    AnswerServed(s, DownloadTried(d, s, state, dsize), dsize);
  }

  lemma DownloadAllServes(d: Dictionary, s: Server, state: nat, dsize: nat)
    requires CanDownloadComplete(d, s, dsize)
    ensures ByServer(s.mbx, SdoDownloadComplete(d, s, state, dsize).mbx, dsize)
  {
    hide ByServer, Lookup, Serviceable, ObjectStored;
    AnswerServed(s, DownloadAllTried(d, s, state, dsize), dsize);
  }

  lemma HandledServes(d: Dictionary, s: Server, state: nat, dsize: nat, text: Frame)
    requires CanHandle(d, s, dsize)
    ensures ByServer(s.mbx, Handled(d, s, state, dsize, text).mbx, dsize)
  {
    hide ByServer, SdoUploadSegment, SdoDownload, SdoDownloadComplete, SdoDownloadSegment, SdoGetOdList;
    NothingServed(s.mbx, dsize);
    match KindOf(s.mbx.buf[0], s.sess.segmented)
    case UploadOne => AnswerServed(s, UploadTried(d, s, state, dsize), dsize);
    case UploadAll =>
      UploadAllServes(d, s, state, dsize);
      AnswerServed(s, UploadAllTried(d, s, state, dsize), dsize);
    case UploadSeg => UploadSegServes(s, dsize);
    case DownloadOne => DownloadServes(d, s, state, dsize);
    case DownloadAll => DownloadAllServes(d, s, state, dsize);
    case DownloadSeg => SegmentServes(d, s, state, dsize);
    case Unmatched =>
    case ObjectListing => ListRequestServes(d, s, dsize);
    case Description => AnsweredServes(s, text, dsize);
    case NoService => AnswerServed(s, Replied(s, ErrorFrame(MBXERR_INVALIDHEADER)), dsize);
    case Unknown => AnswerServed(s, Aborted(s, ABORT_UNSUPPORTED), dsize);
  }

  /** One call of the CoE server is a few steps of a protocol server on the buffers. */
  lemma CoeProcessServes(d: Dictionary, s: Server, state: nat, dsize: nat, text: Frame)
    requires CanProcess(d, s, dsize)
    ensures ByServer(s.mbx, CoeProcess(d, s, state, dsize, text).mbx, dsize)
  {
    hide ByServer, Handled, SdoGetOdListCont, Sent, CanHandle, Listing;
    NothingServed(s.mbx, dsize);
    if s.mbx.run {
      ServedOne(s.mbx, Respond(ErrorFrame(MBXERR_INVALIDSIZE)), dsize);
      ServedOne(s.mbx, Consume(false, MBXCOE), dsize);
      var s1 := TakenOn(s);
      ContinuedAsTaken(d, s, dsize);
      if ContinuesList(s1) {
        ListContServes(d, s1, dsize);
        ServedTwice(s.mbx, s1.mbx, SdoGetOdListCont(d, s1, dsize).mbx, dsize);
      } else if s1.mbx.xoe == MBXCOE {
        HandledServes(d, s1, state, dsize, text);
        ServedTwice(s.mbx, s1.mbx, Handled(d, s1, state, dsize, text).mbx, dsize);
      }
    }
  }

  // What that means for the buffers

  /** In order, none lost if none was lost before, and the posted and the backup buffer as they were. */
  ghost predicate StaysInOrder(m: Mbx, r: Mbx) {
    (Safe(m) ==> Safe(r) && SameInUse(m, r)) && (Conserving(m) ==> Conserving(r))
  }

  lemma ServerStepInOrder(m: Mbx, s: Step, size: nat)
    requires Safe(m) && IsServerStep(s)
    ensures Safe(Next(m, s, size)) && SameInUse(m, Next(m, s, size))
    ensures Conserving(m) ==> Conserving(Next(m, s, size))
  {
    StepSafe(m, s, size);
    assert Shaped(m);
    hide Safe, Conserving, Sent, Claimed;
    match s
    case Respond(f) => SentKeeps(m, f);
    case Claim => SentKeeps(m, ErrorFrame(0));
    case Consume(_, _) =>
  }

  lemma {:induction false} ServerStepsInOrder(m: Mbx, steps: seq<Step>, size: nat)
    requires Safe(m) && forall k | 0 <= k < |steps| :: IsServerStep(steps[k])
    ensures var r := Run(m, steps, size);
            Safe(r) && SameInUse(m, r) && (Conserving(m) ==> Conserving(r))
    decreases |steps|
  {
    assert Shaped(m);
    hide Safe, Conserving, Next;
    if steps != [] {
      ServerStepInOrder(m, steps[0], size);
      ServerStepsInOrder(Next(m, steps[0], size), steps[1..], size);
    }
  }

  /**
   One call of the CoE server keeps the buffers in order: the queue counter is
   exact, buffer 0 only receives, the backup and the posted buffer are not
   touched, and none is lost.
   */
  lemma CoeProcessInOrder(d: Dictionary, s: Server, state: nat, dsize: nat, text: Frame)
    requires CanProcess(d, s, dsize)
    ensures StaysInOrder(s.mbx, CoeProcess(d, s, state, dsize, text).mbx)
  {
    CoeProcessServes(d, s, state, dsize, text);
    var r := CoeProcess(d, s, state, dsize, text).mbx;
    hide Safe, Conserving, CoeProcess, Run;
    var steps :| Serve(s.mbx, r, steps, dsize);
    if Safe(s.mbx) { ServerStepsInOrder(s.mbx, steps, dsize); }
    assert Conserving(s.mbx) ==> Safe(s.mbx) by { ConservingSafe(s.mbx); }
  }

  lemma ConservingSafe(m: Mbx)
    ensures Conserving(m) ==> Safe(m)
  {
  }

  lemma HandledListing(d: Dictionary, s: Server, state: nat, dsize: nat, text: Frame)
    requires CanHandle(d, s, dsize) && s.mbx.xoe == MBXCOE
    ensures var t := Handled(d, s, state, dsize, text);
            t.mbx.xoe in {0, MBXCOE} || (t.mbx.xoe == MBXCOE + MBXODL && Listing(d, t, dsize))
  {
    hide UploadTried, UploadAllTried, DownloadTried, DownloadAllTried, SegmentAnswered, Sent, Listing, SegmentReply,
      CanSend, CanDownload, CanDownloadComplete, CanSegment, SdoGetOdList, ErrorFrame, Aborted;
    if KindOf(s.mbx.buf[0], s.sess.segmented).ObjectListing? {
      ListingStarts(d, s, dsize);
    }
  }

  lemma ListingStarts(d: Dictionary, s: Server, dsize: nat)
    requires CanRead(d, s, dsize) && 1 < |d| <= 0x1_0000 && s.mbx.xoe == MBXCOE
    ensures var t := SdoGetOdList(d, s, dsize);
            t.mbx.xoe in {0, MBXCOE} || (t.mbx.xoe == MBXCOE + MBXODL && Listing(d, t, dsize))
  {
    if FreeBuffer(s.mbx) > 0 {
      ListOutcome(d, s, dsize);
    }
    hide Highest, Fragments, FirstFragment, CountFrame, Listed, CanRead;
    FragmentCount(Entries(d), dsize);
  }

  /** A list being sent stays countable until its last fragment frees the inbox. */
  lemma ListingKept(d: Dictionary, s: Server, state: nat, dsize: nat, text: Frame)
    requires CanProcess(d, s, dsize) && ListInOrder(d, s, dsize)
    ensures ListInOrder(d, CoeProcess(d, s, state, dsize, text), dsize)
  {
    hide Handled, SdoGetOdListCont, Sent, CanHandle, Listing, ErrorFrame;
    if s.mbx.run {
      SentKeepsTransfer(s.mbx, ErrorFrame(MBXERR_INVALIDSIZE));
      ContinuedAsTaken(d, s, dsize);
      var s1 := TakenOn(s);
      if ContinuesList(s1) {
        if FreeBuffer(s1.mbx) > 0 { ListContinues(d, s1, dsize); } else { ListWaits(d, s1, dsize); }
      } else if s1.mbx.xoe == MBXCOE {
        HandledListing(d, s1, state, dsize, text);
      }
    }
  }

  lemma ListWaits(d: Dictionary, s: Server, dsize: nat)
    requires Shaped(s.mbx) && 11 <= dsize < 0x1_0000 && Listing(d, s, dsize) && FreeBuffer(s.mbx) == 0
    ensures SdoGetOdListCont(d, s, dsize) == s
  {
  }
}
