/**
 What the CoE server owes its master: one answer for every request, lists that
 come to an end, and writes to writable entries only.
 */
module CoeAnswers {
  import opened Words
  import opened Bytes
  import opened ObjectDictionary
  import opened Mailbox
  import opened SdoTransfer
  import opened CompleteAccess
  import opened ObjectList
  import opened CoeHandlers

  /** Exactly one buffer, n, goes from idle to queued, and the inbox is free. */
  ghost predicate OneAnswer(m: Mbx, r: Mbx, n: nat) {
    && Shaped(m) && Shaped(r) && 0 < n < |m.control| && m.control[n] == Idle
    && r.control == m.control[n := Outreq][0 := Idle] && r.xoe == 0 && r.txcue == m.txcue + 1
  }

  ghost predicate SentOne(m: Mbx, r: Mbx)
    requires Shaped(m)
  {
    exists f: Frame :: r == Sent(m, f)
  }

  lemma SentThenReleased(s: Server, t: Server)
    requires Shaped(s.mbx) && FreeBuffer(s.mbx) > 0 && Shaped(t.mbx) && SentOne(s.mbx, t.mbx)
    ensures OneAnswer(s.mbx, Released(t).mbx, FreeBuffer(s.mbx))
  {
    hide Highest;
  }

  lemma EntryUploadedSends(e: Entry, s: Server, state: nat, dsize: nat)
    requires Shaped(s.mbx) && IsRequest(s.mbx.buf[0]) && 11 <= dsize < 0x1_0000 && Backed(e, s.st)
    requires FreeBuffer(s.mbx) > 0
    ensures SentOne(s.mbx, EntryUploaded(e, s, state, dsize).mbx)
  {
    hide Highest, Sent, UploadReply;
    if ReadAccess(e.flags, state) {
      var r := s.mbx.buf[0];
      var (t, f) := UploadReply(IndexOf(r), SubindexOf(r), e, Content(e, s.st), s.sess, dsize);
      assert EntryUploaded(e, s, state, dsize).mbx == Sent(s.mbx, f);
    } else {
      assert EntryUploaded(e, s, state, dsize).mbx == Aborted(s, ABORT_WRITEONLY).mbx;
    }
  }

  lemma UploadSends(d: Dictionary, s: Server, state: nat, dsize: nat)
    requires CanServe(d, s, dsize) && FreeBuffer(s.mbx) > 0
    ensures SentOne(s.mbx, UploadTried(d, s, state, dsize).mbx)
  {
    var r := s.mbx.buf[0];
    var f := Lookup(d, IndexOf(r), SubindexOf(r));
    hide Highest, Sent, EntryUploaded, Serviceable, Lookup;
    if f.Found? { EntryUploadedSends(d[f.o].entries[f.n], s, state, dsize); }
  }

  /** A complete upload that is not refused sends the first part of the block. */
  lemma ObjectUploadedFrame(o: Object, nsub: nat, s: Server, state: nat, dsize: nat) returns (f: Frame)
    requires Shaped(s.mbx) && IsRequest(s.mbx.buf[0]) && 11 <= dsize < 0x1_0000
    requires Loadable(o, s.st) && nsub < |o.entries| && FreeBuffer(s.mbx) > 0
    requires ObjectBytes(o, nsub) <= 0xFFFF && !BlockTooBig(ObjectBytes(o, nsub), s)
    ensures ObjectUploaded(o, nsub, s, state, dsize).mbx == Sent(s.mbx, f)
    ensures |f.body| > 2 && f.body[2] < COE_COMMAND_SDOABORT
  {
    var bits := LoopSize(o, nsub, 0);
    var n := FreeBuffer(s.mbx);
    var w := LoopResult(o, state, nsub, Upload, 0, Work(s.block, s.st));
    f := BlockReply(IndexOf(s.mbx.buf[0]), SubindexOf(s.mbx.buf[0]), bits, w.block, s.sess, dsize).1;
    SentIs(s.mbx, f);
    hide Sent, LoopResult, LoopSize, Highest, Claimed, Queued;
    assert |f.body| > 2 && f.body[2] < COE_COMMAND_SDOABORT;
    hide BlockReply;
    assert BlockSent(o, nsub, s.(mbx := Claimed(s.mbx)), n, bits, state, dsize).mbx == Sent(s.mbx, f) by {
      ClaimedKeepsInbox(s.mbx);
    }
  }

  lemma ObjectUploadedSends(o: Object, nsub: nat, s: Server, state: nat, dsize: nat)
    requires Shaped(s.mbx) && IsRequest(s.mbx.buf[0]) && 11 <= dsize < 0x1_0000
    requires Loadable(o, s.st) && nsub < |o.entries| && FreeBuffer(s.mbx) > 0
    ensures SentOne(s.mbx, ObjectUploaded(o, nsub, s, state, dsize).mbx)
  {
    if ObjectBytes(o, nsub) <= 0xFFFF && !BlockTooBig(ObjectBytes(o, nsub), s) {
      var _ := ObjectUploadedFrame(o, nsub, s, state, dsize);
    } else {
      hide Sent, LoopResult, LoopSize, BlockSent, Highest;
    }
  }

  lemma SentIs(m: Mbx, f: Frame)
    requires Shaped(m) && FreeBuffer(m) > 0
    ensures Sent(m, f) == Queued(Claimed(m), FreeBuffer(m), f)
  {
  }

  lemma ClaimedKeepsInbox(m: Mbx)
    requires Shaped(m)
    ensures Claimed(m).buf[0] == m.buf[0]
  {
    hide Highest;
  }

  lemma UploadAllSends(d: Dictionary, s: Server, state: nat, dsize: nat)
    requires CanServe(d, s, dsize) && FreeBuffer(s.mbx) > 0
    ensures SentOne(s.mbx, UploadAllTried(d, s, state, dsize).mbx)
  {
    var r := s.mbx.buf[0];
    var f := Lookup(d, IndexOf(r), SubindexOf(r));
    if CompleteRefused(d, IndexOf(r), SubindexOf(r)) == 0 { ObjectUploadedSends(d[f.o], f.n, s, state, dsize); }
    hide Highest, Sent, ObjectUploaded, Serviceable, Lookup;
  }

  lemma UploadAnswered(d: Dictionary, s: Server, state: nat, dsize: nat)
    requires CanServe(d, s, dsize) && FreeBuffer(s.mbx) > 0
    ensures OneAnswer(s.mbx, SdoUpload(d, s, state, dsize).mbx, FreeBuffer(s.mbx))
  {
    hide OneAnswer, Highest;
    UploadSends(d, s, state, dsize);
    SentThenReleased(s, UploadTried(d, s, state, dsize));
  }

  lemma UploadAllAnswered(d: Dictionary, s: Server, state: nat, dsize: nat)
    requires CanServe(d, s, dsize) && FreeBuffer(s.mbx) > 0
    ensures OneAnswer(s.mbx, SdoUploadComplete(d, s, state, dsize).mbx, FreeBuffer(s.mbx))
  {
    hide OneAnswer, Highest;
    UploadAllSends(d, s, state, dsize);
    SentThenReleased(s, UploadAllTried(d, s, state, dsize));
  }

  lemma UploadSegAnswered(s: Server, dsize: nat)
    requires Shaped(s.mbx) && IsRequest(s.mbx.buf[0]) && 11 <= dsize < 0x1_0000 && CanSend(s) && FreeBuffer(s.mbx) > 0
    ensures OneAnswer(s.mbx, SdoUploadSegment(s, dsize).mbx, FreeBuffer(s.mbx))
  {
    hide OneAnswer, Highest;
    var (t, f) := SegmentReply(Command(s.mbx.buf[0]), s.sess, Source(s.sess.data, s.st, s.block), dsize);
    SentThenReleased(s, Replied(s.(sess := t), f));
  }

  lemma DownloadAnswered(d: Dictionary, s: Server, state: nat, dsize: nat)
    requires CanDownload(d, s, dsize) && FreeBuffer(s.mbx) > 0
    ensures OneAnswer(s.mbx, SdoDownload(d, s, state, dsize).mbx, FreeBuffer(s.mbx))
  {
    hide OneAnswer, Highest, Serviceable, Lookup;
    SentThenReleased(s, DownloadTried(d, s, state, dsize));
  }

  lemma DownloadAllAnswered(d: Dictionary, s: Server, state: nat, dsize: nat)
    requires CanDownloadComplete(d, s, dsize) && FreeBuffer(s.mbx) > 0
    ensures OneAnswer(s.mbx, SdoDownloadComplete(d, s, state, dsize).mbx, FreeBuffer(s.mbx))
  {
    hide OneAnswer, Highest, Serviceable, Lookup, ObjectStored;
    SentThenReleased(s, DownloadAllTried(d, s, state, dsize));
  }

  /** What becomes of a request, once a buffer is free. */
  ghost predicate Outcome(d: Dictionary, s: Server, t: Server, dsize: nat)
    requires CanHandle(d, s, dsize)
  {
    var n := FreeBuffer(s.mbx);
    var kind := KindOf(s.mbx.buf[0], s.sess.segmented);
    var list := SizeField(s.mbx.buf[0]);
    if kind.Unmatched? then t == s
    else if kind.DownloadSeg? && SpreadRefused(d, SegmentStored(s)) != 0 then LeavesClaimed(s.mbx, t.mbx, n)
    else if kind.ObjectListing? && list == 1 && Fragments(Entries(d), dsize) > 1 then
      t.mbx.control == s.mbx.control[n := Outreq] && t.mbx.xoe == MBXCOE + MBXODL
    else OneAnswer(s.mbx, t.mbx, n)
  }

  /** The buffer claimed first stays claimed; the abort goes out in another one, if there is one. */
  ghost predicate LeavesClaimed(m: Mbx, r: Mbx, n: nat)
    requires Shaped(m) && n < |m.control|
  {
    var k := FreeBuffer(Claimed(m));
    && r.control == (if k == 0 then m.control[n := Outclaim] else m.control[n := Outclaim][k := Outreq])[0 := Idle]
    && k != n && r.xoe == 0
  }

  lemma SegmentOutcome(d: Dictionary, s: Server, state: nat)
    requires CanSegment(d, s) && FreeBuffer(s.mbx) > 0
    ensures var t := SdoDownloadSegment(d, s, state);
            if SpreadRefused(d, SegmentStored(s)) != 0 then LeavesClaimed(s.mbx, t.mbx, FreeBuffer(s.mbx))
            else OneAnswer(s.mbx, t.mbx, FreeBuffer(s.mbx))
  {
    ClaimedCanSegment(d, s);
    var c := s.(mbx := Claimed(s.mbx));
    var s1 := SegmentStored(c);
    assert SpreadRefused(d, s1) == SpreadRefused(d, SegmentStored(s)) by { hide Highest, Lookup; }
    hide Highest, SegmentStored, SpreadRefused, Spread, SegmentTaken, CanSpread, CanTake;
  }

  lemma ListOutcome(d: Dictionary, s: Server, dsize: nat)
    requires Shaped(s.mbx) && IsRequest(s.mbx.buf[0]) && 11 <= dsize < 0x1_0000 && 1 < |d| <= 0x1_0000
    requires FreeBuffer(s.mbx) > 0
    ensures var t := SdoGetOdList(d, s, dsize);
            var n := FreeBuffer(s.mbx);
            if SizeField(s.mbx.buf[0]) == 1 && Fragments(Entries(d), dsize) > 1 then
              t.mbx.control == s.mbx.control[n := Outreq] && t.mbx.xoe == MBXCOE + MBXODL && Listing(d, t, dsize)
            else OneAnswer(s.mbx, t.mbx, n)
  {
    var n := FreeBuffer(s.mbx);
    var frags := Fragments(Entries(d), dsize);
    FragmentCount(Entries(d), dsize);
    FirstBounds(Entries(d), dsize);
    if SizeField(s.mbx.buf[0]) > 1 {
      SentThenReleased(s.(entries := Entries(d)), Replied(s.(entries := Entries(d)), InfoError(ABORT_UNSUPPORTED)));
    } else if SizeField(s.mbx.buf[0]) == 0 {
      QueuedThenReleased(s, n, CountFrame(Entries(d)));
    } else {
      var f := FirstFragment(Listed(d, 0, FirstCount(Entries(d), dsize)), frags);
      QueuedThenReleased(s, n, f);
      hide Highest, Fragments, FirstFragment, Listed, FirstCount, Claimed;
    }
  }

  lemma QueuedThenReleased(s: Server, n: nat, f: Frame)
    requires Shaped(s.mbx) && n == FreeBuffer(s.mbx) > 0
    ensures OneAnswer(s.mbx, InboxDropped(Queued(Claimed(s.mbx), n, f)).(xoe := 0), n)
  {
    SentIs(s.mbx, f);
    SentThenReleased(s, Replied(s, f));
  }

  /**
   Every request the dispatcher recognises is answered by one queued message,
   and the inbox is free again. The exceptions: a list that needs more
   fragments holds the inbox, the last segment of a refused complete access
   leaves a buffer claimed, and SDO requests with an unknown command are not
   answered at all.
   */
  lemma OneResponse(d: Dictionary, s: Server, state: nat, dsize: nat, text: Frame)
    requires CanHandle(d, s, dsize) && FreeBuffer(s.mbx) > 0
    ensures Outcome(d, s, Handled(d, s, state, dsize, text), dsize)
  {
    hide SdoUpload, SdoUploadComplete, SdoUploadSegment, SdoDownload, SdoDownloadComplete, SdoDownloadSegment, SdoGetOdList,
      OneAnswer;
    match KindOf(s.mbx.buf[0], s.sess.segmented)
    case UploadOne => UploadAnswered(d, s, state, dsize);
    case UploadAll => UploadAllAnswered(d, s, state, dsize);
    case UploadSeg => UploadSegAnswered(s, dsize);
    case DownloadOne => DownloadAnswered(d, s, state, dsize);
    case DownloadAll => DownloadAllAnswered(d, s, state, dsize);
    case DownloadSeg => SegmentOutcome(d, s, state);
    case Unmatched =>
    case ObjectListing => ListOutcome(d, s, dsize);
    case Description => SentThenReleased(s, Replied(s, text));
    case NoService => SentThenReleased(s, Replied(s, ErrorFrame(MBXERR_INVALIDHEADER)));
    case Unknown => SentThenReleased(s, Aborted(s, ABORT_UNSUPPORTED));
  }

  /** A message too short for CoE is answered twice: by this server, and as an unknown protocol. */
  lemma ShortMessage(d: Dictionary, s: Server, state: nat, dsize: nat, text: Frame)
    requires CanProcess(d, s, dsize) && s.mbx.run && s.mbx.xoe == 0 && s.mbx.control[0] == Inclaim
    requires s.mbx.buf[0].mtype == MBXCOE && s.mbx.buf[0].length < COE_MINIMUM_LENGTH
    ensures var m := CoeProcess(d, s, state, dsize, text).mbx;
            && m == Sent(s.mbx, ErrorFrame(MBXERR_INVALIDSIZE))
            && Rejected(m) == InboxDropped(Sent(m, ErrorFrame(
                 if s.mbx.buf[0].length == 0 then MBXERR_INVALIDHEADER else MBXERR_UNSUPPORTEDPROTOCOL)))
  {
    SentKeepsTransfer(s.mbx, ErrorFrame(MBXERR_INVALIDSIZE));
    hide Sent, ErrorFrame, CanHandle, Listing;
  }

  // Objects of dynamic length

  /** What ABORT_CA_NOT_SUPPORTED becomes when it is taken for a number of bits and converted to bytes. */
  const ABORT_AS_BYTES: uint32 := 0x00C02001

  lemma DifferentAnswers(m: Mbx, f: Frame, g: Frame)
    requires Shaped(m) && FreeBuffer(m) > 0 && f.body != g.body
    ensures Sent(m, f) != Sent(m, g)
  {
    SentFrame(m, f);
    SentFrame(m, g);
    hide Sent, Highest;
  }

  lemma Le32Halves(v: uint32)
    ensures Le32(v) == Le16(v % 0x1_0000) + Le16(v / 0x1_0000)
  {
    var l, h: nat := v % 0x1_0000, v / 0x1_0000;
    var l0, l1 := l % 0x100, l / 0x100;
    var h0, h1 := h % 0x100, h / 0x100;
    assert v == 0x100 * (0x100 * h + l1) + l0;
    assert v / 0x100 == 0x100 * h + l1 && v % 0x100 == l0;
    assert v == 0x100_0000 * h1 + (0x1_0000 * h0 + l);
    assert v / 0x100_0000 == h1;
  }

  lemma Le32Differs(a: uint32, b: uint32)
    requires a != b
    ensures Le32(a) != Le32(b)
  {
    Le32Halves(a);
    Le32Halves(b);
    WordOfLe16(a % 0x1_0000);
    WordOfLe16(a / 0x1_0000);
    WordOfLe16(b % 0x1_0000);
    WordOfLe16(b / 0x1_0000);
    hide Le32;
    assert Le32(a)[..2] == Le16(a % 0x1_0000) && Le32(a)[2..] == Le16(a / 0x1_0000);
    assert Le32(b)[..2] == Le16(b % 0x1_0000) && Le32(b)[2..] == Le16(b / 0x1_0000);
  }

  lemma AbortsDiffer(s: Server, a: uint32, b: uint32)
    requires Shaped(s.mbx) && IsRequest(s.mbx.buf[0]) && FreeBuffer(s.mbx) > 0 && a != b
    ensures Aborted(s, a) != Aborted(s, b)
  {
    var f, g := AbortFrame(IndexOf(s.mbx.buf[0]), SubindexOf(s.mbx.buf[0]), a),
                AbortFrame(IndexOf(s.mbx.buf[0]), SubindexOf(s.mbx.buf[0]), b);
    hide Le32, Sent, Highest;
    Le32Differs(a, b);
    assert f.body[6..] == Le32(a) && g.body[6..] == Le32(b);
    DifferentAnswers(s.mbx, f, g);
  }

  /** An answer with another command is no abort. */
  lemma NoAbort(s: Server, t: Server, f: Frame, code: uint32)
    requires Shaped(s.mbx) && IsRequest(s.mbx.buf[0]) && FreeBuffer(s.mbx) > 0
    requires t.mbx == Sent(s.mbx, f) && |f.body| > 2 && f.body[2] != COE_COMMAND_SDOABORT
    ensures t != Aborted(s, code)
  {
    hide Sent, Highest;
    var g := AbortFrame(IndexOf(s.mbx.buf[0]), SubindexOf(s.mbx.buf[0]), code);
    assert g.body[2] == COE_COMMAND_SDOABORT;
    DifferentAnswers(s.mbx, f, g);
  }

  lemma {:induction false} ExtentBound(o: Object, k: nat, size: nat, max: nat)
    requires k <= |o.entries|
    ensures Extent(o, k, size, max) <= size + 0x1_0010 * (|o.entries| - k)
    decreases |o.entries| - k
  {
    if k < |o.entries| { ExtentBound(o, k + 1, After(o, k, size), max); }
  }

  /** Only for objects of dynamic length is the size the converted abort code. */
  lemma DynamicSize(o: Object, nsub: nat, st: Store)
    requires nsub < |o.entries| && Loadable(o, st)
    ensures IsDynamic(o) ==> ObjectBytes(o, nsub) == ABORT_AS_BYTES
    ensures !IsDynamic(o) ==> ObjectBytes(o, nsub) < 0x40_0000
  {
    if !IsDynamic(o) { ExtentBound(o, nsub, 0, 0); }
  }

  /** A complete upload is refused with this code, or answered by something that is no abort. */
  lemma UploadOutcome(o: Object, nsub: nat, s: Server, state: nat, dsize: nat) returns (code: uint32, f: Frame)
    requires Shaped(s.mbx) && IsRequest(s.mbx.buf[0]) && 11 <= dsize < 0x1_0000
    requires Loadable(o, s.st) && nsub < |o.entries| && FreeBuffer(s.mbx) > 0
    ensures ObjectBytes(o, nsub) > 0xFFFF ==> code == ObjectBytes(o, nsub) % 0x1_0000_0000
    ensures ObjectBytes(o, nsub) <= 0xFFFF ==> code in {0, ABORT_CA_NOT_SUPPORTED}
    ensures var t := ObjectUploaded(o, nsub, s, state, dsize);
            if ObjectBytes(o, nsub) > 0xFFFF || code != 0 then t == Aborted(s, code)
            else t.mbx == Sent(s.mbx, f) && |f.body| > 2 && f.body[2] < COE_COMMAND_SDOABORT
  {
    var size := ObjectBytes(o, nsub);
    code := if size > 0xFFFF then size % 0x1_0000_0000 else if BlockTooBig(size, s) then ABORT_CA_NOT_SUPPORTED else 0;
    f := ErrorFrame(0);
    if size <= 0xFFFF && code == 0 {
      f := ObjectUploadedFrame(o, nsub, s, state, dsize);
    }
    hide Sent, Loadable, LoopSize, Highest, BlockSent, Aborted;
  }

  /** A complete upload is refused with the converted abort code exactly for objects of dynamic length. */
  lemma DynamicUpload(o: Object, nsub: nat, s: Server, state: nat, dsize: nat)
    requires Shaped(s.mbx) && IsRequest(s.mbx.buf[0]) && 11 <= dsize < 0x1_0000
    requires Loadable(o, s.st) && nsub < |o.entries| && FreeBuffer(s.mbx) > 0
    ensures IsDynamic(o) <==> ObjectUploaded(o, nsub, s, state, dsize) == Aborted(s, ABORT_AS_BYTES)
  {
    hide Sent, ObjectBytes, Loadable, Highest, IsDynamic, Aborted, ObjectUploaded;
    DynamicSize(o, nsub, s.st);
    var code, f := UploadOutcome(o, nsub, s, state, dsize);
    if code != ABORT_AS_BYTES { AbortsDiffer(s, code, ABORT_AS_BYTES); }
    if ObjectBytes(o, nsub) <= 0xFFFF && code == 0 {
      NoAbort(s, ObjectUploaded(o, nsub, s, state, dsize), f, ABORT_AS_BYTES);
    }
  }

  /** A complete download is refused with this code, or answered by something that is no abort. */
  lemma DownloadOutcome(o: Object, nsub: nat, s: Server, state: nat, dsize: nat) returns (code: uint32, f: Frame)
    requires CanDownloadObject(o, nsub, s, dsize)
    ensures ObjectBytes(o, nsub) > 0xFFFF ==> code == ObjectBytes(o, nsub) % 0x1_0000_0000
    ensures ObjectBytes(o, nsub) <= 0xFFFF ==> code in {0, ABORT_TYPEMISMATCH, ABORT_CA_NOT_SUPPORTED}
    ensures var t := ObjectDownloaded(o, nsub, s, state, dsize);
            if ObjectBytes(o, nsub) > 0xFFFF || code != 0 then t == Aborted(s, code)
            else t.mbx == Sent(s.mbx, f) && |f.body| > 2 && f.body[2] < COE_COMMAND_SDOABORT
  {
    var r := s.mbx.buf[0];
    var size := ObjectBytes(o, nsub);
    code := if size > 0xFFFF then size % 0x1_0000_0000
            else if DownloadSize(r) > size then ABORT_TYPEMISMATCH
            else if Collects(r, dsize) && BlockTooBig(DownloadSize(r), s) then ABORT_CA_NOT_SUPPORTED
            else 0;
    f := DownloadResponse(IndexOf(r), SubindexOf(r), COE_COMMAND_DOWNLOADRESPONSE + COE_COMPLETEACCESS);
    hide ObjectStored, Sent, Loadable, CanLoad, LoopSize, AbortFrame, DownloadSize;
  }

  /** So is a complete download. */
  lemma DynamicDownload(o: Object, nsub: nat, s: Server, state: nat, dsize: nat)
    requires CanDownloadObject(o, nsub, s, dsize) && FreeBuffer(s.mbx) > 0
    ensures IsDynamic(o) <==> ObjectDownloaded(o, nsub, s, state, dsize) == Aborted(s, ABORT_AS_BYTES)
  {
    hide Sent, ObjectBytes, Loadable, Highest, IsDynamic, Aborted, CanLoad, ObjectDownloaded;
    DynamicSize(o, nsub, s.st);
    var code, f := DownloadOutcome(o, nsub, s, state, dsize);
    if code != ABORT_AS_BYTES { AbortsDiffer(s, code, ABORT_AS_BYTES); }
    if ObjectBytes(o, nsub) <= 0xFFFF && code == 0 {
      NoAbort(s, ObjectDownloaded(o, nsub, s, state, dsize), f, ABORT_AS_BYTES);
    }
  }

  // Lists

  /** While a list is being sent, the transfer variables count its fragments. */
  ghost predicate ListInOrder(d: Dictionary, s: Server, dsize: nat) {
    s.mbx.xoe == MBXCOE + MBXODL ==> Listing(d, s, dsize)
  }

  /** A continued list sends the next indexes, one fragment fewer is left, and the inbox is freed with the last one. */
  lemma ListContinues(d: Dictionary, s: Server, dsize: nat)
    requires Shaped(s.mbx) && 11 <= dsize < 0x1_0000 && Listing(d, s, dsize) && FreeBuffer(s.mbx) > 0
    requires s.mbx.xoe == MBXCOE + MBXODL
    ensures var t := SdoGetOdListCont(d, s, dsize);
            var n := FreeBuffer(s.mbx);
            var from := NextFrom(s.sess.frags, s.sess.fragsleft, dsize);
            var to := NextTo(s.entries, s.sess.frags, s.sess.fragsleft, dsize);
            && from < to <= Entries(d)
            && t.mbx.buf[n].body == ListHeader(s.sess.fragsleft > 1, s.sess.fragsleft - 1) + Encoded(Listed(d, from, to))
            && t.mbx.buf[n].length == |t.mbx.buf[n].body| <= dsize
            && t.sess.fragsleft == s.sess.fragsleft - 1
            && (if t.sess.fragsleft == 0 then OneAnswer(s.mbx, t.mbx, n)
                else t.mbx.control == s.mbx.control[n := Outreq] && t.mbx.xoe == s.mbx.xoe && Listing(d, t, dsize))
  {
    NextBounds(s.entries, s.sess.frags, s.sess.fragsleft, dsize);
    var n := FreeBuffer(s.mbx);
    var l := Listed(d, NextFrom(s.sess.frags, s.sess.fragsleft, dsize),
                    NextTo(s.entries, s.sess.frags, s.sess.fragsleft, dsize));
    var f := NextFragment(l, s.sess.fragsleft);
    SentFrame(s.mbx, f);
    SentThenReleased(s, Replied(s, f));
    hide Highest, Fragments, NextFrom, NextTo, Sent;
  }

  lemma SentFrame(m: Mbx, f: Frame)
    requires Shaped(m) && FreeBuffer(m) > 0
    ensures var r := Sent(m, f);
            && r.control == m.control[FreeBuffer(m) := Outreq] && r.xoe == m.xoe
            && r.buf[FreeBuffer(m)] == f.(cnt := r.cnt)
  {
    hide Highest;
  }

  // Single transfers, as the handlers serve them

  /** An upload of a readable entry queues the initiate response. */
  lemma UploadServed(d: Dictionary, s: Server, state: nat, dsize: nat)
    requires CanServe(d, s, dsize) && FreeBuffer(s.mbx) > 0
    requires Lookup(d, IndexOf(s.mbx.buf[0]), SubindexOf(s.mbx.buf[0])).Found?
    requires var f := Lookup(d, IndexOf(s.mbx.buf[0]), SubindexOf(s.mbx.buf[0]));
             ReadAccess(d[f.o].entries[f.n].flags, state)
    ensures var r := s.mbx.buf[0];
            var f := Lookup(d, IndexOf(r), SubindexOf(r));
            var e := d[f.o].entries[f.n];
            var t := SdoUpload(d, s, state, dsize);
            && Backed(e, s.st)
            && (t.sess, t.mbx.buf[FreeBuffer(s.mbx)].(cnt := 0)) ==
               UploadReply(IndexOf(r), SubindexOf(r), e, Content(e, s.st), s.sess, dsize)
            && t.st == s.st && t.block == s.block
  {
    var r := s.mbx.buf[0];
    var f := Lookup(d, IndexOf(r), SubindexOf(r));
    var e := d[f.o].entries[f.n];
    var (u, g) := UploadReply(IndexOf(r), SubindexOf(r), e, Content(e, s.st), s.sess, dsize);
    assert g.cnt == 0;
    SentFrame(s.mbx, g);
    hide Highest, Sent, UploadReply, Serviceable, Lookup;
  }

  lemma SegmentServed(s: Server, dsize: nat)
    requires Shaped(s.mbx) && IsRequest(s.mbx.buf[0]) && 11 <= dsize < 0x1_0000 && CanSend(s) && FreeBuffer(s.mbx) > 0
    ensures var t := SdoUploadSegment(s, dsize);
            && (t.sess, t.mbx.buf[FreeBuffer(s.mbx)].(cnt := 0)) ==
               SegmentReply(Command(s.mbx.buf[0]), s.sess, Source(s.sess.data, s.st, s.block), dsize)
            && t.st == s.st && t.block == s.block
  {
    var (u, g) := SegmentReply(Command(s.mbx.buf[0]), s.sess, Source(s.sess.data, s.st, s.block), dsize);
    assert g.cnt == 0;
    SentFrame(s.mbx, g);
    hide Highest, Sent, SegmentReply;
  }

  /** A download of exactly an entry's length, allowed in this state, stores what the request carries. */
  lemma DownloadServed(d: Dictionary, s: Server, state: nat, dsize: nat)
    requires CanDownload(d, s, dsize)
    requires Lookup(d, IndexOf(s.mbx.buf[0]), SubindexOf(s.mbx.buf[0])).Found?
    requires var f := Lookup(d, IndexOf(s.mbx.buf[0]), SubindexOf(s.mbx.buf[0]));
             var e := d[f.o].entries[f.n];
             && WriteAccess(e.flags, state) && DownloadSize(s.mbx.buf[0]) == BitsToBytes(e.bitlength)
             && !MappingLocked(d[f.o], SubindexOf(s.mbx.buf[0]), e.flags, s.st)
    ensures var r := s.mbx.buf[0];
            var f := Lookup(d, IndexOf(r), SubindexOf(r));
            var e := d[f.o].entries[f.n];
            var t := SdoDownload(d, s, state, dsize);
            && e.data.Some? && e.data.value < |s.st| && DownloadInside(r) && |DownloadData(r)| <= |s.st[e.data.value]|
            && t.st == s.st[e.data.value := Over(s.st[e.data.value], 0, DownloadData(r))]
            && t.sess == DownloadStarted(r, e, s.sess) && t.block == s.block
  {
    var r := s.mbx.buf[0];
    var f := Lookup(d, IndexOf(r), SubindexOf(r));
    assert IsWritable(d[f.o].entries[f.n]);
    hide Highest, Sent, Serviceable, Lookup, MappingLocked, DownloadSize, DownloadStarted;
  }

  /** A segment of a single entry's download is put where the ones before it ended. */
  lemma DownloadSegmentServed(d: Dictionary, s: Server, state: nat)
    requires CanSegment(d, s) && FreeBuffer(s.mbx) > 0 && s.sess.data.Cell? && s.sess.flags != COMPLETE_ACCESS_FLAG
    ensures var r := s.mbx.buf[0];
            var c := s.sess.data.c;
            var t := SdoDownloadSegment(d, s, state);
            && t.st == s.st[c := Over(s.st[c], s.sess.data.at, SegmentData(r))]
            && t.sess == SegmentTaken(r, s.sess) && t.block == s.block
  {
    ClaimedCanSegment(d, s);
    hide Highest, SegmentTaken, SegmentData, Lookup;
  }
}
