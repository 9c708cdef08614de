/**
 The answers to complete access, to download segments, and to everything else
 the CoE server is asked, byte by byte.
 */
module ObjectAnswers {
  import opened Words
  import opened Bytes
  import opened ObjectDictionary
  import opened Mailbox
  import opened SdoTransfer
  import opened CompleteAccess
  import opened ObjectList
  import opened CoeHandlers
  import opened CoeAnswers
  import opened MailboxReceipt
  import opened SdoAnswers
  import opened CompleteAccessRoundTrip
  import opened BlockLayout

  // Complete access

  /** The abort code of a complete access that is refused before its size is looked at, or 0. */
  function AccessCode(d: Dictionary, r: Frame): uint32
    requires IsRequest(r)
  {
    if r.body[5] > 1 then 0x06010000
    else if NoSuchObject(d, r) then 0x06020000
    else if NoSuchEntry(d, r) then 0x06090011
    else 0
  }

  lemma AccessCodeIs(d: Dictionary, r: Frame)
    requires WellFormed(d) && IsRequest(r) && IndexOf(r) != LIST_END
    ensures CompleteRefused(d, IndexOf(r), SubindexOf(r)) == AccessCode(d, r)
  {
    MissingIsNotFound(d, r);
    if !NoSuchObject(d, r) && !NoSuchEntry(d, r) {
      var o :| 0 <= o < |d| && d[o].index == IndexOf(r);
      var n :| 0 <= n < |d[o].entries| && d[o].entries[n].subindex == SubindexOf(r);
      NamedIsFound(d, r, o, n);
    }
    hide NoSuchObject, NoSuchEntry, WellFormed, Lookup;
  }

  /** Bytes of the block; objects of dynamic length have an abort code, converted from bits, for a size. */
  lemma SizeIs(o: Object, n: nat)
    requires n < |o.entries|
    ensures !Fixed(o) ==> ObjectBytes(o, n) == 0x00C02001
    ensures Fixed(o) && ByteEntries(o) ==> ObjectBytes(o, n) == StartOf(o, n, |o.entries|) / 8
  {
    if Fixed(o) && ByteEntries(o) {
      LayoutIs(o, n, n);
      WholeBytes(o, n, |o.entries|);
    }
  }

  /** The abort code of a complete upload of an existing object, or 0. */
  function BlockCode(bytes: nat, room: nat): nat {
    if bytes > 0xFFFF then bytes
    else if bytes + 30 > room then 0x06010004 // complete access not supported
    else 0
  }

  /** The response to a complete upload of these bytes, of which k fit. */
  function BlockBody(r: Frame, c: seq<byte>, k: nat): seq<byte>
    requires IsRequest(r) && k <= |c|
  {
    if |c| <= 4 then ResponseBody(r, if |c| == 0 then 0x53 else 0x5F - 4 * (|c| - 1), c)
    else ResponseBody(r, 0x51, Four(|c|) + c[..k])
  }

  lemma BlockFrame(r: Frame, bits: nat, block: seq<byte>, s: Session, dsize: nat)
    requires IsRequest(r) && 11 <= dsize < 0x1_0000 && BitsToBytes(bits) <= |block| && BitsToBytes(bits) < 0x1_0000
    ensures var c := block[..BitsToBytes(bits)];
            var k := if |c| + 10 > dsize then dsize - 10 else |c|;
            var (u, f) := BlockReply(IndexOf(r), SubindexOf(r), bits, block, s, dsize);
            && f == Frame(if |c| <= 4 then 10 else 10 + k, 3, 0, BlockBody(r, c, if |c| <= 4 then |c| else k))
            && u == (if |c| > 4 && k < |c| then
                       s.(frags := |c|, fragsleft := k, segmented := 0x40, data := Scratch(0), flags := 0x8000)
                     else s.(segmented := 0))
  {
    var c := block[..BitsToBytes(bits)];
    var k := if |c| + 10 > dsize then dsize - 10 else |c|;
    var command: byte := if |c| == 0 then 0x53 else if |c| <= 4 then 0x5F - 4 * (|c| - 1) else 0x51;
    FrameBytes(r, 10, 3, command, c);
    FrameBytes(r, 10 + k, 3, 0x51, Le32(|c|) + c[..k]);
    assert c[..k] == block[..k];
    hide SdoFrame, Multiplexor;
  }

  lemma NamedAndSized(d: Dictionary, s: Server, o: nat, n: nat, dsize: nat)
    requires CanServe(d, s, dsize) && Names(d, s.mbx.buf[0], o, n)
    ensures var r := s.mbx.buf[0];
            Lookup(d, IndexOf(r), SubindexOf(r)) == Found(o, n) && ObjectBytes(d[o], n) < 0x1_0000_0000
    ensures s.mbx.buf[0].body[5] == SubindexOf(s.mbx.buf[0]) && Loadable(d[o], s.st)
  {
    NamedIsFound(d, s.mbx.buf[0], o, n);
    DynamicSize(d[o], n, s.st);
  }

  /** Every complete upload of an existing object. */
  lemma UploadAllAnswered(d: Dictionary, s: Server, state: nat, dsize: nat, o: nat, n: nat)
    requires CanServe(d, s, dsize) && Names(d, s.mbx.buf[0], o, n) && s.mbx.buf[0].body[5] <= 1 && FreeBuffer(s.mbx) > 0
    ensures var r := s.mbx.buf[0];
            var code := BlockCode(ObjectBytes(d[o], n), |s.block|);
            var t := SdoUploadComplete(d, s, state, dsize);
            && t.st == s.st
            && (if code != 0 then t == s.(mbx := t.mbx) && Answers(s.mbx, t.mbx, 10, AbortBody(r, code))
                else
                  && CanLoad(d[o], n, Upload, 0, Work(s.block, s.st))
                  && t.block == LoopResult(d[o], state, n, Upload, 0, Work(s.block, s.st)).block
                  && |t.block| == |s.block|
                  && var c := t.block[..ObjectBytes(d[o], n)];
                     var k := if |c| + 10 > dsize then dsize - 10 else |c|;
                     && Answers(s.mbx, t.mbx, if |c| <= 4 then 10 else 10 + k, BlockBody(r, c, if |c| <= 4 then |c| else k))
                     && t.sess == (if |c| > 4 && k < |c| then
                                     s.sess.(frags := |c|, fragsleft := k, segmented := 0x40, data := Scratch(0), flags := 0x8000)
                                   else s.sess.(segmented := 0)))
  {
    hide Lookup, Serviceable, Answers, Released, Aborted, Replied, AbortBody, BlockBody, FreeBuffer, BlockReply, LoopResult, LoopSize,
      Names, Claimed, Queued, Sent, Extent, IsDynamic, Loadable;
    NamedAndSized(d, s, o, n, dsize);
    var bytes := ObjectBytes(d[o], n);
    if BlockCode(bytes, |s.block|) != 0 {
      AbortedBy(s, s, BlockCode(bytes, |s.block|));
    } else {
      BlockUploaded(d[o], n, s, state, dsize);
    }
  }

  lemma BlockUploaded(o: Object, n: nat, s: Server, state: nat, dsize: nat)
    requires Shaped(s.mbx) && IsRequest(s.mbx.buf[0]) && 11 <= dsize < 0x1_0000
    requires Loadable(o, s.st) && n < |o.entries| && FreeBuffer(s.mbx) > 0
    requires BlockCode(ObjectBytes(o, n), |s.block|) == 0
    ensures CanLoad(o, n, Upload, 0, Work(s.block, s.st))
    ensures var w := LoopResult(o, state, n, Upload, 0, Work(s.block, s.st)).block;
            var t := Released(ObjectUploaded(o, n, s, state, dsize));
            && t.st == s.st && t.block == w && |w| == |s.block| && ObjectBytes(o, n) <= |w|
            && var c := w[..ObjectBytes(o, n)];
               var k := if |c| + 10 > dsize then dsize - 10 else |c|;
               && Answers(s.mbx, t.mbx, if |c| <= 4 then 10 else 10 + k, BlockBody(s.mbx.buf[0], c, if |c| <= 4 then |c| else k))
               && t.sess == (if |c| > 4 && k < |c| then
                               s.sess.(frags := |c|, fragsleft := k, segmented := 0x40, data := Scratch(0), flags := 0x8000)
                             else s.sess.(segmented := 0))
  {
    var bits := LoopSize(o, n, 0);
    assert !IsDynamic(o) && bits == Extent(o, n, 0, 0) by { SizeIs(o, n); }
    var w := LoopResult(o, state, n, Upload, 0, Work(s.block, s.st));
    assert |w.block| == |s.block|;
    hide Answers, AbortBody, BlockBody, FreeBuffer, BlockReply, LoopResult, LoopSize, Claimed, Queued, Sent, Loadable, Extent;
    ClaimedKeepsInbox(s.mbx);
    BlockFrame(s.mbx.buf[0], bits, w.block, s.sess, dsize);
    var (u, f) := BlockReply(IndexOf(s.mbx.buf[0]), SubindexOf(s.mbx.buf[0]), bits, w.block, s.sess, dsize);
    SentIs(s.mbx, f);
    AnsweredBy(s, s.(block := w.block, sess := u), f);
  }

  /** A complete access that is refused before its size is looked at. */
  lemma AccessRefused(d: Dictionary, s: Server, state: nat, dsize: nat)
    requires CanServe(d, s, dsize) && AccessCode(d, s.mbx.buf[0]) != 0
    ensures var r := s.mbx.buf[0];
            var t := SdoUploadComplete(d, s, state, dsize);
            t == s.(mbx := t.mbx) && (FreeBuffer(s.mbx) > 0 ==> Answers(s.mbx, t.mbx, 10, AbortBody(r, AccessCode(d, r))))
    ensures var t := SdoDownloadComplete(d, s, state, dsize);
            CanDownloadComplete(d, s, dsize) ==>
              t == s.(mbx := t.mbx)
              && (FreeBuffer(s.mbx) > 0 ==> Answers(s.mbx, t.mbx, 10, AbortBody(s.mbx.buf[0], AccessCode(d, s.mbx.buf[0]))))
  {
    AccessCodeIs(d, s.mbx.buf[0]);
    AbortedBy(s, s, AccessCode(d, s.mbx.buf[0]));
    hide Lookup, Serviceable, Released, Aborted, Answers, AbortBody, AccessCode, WellFormed;
  }

  /** The abort code of a complete download to an existing object, or 0. */
  function SpreadCode(announced: nat, bytes: nat, room: nat, dsize: nat): nat {
    if bytes > 0xFFFF then bytes
    else if announced > bytes then 0x06070010
    else if announced + 10 > dsize && announced + 30 > room then 0x06010004
    else 0
  }

  /** A complete download to an existing object that is refused. */
  lemma DownloadAllRefused(d: Dictionary, s: Server, state: nat, dsize: nat, o: nat, n: nat)
    requires CanDownloadComplete(d, s, dsize) && Names(d, s.mbx.buf[0], o, n) && s.mbx.buf[0].body[5] <= 1
    requires SpreadCode(DownloadSize(s.mbx.buf[0]), ObjectBytes(d[o], n), |s.block|, dsize) != 0
    ensures var code := SpreadCode(DownloadSize(s.mbx.buf[0]), ObjectBytes(d[o], n), |s.block|, dsize);
            var t := SdoDownloadComplete(d, s, state, dsize);
            t == s.(mbx := t.mbx) && (FreeBuffer(s.mbx) > 0 ==> Answers(s.mbx, t.mbx, 10, AbortBody(s.mbx.buf[0], code)))
  {
    hide Lookup, Serviceable, Answers, Released, Aborted, Replied, AbortBody, FreeBuffer, DownloadSize, DownloadAt, LoopResult,
      LoopSize, Names, CanLoad, IsDynamic, ObjectBytes, Loadable;
    NamedAndSized(d, s, o, n, dsize);
    var r := s.mbx.buf[0];
    AbortedBy(s, s, SpreadCode(DownloadSize(r), ObjectBytes(d[o], n), |s.block|, dsize));
  }

  /** One that is granted: collected in the block if it needs segments, or spread over the object's entries at once. */
  lemma DownloadAllGranted(d: Dictionary, s: Server, state: nat, dsize: nat, o: nat, n: nat)
    requires CanDownloadComplete(d, s, dsize) && Names(d, s.mbx.buf[0], o, n) && s.mbx.buf[0].body[5] <= 1
    requires SpreadCode(DownloadSize(s.mbx.buf[0]), ObjectBytes(d[o], n), |s.block|, dsize) == 0
    ensures var r := s.mbx.buf[0];
            var t := SdoDownloadComplete(d, s, state, dsize);
            FreeBuffer(s.mbx) > 0 ==> Answers(s.mbx, t.mbx, 10, ResponseBody(r, 0x70, [0, 0, 0, 0]))
    ensures var r := s.mbx.buf[0];
            var t := SdoDownloadComplete(d, s, state, dsize);
            if DownloadSize(r) + 10 > dsize then
              && t.sess == Session(DownloadSize(r), dsize - 10, 0x50, Scratch(dsize - 10), IndexOf(r), SubindexOf(r), 0x8000)
              && t == s.(mbx := t.mbx, sess := t.sess, block := t.block)
              && |r.body| == dsize && |t.block| == |s.block| >= dsize - 10
              && forall i | 0 <= i < |s.block| ::
                   t.block[i] == if i < dsize - 10 then r.body[DownloadAt(r)..][i] else s.block[i]
            else
              && CanLoad(d[o], n, Download(r.body[DownloadAt(r)..]), DownloadSize(r), Work(s.block, s.st))
              && t.st == LoopResult(d[o], state, n, Download(r.body[DownloadAt(r)..]), DownloadSize(r), Work(s.block, s.st)).st
              && t == s.(mbx := t.mbx, st := t.st, sess := s.sess.(segmented := 0))
  {
    var r := s.mbx.buf[0];
    NamedIsFound(d, r, o, n);
    hide Lookup, Serviceable, Answers, Released, Aborted, Replied, ResponseBody, FreeBuffer, DownloadSize, LoopResult, LoopSize,
      Names, CanLoad, DownloadResponse;
    DownloadAccepted(s, ObjectStored(d[o], n, s, state, dsize), COE_COMMAND_DOWNLOADRESPONSE + COE_COMPLETEACCESS);
  }

  // Segments of a download

  /** Bytes a segment carries: seven or fewer are padded, and flagged so. */
  function Carried(r: Frame): nat
    requires IsRequest(r) && r.length >= 8
  {
    if r.length == 10 then 7 - r.body[2] / 2 % 8 else r.length - 3
  }

  /** The last segment of a complete access with bytes missing, or for an entry that is gone. */
  function SegmentCode(d: Dictionary, s: Server): uint32
    requires Shaped(s.mbx) && SegmentInside(s.mbx.buf[0])
  {
    var r := s.mbx.buf[0];
    if r.body[2] % 2 == 0 || s.sess.flags != 0x8000 then 0
    else if s.sess.frags > s.sess.fragsleft + Carried(r) then 0x06070010
    else if !Lookup(d, s.sess.index, s.sess.subindex).Found? then 0x06020000
    else 0
  }

  lemma SegmentCodeIs(d: Dictionary, s: Server, x: Server)
    requires CanTake(s) && x == SegmentStored(s)
    ensures SpreadRefused(d, x) == SegmentCode(d, s) && SegmentSize(s.mbx.buf[0]) == Carried(s.mbx.buf[0])
  {
    hide Lookup, SegmentData;
  }

  /** A segment that is not refused is acknowledged, and the transfer goes on or is over. */
  lemma SegmentAcknowledged(d: Dictionary, s: Server, state: nat)
    requires CanSegment(d, s) && FreeBuffer(s.mbx) > 0 && SegmentCode(d, s) == 0
    ensures var r := s.mbx.buf[0];
            var t := SdoDownloadSegment(d, s, state);
            && Answers(s.mbx, t.mbx, 10, [0, 0x30, 0x20 + r.body[2] / 0x10 % 2 * 0x10, 0, 0, 0])
            && t.sess == if r.body[2] % 2 == 1 then s.sess.(segmented := 0, frags := 0, fragsleft := 0)
                         else s.sess.(data := match s.sess.data
                                              case Cell(c, at) => Cell(c, at + Carried(r))
                                              case Scratch(at) => Scratch(at + Carried(r)),
                                      fragsleft := s.sess.fragsleft + Carried(r))
  {
    ClaimedCanSegment(d, s);
    var c := s.(mbx := Claimed(s.mbx));
    SegmentCodeIs(d, s, SegmentStored(s));
    SegmentCodeIs(d, c, SegmentStored(c));
    var f := SegmentResponse(Command(s.mbx.buf[0]));
    SegmentFrame6(Command(s.mbx.buf[0]));
    SentIs(s.mbx, f);
    AnsweredBy(s, s, f);
    hide Highest, SegmentStored, SpreadRefused, Spread, CanSpread, CanTake, SegmentData, Lookup, Answers, Claimed, Queued, Sent;
  }

  /** Bytes 3 on of a segment are put there, and the rest stays. */
  predicate Puts(before: seq<byte>, after: seq<byte>, at: nat, r: Frame, n: nat) {
    && |after| == |before| && at + n <= |before| && 3 + n <= |r.body|
    && forall i | 0 <= i < |before| :: after[i] == if at <= i < at + n then r.body[3 + i - at] else before[i]
  }

  /** A segment's bytes go where the transfer points. */
  lemma SegmentPut(s: Server)
    requires CanTake(s)
    ensures var r, x := s.mbx.buf[0], SegmentStored(s);
            match s.sess.data
            case Cell(c, at) =>
              c < |s.st| == |x.st| && x == s.(st := s.st[c := x.st[c]]) && Puts(s.st[c], x.st[c], at, r, Carried(r))
            case Scratch(at) => x == s.(block := x.block) && Puts(s.block, x.block, at, r, Carried(r))
  {
    SegmentIs(s.mbx.buf[0]);
    hide SegmentData, SegmentSize, Carried;
  }

  lemma SegmentIs(r: Frame)
    requires SegmentInside(r)
    ensures SegmentSize(r) == Carried(r) && 3 + Carried(r) <= |r.body| && SegmentData(r) == r.body[3..3 + Carried(r)]
  {
  }

  /** They do whether or not the segment is refused; one that completes a complete access is spread over the object. */
  lemma SegmentStores(d: Dictionary, s: Server, state: nat)
    requires CanSegment(d, s) && FreeBuffer(s.mbx) > 0
    ensures var r, x, t := s.mbx.buf[0], SegmentStored(s), SdoDownloadSegment(d, s, state);
            var f := Lookup(d, s.sess.index, s.sess.subindex);
            && t.block == x.block && t.entries == s.entries
            && (if SegmentCode(d, s) == 0 && r.body[2] % 2 == 1 && s.sess.flags == 0x8000 then
                  && f.Found? && CanLoad(d[f.o], f.n, Download(x.block), s.sess.frags, Work(x.block, x.st))
                  && t.st == LoopResult(d[f.o], state, f.n, Download(x.block), s.sess.frags, Work(x.block, x.st)).st
                else t.st == x.st)
  {
    ClaimedCanSegment(d, s);
    var c := s.(mbx := Claimed(s.mbx));
    SegmentCodeIs(d, s, SegmentStored(s));
    SegmentCodeIs(d, c, SegmentStored(c));
    assert SegmentStored(c) == SegmentStored(s).(mbx := c.mbx);
    hide SegmentStored, CanTake, SegmentData, Lookup, Claimed, Queued, Sent, LoopResult, CanLoad, SegmentSize, SegmentTaken;
  }

  /** A refused one is answered by its abort code in a second buffer; the first stays claimed, and the transfer open. */
  lemma SegmentRefused(d: Dictionary, s: Server, state: nat)
    requires CanSegment(d, s) && FreeBuffer(s.mbx) > 0 && SegmentCode(d, s) != 0
    ensures var n := FreeBuffer(s.mbx);
            var t := SdoDownloadSegment(d, s, state);
            && t.sess == s.sess && Claimed(s.mbx).control == s.mbx.control[n := Outclaim]
            && (if FreeBuffer(Claimed(s.mbx)) > 0 then
                  Answers(Claimed(s.mbx), t.mbx, 10,
                          [0, 0x20, 0x80, s.sess.index % 0x100, s.sess.index / 0x100, s.sess.subindex] + Four(SegmentCode(d, s)))
                else t.mbx.control == s.mbx.control[n := Outclaim][0 := Idle] && t.mbx.xoe == 0)
  {
    ClaimedCanSegment(d, s);
    var c := s.(mbx := Claimed(s.mbx));
    SegmentCodeIs(d, s, SegmentStored(s));
    SegmentCodeIs(d, c, SegmentStored(c));
    assert Claimed(s.mbx).control == s.mbx.control[FreeBuffer(s.mbx) := Outclaim];
    var code := SegmentCode(d, s);
    AbortBytes(s.sess.index, s.sess.subindex, code);
    AnsweredBy(c, SegmentStored(c), AbortFrame(s.sess.index, s.sess.subindex, code));
    hide SegmentStored, CanTake, SegmentData, Lookup, Claimed, Queued, Sent, LoopResult, CanLoad, SegmentSize, SegmentTaken, Spread,
      SegmentCode, FreeBuffer, AbortFrame, Answers;
  }

  lemma AbortBytes(index: uint16, subindex: byte, code: uint32)
    ensures AbortFrame(index, subindex, code) ==
            Frame(10, 3, 0, [0, 0x20, 0x80, index % 0x100, index / 0x100, subindex] + Four(code))
  {
  }

  lemma SegmentFrame6(command: byte)
    ensures SegmentResponse(command) == Frame(10, 3, 0, [0, 0x30, 0x20 + command / 0x10 % 2 * 0x10, 0, 0, 0])
  {
  }

  // Which request goes where

  /**
   One call of the server: a list being sent goes on when nothing is posted; a
   request in the inbox is handled; a CoE message that arrived becomes one if it
   has at least 8 bytes, and is answered by error 8 otherwise; the rest stays.
   */
  lemma CallIs(d: Dictionary, s: Server, state: nat, dsize: nat, text: Frame)
    requires CanProcess(d, s, dsize)
    ensures var t := CoeProcess(d, s, state, dsize, text);
            var m := s.mbx;
            var arrived := m.xoe == 0 && m.control[0] == Inclaim && m.buf[0].mtype == 3;
            if !m.run then t == s
            else if m.xoe == 0x13 then (if m.outpost == 0 then Listing(d, s, dsize) && t == SdoGetOdListCont(d, s, dsize) else t == s)
            else if m.xoe == 3 then CanHandle(d, s, dsize) && t == Handled(d, s, state, dsize, text)
            else if arrived && m.buf[0].length < 8 then t == Replied(s, Frame(4, 0, 0, [1, 0, 8, 0]))
            else if arrived then
              var taken := s.(mbx := m.(xoe := 3));
              CanHandle(d, taken, dsize) && t == Handled(d, taken, state, dsize, text)
            else t == s
  {
    ErrorBytes(8);
    SentKeepsTransfer(s.mbx, ErrorFrame(8));
    hide CanHandle, Listing, Sent, ErrorFrame;
  }

  /** The dispatcher, by service, command, length and transfer state. */
  lemma Dispatched(r: Frame, segmented: nat)
    requires IsRequest(r)
    ensures var service, command := r.body[1] / 0x10, r.body[2];
            KindOf(r, segmented) ==
            match service
            case 2 =>
              if 0x40 <= command < 0x60 && r.length == 10 then (if command / 0x10 % 2 == 1 then UploadAll else UploadOne)
              else if command in {0x60, 0x70} && r.length == 10 && segmented == 0x40 then UploadSeg
              else if 0x20 <= command < 0x40 then (if command / 0x10 % 2 == 1 then DownloadAll else DownloadOne)
              else if command < 0x20 then DownloadSeg
              else Unmatched
            case 8 =>
              if command % 0x80 == 1 then ObjectListing else if command % 0x80 in {3, 5} then Description else Unknown
            case 0 => NoService
            case _ => Unknown
  {
  }

  /** Requests that are no SDO and no list. */
  lemma OthersAnswered(d: Dictionary, s: Server, state: nat, dsize: nat, text: Frame)
    requires CanHandle(d, s, dsize) && FreeBuffer(s.mbx) > 0
    ensures var t := Handled(d, s, state, dsize, text);
            match KindOf(s.mbx.buf[0], s.sess.segmented)
            case Description => t == Released(Replied(s, text))
            case NoService => t == Released(Replied(s, Frame(4, 0, 0, [1, 0, 5, 0])))
            case Unknown => t == s.(mbx := t.mbx) && Answers(s.mbx, t.mbx, 10, AbortBody(s.mbx.buf[0], 0x06010000))
            case Unmatched => t == s
            case _ => true
  {
    AbortedBy(s, s, 0x06010000);
    ErrorBytes(5);
    hide Sent, Aborted, ErrorFrame, Answers, AbortBody, CanHandle;
  }

  /**
   Without a free buffer: lists and descriptions wait, everything else is dropped
   unanswered. What single and complete downloads store does not depend on buffers.
   */
  lemma WithoutBuffer(d: Dictionary, s: Server, state: nat, dsize: nat, text: Frame)
    requires CanHandle(d, s, dsize) && FreeBuffer(s.mbx) == 0
    ensures var t := Handled(d, s, state, dsize, text);
            var dropped := s.mbx.(control := s.mbx.control[0 := Idle], xoe := 0);
            match KindOf(s.mbx.buf[0], s.sess.segmented)
            case Unmatched => t == s
            case Description => t == s
            case ObjectListing => t == s.(entries := |d| - 1)
            case DownloadOne => t.mbx == dropped
            case DownloadAll => t.mbx == dropped
            case _ => t == s.(mbx := dropped)
  {
    hide SdoUpload, SdoUploadComplete, SdoUploadSegment, SdoDownload, SdoDownloadComplete, SdoDownloadSegment, SdoGetOdList,
      Serviceable, CanServe, CanSend, CanDownload, CanDownloadComplete, CanSegment, FreeBuffer, KindOf, Replied, Aborted, Released;
    match KindOf(s.mbx.buf[0], s.sess.segmented)
    case UploadOne => UploadDropped(d, s, state, dsize);
    case UploadAll => BlockDropped(d, s, state, dsize);
    case DownloadOne => DownloadDropped(d, s, state, dsize);
    case DownloadAll => SpreadDropped(d, s, state, dsize);
    case UploadSeg => SegmentsDropped(d, s, state, dsize);
    case DownloadSeg => SegmentsDropped(d, s, state, dsize);
    case _ => OthersDropped(d, s, dsize);
  }

  ghost predicate Drops(s: Server, m: Mbx) {
    |s.mbx.control| > 0 && m == s.mbx.(control := s.mbx.control[0 := Idle], xoe := 0)
  }

  lemma SegmentsDropped(d: Dictionary, s: Server, state: nat, dsize: nat)
    requires Shaped(s.mbx) && IsRequest(s.mbx.buf[0]) && 11 <= dsize < 0x1_0000 && FreeBuffer(s.mbx) == 0
    ensures Drops(s, Released(s).mbx)
    ensures CanSend(s) ==> SdoUploadSegment(s, dsize) == Released(s)
    ensures CanSegment(d, s) ==> SdoDownloadSegment(d, s, state) == Released(s)
  {
    hide CanSend, CanSegment, FreeBuffer;
  }

  lemma OthersDropped(d: Dictionary, s: Server, dsize: nat)
    requires Shaped(s.mbx) && IsRequest(s.mbx.buf[0]) && 11 <= dsize < 0x1_0000 && 1 < |d| <= 0x1_0000 && FreeBuffer(s.mbx) == 0
    ensures SdoGetOdList(d, s, dsize) == s.(entries := |d| - 1)
    ensures forall f :: Replied(s, f) == s
    ensures forall code :: Aborted(s, code) == s
    ensures Drops(s, Released(s).mbx)
  {
    hide FreeBuffer, Fragments, ListStarted, CountFrame, InfoError, AbortFrame;
  }

  lemma UploadDropped(d: Dictionary, s: Server, state: nat, dsize: nat)
    requires CanServe(d, s, dsize) && FreeBuffer(s.mbx) == 0
    ensures var t := SdoUpload(d, s, state, dsize);
            Drops(s, t.mbx) && t == s.(mbx := t.mbx)
  {
    hide Serviceable, Lookup, AbortFrame, Highest, Content;
  }

  lemma BlockDropped(d: Dictionary, s: Server, state: nat, dsize: nat)
    requires CanServe(d, s, dsize) && FreeBuffer(s.mbx) == 0
    ensures var t := SdoUploadComplete(d, s, state, dsize);
            Drops(s, t.mbx) && t == s.(mbx := t.mbx)
  {
    hide Serviceable, Lookup, AbortFrame, Highest, Loadable, LoopSize;
  }

  lemma DownloadDropped(d: Dictionary, s: Server, state: nat, dsize: nat)
    requires CanDownload(d, s, dsize) && FreeBuffer(s.mbx) == 0
    ensures Drops(s, SdoDownload(d, s, state, dsize).mbx)
  {
    hide Serviceable, Lookup, AbortFrame, Highest, DownloadResponse, DownloadData, DownloadFits, Padded, MappingLocked, LengthAccepted;
  }

  lemma SpreadDropped(d: Dictionary, s: Server, state: nat, dsize: nat)
    requires CanDownloadComplete(d, s, dsize) && FreeBuffer(s.mbx) == 0
    ensures Drops(s, SdoDownloadComplete(d, s, state, dsize).mbx)
  {
    hide Serviceable, Lookup, AbortFrame, Highest, DownloadResponse, ObjectStored, CanDownloadObject, LoopSize;
  }

  // Lists

  /** The answer to a request for a list: the number of objects, all of them, or an error for another list type. */
  lemma ListAnswered(d: Dictionary, s: Server, dsize: nat)
    requires Shaped(s.mbx) && IsRequest(s.mbx.buf[0]) && 11 <= dsize < 0x1_0000 && 1 < |d| <= 0x1_0000 && FreeBuffer(s.mbx) > 0
    ensures var r := s.mbx.buf[0];
            var list: nat := r.body[6] + 0x100 * (r.body[7] as nat);
            var entries := |d| - 1;
            var t := SdoGetOdList(d, s, dsize);
            && (list == 0 ==> Answers(s.mbx, t.mbx, 18, [0, 0x80, 2, 0, 0, 0, 0, 0, entries % 0x100, entries / 0x100]
                                                        + [0, 0, 0, 0, 0, 0, 0, 0]))
            && (list > 1 ==> Answers(s.mbx, t.mbx, 10, [0, 0x80, 7, 0, 0, 0, 0x00, 0x00, 0x01, 0x06]))
  {
    FragmentCount(Entries(d), dsize);
    var s1 := s.(entries := Entries(d));
    InfoBytes(|d| - 1);
    if SizeField(s.mbx.buf[0]) > 1 {
      AnsweredBy(s, s1, InfoError(ABORT_UNSUPPORTED));
    } else if SizeField(s.mbx.buf[0]) == 0 {
      SentIs(s.mbx, CountFrame(Entries(d)));
      AnsweredBy(s, s, CountFrame(Entries(d)));
    }
    hide Sent, Claimed, Queued, Answers, CountFrame, InfoError, Fragments, ListStarted, FreeBuffer;
  }

  lemma InfoBytes(entries: uint16)
    ensures CountFrame(entries) ==
            Frame(18, 3, 0, [0, 0x80, 2, 0, 0, 0, 0, 0, entries % 0x100, entries / 0x100] + [0, 0, 0, 0, 0, 0, 0, 0])
    ensures InfoError(ABORT_UNSUPPORTED) == Frame(10, 3, 0, [0, 0x80, 7, 0, 0, 0, 0x00, 0x00, 0x01, 0x06])
  {
    assert Zeros(8) == [0, 0, 0, 0, 0, 0, 0, 0];
  }

  /** The header of a fragment: more to come or not, and how many fragments are left. */
  lemma HeaderBytes(incomplete: bool, left: uint16)
    ensures ListHeader(incomplete, left) ==
            [0, 0x80, if incomplete then 0x82 else 0x02, 0, left % 0x100, left / 0x100]
  {
  }

  /** The fragments as frames: header, in the first one the list type, and the indexes. */
  lemma FirstBytes(l: seq<uint16>, left: uint16)
    requires 8 + 2 * |l| < 0x1_0000
    ensures FirstFragment(l, left + 1) == Frame(8 + 2 * |l|, 3, 0, ListHeader(left > 0, left) + [1, 0] + Encoded(l))
  {
    hide Encoded, ListHeader;
    assert Le16(1) == [1, 0];
  }

  lemma NextBytes(l: seq<uint16>, left: uint16)
    requires 6 + 2 * |l| < 0x1_0000
    ensures NextFragment(l, left + 1) == Frame(6 + 2 * |l|, 3, 0, ListHeader(left > 0, left) + Encoded(l))
  {
    hide Encoded, ListHeader;
  }
}
