/**
 Access rights and segments: a transfer is checked when it starts, and its
 segments are stored without another check, even if what started was an
 upload. Exactly when a call of the CoE server changes a variable that may not
 be written now, and two requests that change a read-only one.
 */
module SegmentRights {
  import opened Words
  import opened Bytes
  import opened ObjectDictionary
  import opened Mailbox
  import opened SdoTransfer
  import opened CompleteAccess
  import opened CoeHandlers
  import opened CoeAnswers
  import opened CoeWrites

  /** The call serves a download segment, with a buffer for the answer. */
  ghost predicate StoresSegment(d: Dictionary, s: Server, dsize: nat)
    requires CanProcess(d, s, dsize)
  {
    var h := TakenOn(s);
    && s.mbx.run && !ContinuesList(h) && h.mbx.xoe == MBXCOE && FreeBuffer(h.mbx) > 0
    && KindOf(h.mbx.buf[0], h.sess.segmented).DownloadSeg?
  }

  /** The variable's bytes at the transfer's position are not those of the segment. */
  predicate Differs(s: Server, c: nat) {
    && CanTake(s) && PointsAt(s.sess, c)
    && var data := SegmentData(s.mbx.buf[0]);
       s.st[c][s.sess.data.at..s.sess.data.at + |data|] != data
  }

  /** What a segment does to a variable that may not be written now. */
  lemma SegmentOnUnwritable(d: Dictionary, s: Server, state: nat, c: nat)
    requires CanSegment(d, s) && c < |s.st| && !WritableCell(d, c, state)
    ensures var t := SdoDownloadSegment(d, s, state);
            && SameSizes(s.st, t.st)
            && t.st[c] == (if FreeBuffer(s.mbx) > 0 then SegmentStored(s).st[c] else s.st[c])
  {
    ClaimedCanSegment(d, s);
    var k := s.(mbx := Claimed(s.mbx));
    var s1 := SegmentStored(k);
    assert s1.st == SegmentStored(s).st by { hide Highest, SegmentData, WritableCell; }
    hide Highest, SegmentData, WritableCell, Spread, CanSpread, SegmentStored, SpreadRefused, SegmentTaken, Sent,
      Claimed, Queued;
    if SpreadRefused(d, s1) == 0 { SpreadChangesWritable(d, s1, state); }
  }

  lemma StoredDiffers(s: Server, c: nat)
    requires CanTake(s) && c < |s.st|
    ensures SegmentStored(s).st[c] != s.st[c] <==> Differs(s, c)
  {
    if PointsAt(s.sess, c) {
      var at, data := s.sess.data.at, SegmentData(s.mbx.buf[0]);
      assert Over(s.st[c], at, data)[at..at + |data|] == data;
      if s.st[c][at..at + |data|] == data { assert Over(s.st[c], at, data) == s.st[c]; }
    }
    hide SegmentSize;
  }

  lemma ProcessIs(d: Dictionary, s: Server, state: nat, dsize: nat, text: Frame)
    requires CanProcess(d, s, dsize)
    ensures var t := CoeProcess(d, s, state, dsize, text);
            var h := TakenOn(s);
            && h.st == s.st && h.sess == s.sess
            && (if !s.mbx.run || ContinuesList(h) || h.mbx.xoe != MBXCOE then t.st == s.st
                else CanHandle(d, h, dsize) && t == Handled(d, h, state, dsize, text))
  {
    hide Handled, Sent, CanHandle, Listing;
    if s.mbx.run { ContinuedAsTaken(d, s, dsize); }
  }

  /**
   A call of the CoE server changes a variable that may not be written now if
   and only if it serves a download segment, a buffer is free for the answer,
   the transfer points to the variable, and the bytes differ.
   */
  lemma UnwritableChangesExactly(d: Dictionary, s: Server, state: nat, dsize: nat, text: Frame, c: nat)
    requires CanProcess(d, s, dsize) && c < |s.st| && !WritableCell(d, c, state)
    ensures var t := CoeProcess(d, s, state, dsize, text);
            && SameSizes(s.st, t.st)
            && (t.st[c] != s.st[c] <==> StoresSegment(d, s, dsize) && Differs(TakenOn(s), c))
  {
    ProcessIs(d, s, state, dsize, text);
    var h := TakenOn(s);
    hide CoeProcess, TakenOn, CanProcess, SegmentStored, SdoDownloadSegment, CanTake, Differs, WritableCell, FreeBuffer;
    if s.mbx.run && !ContinuesList(h) && h.mbx.xoe == MBXCOE {
      if KindOf(h.mbx.buf[0], h.sess.segmented).DownloadSeg? {
        SegmentOnUnwritable(d, h, state, c);
        StoredDiffers(h, c);
      } else {
        HandledChangesWritable(d, h, state, dsize, text);
      }
    }
  }

  // A read-only variable, changed by two requests

  /** A CoE request has just been received, and a buffer is free for its answer. */
  ghost predicate Arrived(d: Dictionary, s: Server, dsize: nat) {
    && CanRead(d, s, dsize) && 1 < |d| <= 0x1_0000 && FreeBuffer(s.mbx) > 0
    && s.mbx.run && s.mbx.xoe == 0 && s.mbx.control[0] == Inclaim
    && s.mbx.buf[0].mtype == MBXCOE && s.mbx.buf[0].length >= COE_MINIMUM_LENGTH
  }

  /** It asks for an entry kept in variable c, readable now, that does not fit one message. */
  ghost predicate AsksForLong(d: Dictionary, s: Server, state: nat, dsize: nat, c: nat) {
    && Arrived(d, s, dsize) && KindOf(s.mbx.buf[0], s.sess.segmented).UploadOne?
    && IndexOf(s.mbx.buf[0]) != LIST_END
    && var f := Lookup(d, IndexOf(s.mbx.buf[0]), SubindexOf(s.mbx.buf[0]));
       && f.Found?
       && var e := d[f.o].entries[f.n];
          && e.data == Some(c) && ReadAccess(e.flags, state)
          && BitsToBytes(e.bitlength) > 4 && BitsToBytes(e.bitlength) + COE_HEADERSIZE > dsize
  }

  lemma TakesOn(d: Dictionary, s: Server, dsize: nat)
    requires Arrived(d, s, dsize)
    ensures var h := TakenOn(s);
            h == s.(mbx := s.mbx.(xoe := MBXCOE)) && FreeBuffer(h.mbx) == FreeBuffer(s.mbx) && !ContinuesList(h)
  {
    hide CanRead, Highest;
  }

  /** The upload leaves the transfer pointing to the variable. */
  lemma UploadAims(d: Dictionary, s: Server, state: nat, dsize: nat, text: Frame, c: nat)
    requires AsksForLong(d, s, state, dsize, c)
    ensures CanProcess(d, s, dsize)
    ensures var t := CoeProcess(d, s, state, dsize, text);
            && t.st == s.st && t.block == s.block && t.sess.data == Cell(c, 0)
            && t.sess.flags != COMPLETE_ACCESS_FLAG && t.sess.index == s.sess.index
  {
    TakesOn(d, s, dsize);
    hide TakenOn, Lookup, KindOf, FreeBuffer, SdoUpload, Serviceable, SdoFrame, Content, ReadAccess;
    var h := TakenOn(s);
    UploadServed(d, h, state, dsize);
    var f := Lookup(d, IndexOf(s.mbx.buf[0]), SubindexOf(s.mbx.buf[0]));
    NotCompleteFlag(d[f.o].entries[f.n].flags, state);
  }

  lemma NotCompleteFlag(flags: nat, state: nat)
    requires ReadAccess(flags, state)
    ensures flags != COMPLETE_ACCESS_FLAG
  {
    assert !Bit(COMPLETE_ACCESS_FLAG, 0) && !Bit(COMPLETE_ACCESS_FLAG, 1) && !Bit(COMPLETE_ACCESS_FLAG, 2);
  }

  /** A segment is stored there. */
  lemma SegmentLands(d: Dictionary, s: Server, state: nat, dsize: nat, text: Frame, c: nat)
    requires Arrived(d, s, dsize) && KindOf(s.mbx.buf[0], s.sess.segmented).DownloadSeg? && SegmentInside(s.mbx.buf[0])
    requires s.sess.data == Cell(c, 0) && s.sess.flags != COMPLETE_ACCESS_FLAG && s.sess.index != LIST_END
    requires c < |s.st| && SegmentSize(s.mbx.buf[0]) <= |s.st[c]|
    ensures CanProcess(d, s, dsize)
    ensures CoeProcess(d, s, state, dsize, text).st == s.st[c := Over(s.st[c], 0, SegmentData(s.mbx.buf[0]))]
  {
    TakesOn(d, s, dsize);
    hide TakenOn, Lookup, KindOf, FreeBuffer, SdoDownloadSegment, Serviceable, SegmentData, SegmentSize;
    DownloadSegmentServed(d, TakenOn(s), state);
  }

  /**
   So an accepted upload of a readable entry that does not fit one message, and
   one download segment, put the segment's bytes into the entry's variable,
   whether or not it may be written.
   */
  lemma ReadOnlyChanged(d: Dictionary, s: Server, m: Mbx, state: nat, dsize: nat, text: Frame, c: nat)
    requires AsksForLong(d, s, state, dsize, c) && c < |s.st| && s.sess.index != LIST_END
    requires CanProcess(d, s, dsize)
    requires var t := CoeProcess(d, s, state, dsize, text).(mbx := m);
             && Arrived(d, t, dsize) && KindOf(m.buf[0], t.sess.segmented).DownloadSeg? && SegmentInside(m.buf[0])
             && SegmentSize(m.buf[0]) <= |s.st[c]|
    ensures var t := CoeProcess(d, s, state, dsize, text).(mbx := m);
            && CanProcess(d, t, dsize)
            && CoeProcess(d, t, state, dsize, text).st == s.st[c := Over(s.st[c], 0, SegmentData(m.buf[0]))]
  {
    hide CoeProcess, CanProcess, AsksForLong, Arrived, KindOf, SegmentData, SegmentSize;
    UploadAims(d, s, state, dsize, text, c);
    SegmentLands(d, CoeProcess(d, s, state, dsize, text).(mbx := m), state, dsize, text, c);
  }

  /** A dictionary with one variable of 32 bytes, which may be read in every state and written in none. */
  const READ_ONLY: Dictionary := [
    Object(0x2000, OTYPE_ARRAY, 1, [Entry(0, 0x0005, 8, 0x07, 1, None), Entry(1, 0x0260, 256, 0x07, 0, Some(0))]),
    Object(LIST_END, 0, 0, [])
  ]

  /** An upload of it, and a segment of seven bytes, for mailboxes of 32. */
  const UPLOAD: Frame := Frame(10, MBXCOE, 1, [0, COE_SDOREQUEST * 0x10, 0x40, 0x00, 0x20, 0x01] + Zeros(26))
  const SEGMENT: Frame := Frame(10, MBXCOE, 2, [0, COE_SDOREQUEST * 0x10, 0x00, 1, 1, 1, 1, 1, 1, 1] + Zeros(22))

  const BEFORE: Store := [Zeros(32)]
  const AFTER: Store := [[1, 1, 1, 1, 1, 1, 1] + Zeros(25)]

  /** The message is in the inbox of mailboxes that run and have a free buffer. */
  predicate Inbox(m: Mbx, f: Frame) {
    Shaped(m) && FreeBuffer(m) > 0 && m.run && m.xoe == 0 && m.control[0] == Inclaim && m.buf[0] == f
  }

  lemma RequestFields()
    ensures IsRequest(UPLOAD) && |UPLOAD.body| == 32 && IndexOf(UPLOAD) == 0x2000 && SubindexOf(UPLOAD) == 1
    ensures IsRequest(SEGMENT) && |SEGMENT.body| == 32 && SegmentInside(SEGMENT)
             && SegmentData(SEGMENT) == [1, 1, 1, 1, 1, 1, 1]
    ensures UPLOAD.length == SEGMENT.length == 10 && UPLOAD.mtype == SEGMENT.mtype == MBXCOE
    ensures forall x :: KindOf(UPLOAD, x).UploadOne? && KindOf(SEGMENT, x).DownloadSeg?
  {
    assert SEGMENT.body[3..10] == [1, 1, 1, 1, 1, 1, 1];
  }

  lemma ReadOnlyServed(st: Store)
    requires |st| == 1 && |st[0]| == 32
    ensures Serviceable(READ_ONLY, st) && Lookup(READ_ONLY, 0x2000, 1) == Found(0, 1)
  {
    var o := READ_ONLY[0];
    assert WellFormedObject(o) && Loadable(o, st);
    assert FirstEntry(o, 1, 1) == 1;
  }

  lemma NeverWritable(state: nat)
    ensures !WritableCell(READ_ONLY, 0, state)
    ensures state in {2, 4, 8} ==> ReadAccess(0x07, state)
  {
    assert !Bit(0x07, 3) && !Bit(0x07, 4) && !Bit(0x07, 5);
    assert Bit(0x07, 0) && Bit(0x07, 1) && Bit(0x07, 2);
  }

  /** The two requests change it, in every state in which the mailboxes run. */
  lemma TwoRequestsChangeIt(s: Server, m: Mbx, state: nat, text: Frame)
    requires s.st == BEFORE && Inbox(s.mbx, UPLOAD) && Inbox(m, SEGMENT) && s.sess.index != LIST_END
             && state in {2, 4, 8}
    ensures CanProcess(READ_ONLY, s, 32)
    ensures var t := CoeProcess(READ_ONLY, s, state, 32, text).(mbx := m);
            CanProcess(READ_ONLY, t, 32) && CoeProcess(READ_ONLY, t, state, 32, text).st == AFTER
    ensures !WritableCell(READ_ONLY, 0, state) && AFTER[0] != BEFORE[0]
  {
    hide UPLOAD, SEGMENT, CoeProcess, CanProcess, KindOf, SegmentInside, SegmentData, SegmentSize, FreeBuffer,
      WritableCell,
      Lookup, Serviceable, ReadAccess;
    RequestFields();
    ReadOnlyServed(s.st);
    NeverWritable(state);
    UploadAims(READ_ONLY, s, state, 32, text, 0);
    var t := CoeProcess(READ_ONLY, s, state, 32, text).(mbx := m);
    ReadOnlyServed(t.st);
    ReadOnlyChanged(READ_ONLY, s, m, state, 32, text, 0);
    assert Over(BEFORE[0], 0, [1, 1, 1, 1, 1, 1, 1]) == AFTER[0];
    assert AFTER[0][0] != BEFORE[0][0];
  }
}
