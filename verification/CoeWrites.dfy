/**
 What the CoE server may write: variables of entries that may be written in the
 current state, and the variable a segmented transfer points to.
 */
module CoeWrites {
  import opened Words
  import opened ObjectDictionary
  import opened Mailbox
  import opened SdoTransfer
  import opened CompleteAccess
  import opened ObjectList
  import opened CoeHandlers

  /** A single download changes nothing but variables of entries that may be written in this state. */
  lemma DownloadChangesWritable(d: Dictionary, s: Server, state: nat, dsize: nat)
    requires CanDownload(d, s, dsize)
    ensures ChangesWritable(d, state, s.st, SdoDownload(d, s, state, dsize).st)
  {
    var r := s.mbx.buf[0];
    var f := Lookup(d, IndexOf(r), SubindexOf(r));
    hide Highest, Sent, Serviceable, Lookup, MappingLocked, DownloadData;
    if f.Found? {
      var e := d[f.o].entries[f.n];
      if WriteAccess(e.flags, state) && e.data.Some? { assert WritableCell(d, e.data.value, state); }
    }
  }

  /** Nor does a complete one. */
  lemma LoopChangesWritable(d: Dictionary, o: nat, state: nat, k: nat, size: nat, data: seq<byte>, max: nat, w: Work)
    requires o < |d| && Fits(d[o], Load.Download(data), k, size, max, w)
    ensures ChangesWritable(d, state, w.st, AllLoaded(d[o], state, Load.Download(data), k, size, max, w).st)
    decreases |d[o].entries| - k
  {
    if k < |d[o].entries| {
      LoopRound(d[o], state, Load.Download(data), k, size, max, w);
      var e := d[o].entries[k];
      var next := EntryLoaded(e, state, Aligned(size, e.bitlength), Load.Download(data), w);
      assert ChangesWritable(d, state, w.st, next.st) by {
        if WriteAccess(e.flags, state) && e.data.Some? { assert WritableCell(d, e.data.value, state); }
      }
      hide EntryLoaded, Inside, Fits, AllLoaded, WritableCell;
      if !Stops(After(d[o], k, size), max) {
        LoopChangesWritable(d, o, state, k + 1, After(d[o], k, size), data, max, next);
      }
    }
  }

  lemma DownloadAllChangesWritable(d: Dictionary, s: Server, state: nat, dsize: nat)
    requires CanDownloadComplete(d, s, dsize)
    ensures ChangesWritable(d, state, s.st, SdoDownloadComplete(d, s, state, dsize).st)
  {
    var r := s.mbx.buf[0];
    if CompleteRefused(d, IndexOf(r), SubindexOf(r)) == 0 {
      var f := Lookup(d, IndexOf(r), SubindexOf(r));
      ObjectChangesWritable(d, f.o, f.n, s, state, dsize);
    }
    hide Highest, Sent, Lookup, ObjectDownloaded, WritableCell;
  }

  lemma ObjectChangesWritable(d: Dictionary, o: nat, nsub: nat, s: Server, state: nat, dsize: nat)
    requires o < |d| && CanDownloadObject(d[o], nsub, s, dsize)
    ensures ChangesWritable(d, state, s.st, ObjectDownloaded(d[o], nsub, s, state, dsize).st)
  {
    var r := s.mbx.buf[0];
    if DownloadSize(r) <= ObjectBytes(d[o], nsub) <= 0xFFFF && !Collects(r, dsize) {
      LoopChangesWritable(d, o, state, nsub, 0, r.body[DownloadAt(r)..], DownloadSize(r), Work(s.block, s.st));
    }
    hide Highest, Sent, AllLoaded, Extent, WritableCell;
  }

  // Segments

  predicate PointsAt(s: Session, c: nat) {
    s.data.Cell? && s.data.c == c
  }

  /** Cells of entries writable in this state change, and the cell the transfer points to; all keep their size. */
  ghost predicate ChangesReach(d: Dictionary, state: nat, s: Session, st: Store, after: Store) {
    && SameSizes(st, after)
    && forall c | 0 <= c < |st| && !WritableCell(d, c, state) && !PointsAt(s, c) :: after[c] == st[c]
  }

  lemma SpreadChangesWritable(d: Dictionary, s: Server, state: nat)
    requires Shaped(s.mbx) && SegmentInside(s.mbx.buf[0]) && SpreadRefused(d, s) == 0 && CanSpread(d, s)
    ensures ChangesWritable(d, state, s.st, Spread(d, s, state).st)
  {
    if Completes(s) {
      var f := Lookup(d, s.sess.index, s.sess.subindex);
      if !IsDynamic(d[f.o]) {
        LoopChangesWritable(d, f.o, state, f.n, 0, s.block, s.sess.frags, Work(s.block, s.st));
      }
    }
    hide AllLoaded, WritableCell, Lookup;
  }

  /** A segment is stored where the transfer points, whatever the current access rights; a block is spread by them. */
  lemma SegmentReach(d: Dictionary, s: Server, state: nat)
    requires CanSegment(d, s)
    ensures ChangesReach(d, state, s.sess, s.st, SdoDownloadSegment(d, s, state).st)
  {
    ClaimedCanSegment(d, s);
    var c := s.(mbx := Claimed(s.mbx));
    var s1 := SegmentStored(c);
    assert ChangesReach(d, state, s.sess, s.st, s1.st) by { hide Highest, SegmentData, WritableCell; }
    hide Highest, SegmentData, WritableCell, Spread, CanSpread, SegmentStored, SpreadRefused, SegmentTaken, Sent, Claimed, Queued;
    if SpreadRefused(d, s1) == 0 { SpreadChangesWritable(d, s1, state); }
  }

  /** One call of the CoE server. */
  lemma ProcessReach(d: Dictionary, s: Server, state: nat, dsize: nat, text: Frame)
    requires CanProcess(d, s, dsize)
    ensures ChangesReach(d, state, s.sess, s.st, CoeProcess(d, s, state, dsize, text).st)
  {
    hide Handled, Sent, CanHandle, Listing, WritableCell;
    var s1 := TakenOn(s);
    if s.mbx.run {
      ContinuedAsTaken(d, s, dsize);
      if !ContinuesList(s1) && s1.mbx.xoe == MBXCOE { HandledReach(d, s1, state, dsize, text); }
    }
  }

  /** All requests but a segment go by the access rights of now. */
  lemma HandledChangesWritable(d: Dictionary, s: Server, state: nat, dsize: nat, text: Frame)
    requires CanHandle(d, s, dsize) && !KindOf(s.mbx.buf[0], s.sess.segmented).DownloadSeg?
    ensures ChangesWritable(d, state, s.st, Handled(d, s, state, dsize, text).st)
  {
    match KindOf(s.mbx.buf[0], s.sess.segmented)
    case UploadOne => UploadKeepsStore(d, s, state, dsize);
    case UploadAll => UploadAllKeepsStore(d, s, state, dsize);
    case DownloadOne => DownloadChangesWritable(d, s, state, dsize);
    case DownloadAll => DownloadAllChangesWritable(d, s, state, dsize);
    case _ => hide Sent, WritableCell, Fragments;
  }

  lemma HandledReach(d: Dictionary, s: Server, state: nat, dsize: nat, text: Frame)
    requires CanHandle(d, s, dsize)
    ensures ChangesReach(d, state, s.sess, s.st, Handled(d, s, state, dsize, text).st)
  {
    hide SdoDownloadSegment, WritableCell, CanSegment;
    if KindOf(s.mbx.buf[0], s.sess.segmented).DownloadSeg? {
      SegmentReach(d, s, state);
    } else {
      HandledChangesWritable(d, s, state, dsize, text);
      hide Handled;
    }
  }

  lemma UploadKeepsStore(d: Dictionary, s: Server, state: nat, dsize: nat)
    requires CanServe(d, s, dsize)
    ensures SdoUpload(d, s, state, dsize).st == s.st
  {
    hide Sent, UploadReply, Lookup, Serviceable;
  }

  lemma UploadAllKeepsStore(d: Dictionary, s: Server, state: nat, dsize: nat)
    requires CanServe(d, s, dsize)
    ensures SdoUploadComplete(d, s, state, dsize).st == s.st
  {
    hide Sent, BlockReply, LoopResult, Lookup, Serviceable, Queued, Claimed;
  }

  // Where a transfer points

  /**
   Some entry stored in cell c can become the target of a segmented transfer: it
   is longer than 4 bytes and may be written, or may be read and does not fit
   one message.
   */
  predicate TransferTarget(d: Dictionary, c: nat, state: nat, dsize: nat) {
    exists i, j | 0 <= i < |d| && 0 <= j < |d[i].entries| ::
      d[i].entries[j].data == Some(c) && IsTarget(d[i].entries[j], state, dsize)
  }

  predicate IsTarget(e: Entry, state: nat, dsize: nat) {
    && BitsToBytes(e.bitlength) > 4
    && (WriteAccess(e.flags, state) || (ReadAccess(e.flags, state) && BitsToBytes(e.bitlength) + COE_HEADERSIZE > dsize))
  }

  /** The transfer points where it did, or to such a target. */
  ghost predicate PointsOn(d: Dictionary, s: Session, t: Session, state: nat, dsize: nat) {
    forall c | PointsAt(t, c) :: PointsAt(s, c) || TransferTarget(d, c, state, dsize)
  }

  lemma UploadPoints(d: Dictionary, s: Server, state: nat, dsize: nat)
    requires CanServe(d, s, dsize)
    ensures PointsOn(d, s.sess, SdoUpload(d, s, state, dsize).sess, state, dsize)
  {
    var f := Lookup(d, IndexOf(s.mbx.buf[0]), SubindexOf(s.mbx.buf[0]));
    hide Sent, Lookup, Highest, Content, WellFormed;
    if f.Found? {
      var e := d[f.o].entries[f.n];
      assert Backed(e, s.st);
      hide Serviceable;
      assert e.data.Some? && IsTarget(e, state, dsize) ==> TransferTarget(d, e.data.value, state, dsize);
    }
  }

  lemma DownloadPoints(d: Dictionary, s: Server, state: nat, dsize: nat)
    requires CanDownload(d, s, dsize)
    ensures PointsOn(d, s.sess, SdoDownload(d, s, state, dsize).sess, state, dsize)
  {
    var f := Lookup(d, IndexOf(s.mbx.buf[0]), SubindexOf(s.mbx.buf[0]));
    hide Sent, Serviceable, Lookup, Highest, MappingLocked, DownloadData, Padded, LengthAccepted;
    if f.Found? {
      var e := d[f.o].entries[f.n];
      assert e.data.Some? && IsTarget(e, state, dsize) ==> TransferTarget(d, e.data.value, state, dsize);
    }
  }

  lemma UploadAllPoints(d: Dictionary, s: Server, state: nat, dsize: nat)
    requires CanServe(d, s, dsize)
    ensures PointsOn(d, s.sess, SdoUploadComplete(d, s, state, dsize).sess, state, dsize)
  {
    hide Sent, Serviceable, Lookup, Highest, LoopResult, LoopSize, Queued, Claimed, TransferTarget;
  }

  lemma DownloadAllPoints(d: Dictionary, s: Server, state: nat, dsize: nat)
    requires CanDownloadComplete(d, s, dsize)
    ensures PointsOn(d, s.sess, SdoDownloadComplete(d, s, state, dsize).sess, state, dsize)
  {
    hide Sent, Serviceable, Lookup, Highest, LoopResult, LoopSize, TransferTarget;
  }

  lemma SegmentPoints(d: Dictionary, s: Server, state: nat, dsize: nat)
    requires CanSegment(d, s)
    ensures PointsOn(d, s.sess, SdoDownloadSegment(d, s, state).sess, state, dsize)
  {
    ClaimedCanSegment(d, s);
    hide Sent, Lookup, Highest, LoopResult, TransferTarget, CanSpread, SegmentData, Claimed, Queued;
  }

  lemma HandledPoints(d: Dictionary, s: Server, state: nat, dsize: nat, text: Frame)
    requires CanHandle(d, s, dsize)
    ensures PointsOn(d, s.sess, Handled(d, s, state, dsize, text).sess, state, dsize)
  {
    hide TransferTarget;
    match KindOf(s.mbx.buf[0], s.sess.segmented)
    case UploadOne => UploadPoints(d, s, state, dsize);
    case UploadAll => UploadAllPoints(d, s, state, dsize);
    case DownloadOne => DownloadPoints(d, s, state, dsize);
    case DownloadAll => DownloadAllPoints(d, s, state, dsize);
    case DownloadSeg => SegmentPoints(d, s, state, dsize);
    case _ => hide Sent, Fragments;
  }

  lemma ProcessPoints(d: Dictionary, s: Server, state: nat, dsize: nat, text: Frame)
    requires CanProcess(d, s, dsize)
    ensures PointsOn(d, s.sess, CoeProcess(d, s, state, dsize, text).sess, state, dsize)
  {
    hide Handled, Sent, CanHandle, Listing, TransferTarget;
    var s1 := TakenOn(s);
    if s.mbx.run {
      ContinuedAsTaken(d, s, dsize);
      if !ContinuesList(s1) && s1.mbx.xoe == MBXCOE { HandledPoints(d, s1, state, dsize, text); }
    }
  }
}
