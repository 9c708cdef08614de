/**
 Complete access from one server to another: the block that an upload yields,
 in one message or in segments, sent back as a download, restores the object.
 */
module CompleteTransfer {
  import opened Words
  import opened Bytes
  import opened ObjectDictionary
  import opened Mailbox
  import opened SdoTransfer
  import opened CompleteAccess
  import opened CompleteAccessRoundTrip
  import opened CoeHandlers
  import opened CoeAnswers
  import opened SdoRoundTrip

  // A download depends on the bytes it reaches only

  lemma {:induction false} SameReach(o: Object, state: nat, k: nat, size: nat, a: seq<byte>, b: seq<byte>, max: nat, v: Work, w: Work)
    requires Fits(o, Load.Download(a), k, size, max, v) && Fits(o, Load.Download(b), k, size, max, w) && v.st == w.st
    requires var n := BitsToBytes(Extent(o, k, size, max)); a[..n] == b[..n]
    ensures AllLoaded(o, state, Load.Download(a), k, size, max, v).st == AllLoaded(o, state, Load.Download(b), k, size, max, w).st
    decreases |o.entries| - k
  {
    if k < |o.entries| {
      LoopRound(o, state, Load.Download(a), k, size, max, v);
      LoopRound(o, state, Load.Download(b), k, size, max, w);
      var at := Aligned(size, o.entries[k].bitlength);
      var n := BitsToBytes(Extent(o, k, size, max));
      SameEntryReach(o.entries[k], state, at, a, b, n, v, w);
      hide EntryLoaded, Inside, Fits, AllLoaded;
      if !Stops(After(o, k, size), max) {
        SameReach(o, state, k + 1, After(o, k, size), a, b, max, EntryLoaded(o.entries[k], state, at, Load.Download(a), v),
                  EntryLoaded(o.entries[k], state, at, Load.Download(b), w));
      }
    }
  }

  lemma SameEntryReach(e: Entry, state: nat, at: nat, a: seq<byte>, b: seq<byte>, n: nat, v: Work, w: Work)
    requires Inside(e, at, Load.Download(a), v) && Inside(e, at, Load.Download(b), w) && v.st == w.st
    requires BitsToBytes(at + e.bitlength) <= n <= |a| && n <= |b| && a[..n] == b[..n]
    ensures EntryLoaded(e, state, at, Load.Download(a), v).st == EntryLoaded(e, state, at, Load.Download(b), w).st
  {
    if e.bitlength % 8 == 0 {
      var i, j := at / 8, at / 8 + BitsToBytes(e.bitlength);
      assert a[i..j] == a[..n][i..j];
      assert b[i..j] == b[..n][i..j];
    }
  }

  /** Storage after a full download of content into the object. */
  ghost function SpreadInto(o: Object, state: nat, nsub: nat, content: seq<byte>, st: Store): Store
    requires CanLoad(o, nsub, Load.Download(content), |content|, Work([], st))
  {
    LoopResult(o, state, nsub, Load.Download(content), |content|, Work([], st)).st
  }

  /** It makes no difference what follows the content, or what the block holds. */
  lemma SpreadOf(o: Object, state: nat, nsub: nat, data: seq<byte>, content: seq<byte>, w: Work)
    requires nsub < |o.entries| && Loadable(o, w.st) && content <= data && !IsDynamic(o)
    requires BitsToBytes(Extent(o, nsub, 0, |content|)) == |content|
    ensures CanLoad(o, nsub, Load.Download(data), |content|, w)
    ensures CanLoad(o, nsub, Load.Download(content), |content|, Work([], w.st))
    ensures LoopResult(o, state, nsub, Load.Download(data), |content|, w).st == SpreadInto(o, state, nsub, content, w.st)
  {
    assert data[..|content|] == content == content[..|content|];
    SameReach(o, state, nsub, 0, data, content, |content|, w, Work([], w.st));
  }

  // The initiate response, sent back

  /** What the response to a complete upload brings back, as a complete download. */
  ghost predicate BlockReturned(index: uint16, subindex: byte, content: seq<byte>, u: Session, f: Frame, dsize: nat, rest: seq<byte>) {
    && 11 <= dsize && 6 <= |f.body| <= |rest| == dsize && f.length <= dsize
    && var r := AsDownload(f, rest);
    && |r.body| == dsize && r.length <= dsize && Service(r) == COE_SDOREQUEST
    && IndexOf(r) == index && SubindexOf(r) == subindex && Command(r) / 0x20 == 1 && IsComplete(Command(r))
    && DownloadSize(r) == |content|
    && (if Collects(r, dsize) then
          && !Expedited(Command(r)) && r.body[10..] == content[..dsize - COE_HEADERSIZE]
          && u.segmented == MBXSEU && u.data == Scratch(0) && u.frags == |content| && u.fragsleft == dsize - COE_HEADERSIZE
        else DownloadAt(r) + |content| <= dsize && r.body[DownloadAt(r)..][..|content|] == content)
  }

  lemma BlockReturns(index: uint16, subindex: byte, bits: nat, block: seq<byte>, s: Session, dsize: nat, rest: seq<byte>)
    requires 14 <= dsize == |rest| < 0x1_0000 && bits % 8 == 0 < bits && BitsToBytes(bits) <= |block|
    requires BitsToBytes(bits) < 0x1_0000
    ensures var (u, f) := BlockReply(index, subindex, bits, block, s, dsize);
            BlockReturned(index, subindex, block[..BitsToBytes(bits)], u, f, dsize, rest)
  {
    if BitsToBytes(bits) <= 4 {
      SmallBlockReturns(index, subindex, bits, block, s, dsize, rest);
    } else {
      BigBlockReturns(index, subindex, bits, block, s, dsize, rest);
    }
  }

  lemma SmallBlockReturns(index: uint16, subindex: byte, bits: nat, block: seq<byte>, s: Session, dsize: nat, rest: seq<byte>)
    requires 14 <= dsize == |rest| < 0x1_0000 && bits % 8 == 0 < bits && BitsToBytes(bits) <= |block|
    requires BitsToBytes(bits) <= 4
    ensures var (u, f) := BlockReply(index, subindex, bits, block, s, dsize);
            BlockReturned(index, subindex, block[..BitsToBytes(bits)], u, f, dsize, rest)
  {
    hide SdoFrame, AsDownload;
    var n := BitsToBytes(bits);
    var f := BlockReply(index, subindex, bits, block, s, dsize).1;
    var command := COE_COMMAND_UPLOADRESPONSE + COE_COMPLETEACCESS + COE_SIZE_INDICATOR + COE_EXPEDITED_INDICATOR + CompleteDss(bits);
    ReturnedFields(f, COE_HEADERSIZE, command, index, subindex, block[..n], rest);
    var c := COE_COMMAND_DOWNLOADREQUEST + command % 0x20;
    assert Expedited(c) && 4 - c / 4 % 4 == n && c / 0x20 == 1 && IsComplete(c);
    var r := AsDownload(f, rest);
    assert r.body[6..][..n] == r.body[6..6 + n];
  }

  lemma BigBlockReturns(index: uint16, subindex: byte, bits: nat, block: seq<byte>, s: Session, dsize: nat, rest: seq<byte>)
    requires 14 <= dsize == |rest| < 0x1_0000 && 4 < BitsToBytes(bits) <= |block| && BitsToBytes(bits) < 0x1_0000
    ensures var (u, f) := BlockReply(index, subindex, bits, block, s, dsize);
            BlockReturned(index, subindex, block[..BitsToBytes(bits)], u, f, dsize, rest)
  {
    hide SdoFrame, AsDownload, Le32, Word;
    var n := BitsToBytes(bits);
    var k := if n + COE_HEADERSIZE > dsize then dsize - COE_HEADERSIZE else n;
    var f := BlockReply(index, subindex, bits, block, s, dsize).1;
    var data := Le32(n) + block[..k];
    LengthOfLe32(n);
    ReturnedFields(f, COE_HEADERSIZE + k, COE_COMMAND_UPLOADRESPONSE + COE_COMPLETEACCESS + COE_SIZE_INDICATOR, index, subindex,
                   data, rest);
    var r := AsDownload(f, rest);
    assert r.body[6] == data[0] && r.body[7] == data[1];
    assert DownloadSize(r) == n;
    assert r.body[10..10 + k] == r.body[6..6 + |data|][4..] == block[..k];
    assert r.body[10..][..k] == r.body[10..10 + k];
    assert block[..n][..k] == block[..k];
  }

  lemma LengthOfLe32(v: uint16)
    ensures |Le32(v)| == 4 && Word(Le32(v)[0], Le32(v)[1]) == v
  {
    WordOfLe16(v);
  }

  // Two servers

  /** An object of whole bytes that fits the block of either server. */
  ghost predicate Transferable(d: Dictionary, o: nat, nsub: nat, s: Server) {
    && o < |d| && nsub < |d[o].entries| && Loadable(d[o], s.st) && ByteEntries(d[o]) && !IsDynamic(d[o])
    && ObjectBytes(d[o], nsub) <= 0xFFFF && !BlockTooBig(ObjectBytes(d[o], nsub), s)
  }

  /** The bytes an upload of the object shows. */
  ghost function ObjectContent(o: Object, nsub: nat, u: Server, state: nat): (c: seq<byte>)
    requires nsub < |o.entries| && CanLoad(o, nsub, Load.Upload, 0, Work(u.block, u.st))
    requires ObjectBytes(o, nsub) <= |u.block|
    ensures |c| == ObjectBytes(o, nsub)
  {
    LoopResult(o, state, nsub, Load.Upload, 0, Work(u.block, u.st)).block[..ObjectBytes(o, nsub)]
  }

  lemma TransferableBytes(d: Dictionary, o: nat, nsub: nat, s: Server)
    requires Transferable(d, o, nsub, s)
    ensures CanLoad(d[o], nsub, Load.Upload, 0, Work(s.block, s.st))
    ensures LoopSize(d[o], nsub, 0) == 8 * ObjectBytes(d[o], nsub) > 0 && ObjectBytes(d[o], nsub) + 30 <= |s.block|
    ensures BitsToBytes(Extent(d[o], nsub, 0, ObjectBytes(d[o], nsub))) == ObjectBytes(d[o], nsub)
  {
    PlaceInside(d[o], s.st, nsub, 0, nsub);
    FullExtent(d[o], nsub, 0, ObjectBytes(d[o], nsub));
  }

  lemma BlockLength(o: Object, state: nat, nsub: nat, load: Load, max: nat, w: Work)
    requires CanLoad(o, nsub, load, max, w)
    ensures |LoopResult(o, state, nsub, load, max, w).block| == |w.block|
  {
  }

  lemma UploadAllServed(d: Dictionary, u: Server, state: nat, dsize: nat)
    requires CanServe(d, u, dsize) && FreeBuffer(u.mbx) > 0
    requires CompleteRefused(d, IndexOf(u.mbx.buf[0]), SubindexOf(u.mbx.buf[0])) == 0
    requires var f := Lookup(d, IndexOf(u.mbx.buf[0]), SubindexOf(u.mbx.buf[0]));
             Transferable(d, f.o, f.n, u)
    ensures var r := u.mbx.buf[0];
            var f := Lookup(d, IndexOf(r), SubindexOf(r));
            var bits := LoopSize(d[f.o], f.n, 0);
            var t := SdoUploadComplete(d, u, state, dsize);
            && CanLoad(d[f.o], f.n, Load.Upload, 0, Work(u.block, u.st))
            && t.block == LoopResult(d[f.o], state, f.n, Load.Upload, 0, Work(u.block, u.st)).block
            && BitsToBytes(bits) <= |t.block|
            && (t.sess, Response(u, t)) == BlockReply(IndexOf(r), SubindexOf(r), bits, t.block, u.sess, dsize)
            && t.st == u.st
  {
    hide Highest, Serviceable, BlockReply, LoopResult, LoopSize, Queued, Claimed, CanLoad, BlockTooBig, IsDynamic, Loadable;
    var r := u.mbx.buf[0];
    var f := Lookup(d, IndexOf(r), SubindexOf(r));
    TransferableBytes(d, f.o, f.n, u);
    BlockLength(d[f.o], state, f.n, Load.Upload, 0, Work(u.block, u.st));
    ClaimedKeepsInbox(u.mbx);
    var bits := LoopSize(d[f.o], f.n, 0);
    var w := LoopResult(d[f.o], state, f.n, Load.Upload, 0, Work(u.block, u.st));
    var (t, g) := BlockReply(IndexOf(r), SubindexOf(r), bits, w.block, u.sess, dsize);
    NoCounter(IndexOf(r), SubindexOf(r), bits, w.block, u.sess, dsize);
    SentIs(u.mbx, g);
    SentFrame(u.mbx, g);
  }

  lemma NoCounter(index: uint16, subindex: byte, bits: nat, block: seq<byte>, s: Session, dsize: nat)
    requires 11 <= dsize < 0x1_0000 && BitsToBytes(bits) <= |block| && BitsToBytes(bits) < 0x1_0000
    ensures BlockReply(index, subindex, bits, block, s, dsize).1.cnt == 0
  {
  }

  /** Part of the block has been moved from u to v. */
  ghost predicate BlockMidway(u: Server, v: Server, content: seq<byte>, index: nat, subindex: nat) {
    && u.sess.segmented == MBXSEU && u.sess.data == Scratch(0)
    && u.sess.fragsleft < u.sess.frags == |content| && content <= u.block
    && v.sess.data == Scratch(u.sess.fragsleft) && v.sess.flags == COMPLETE_ACCESS_FLAG
    && v.sess.frags == |content| && v.sess.fragsleft == u.sess.fragsleft
    && v.sess.index == index != LIST_END && v.sess.subindex == subindex
    && |content| <= |v.block| && v.block[..u.sess.fragsleft] == content[..u.sess.fragsleft]
  }

  /** v has the returned response in its inbox. */
  ghost predicate AskedAll(d: Dictionary, v: Server, dsize: nat, r: Frame) {
    Serviceable(d, v.st) && Shaped(v.mbx) && 14 <= dsize < 0x1_0000 && v.mbx.buf[0] == r
  }

  lemma DownloadAllServed(d: Dictionary, v: Server, state: nat, dsize: nat, index: uint16, subindex: byte,
                          content: seq<byte>, u: Session, g: Frame, rest: seq<byte>)
    requires index != LIST_END && BlockReturned(index, subindex, content, u, g, dsize, rest)
    requires AskedAll(d, v, dsize, AsDownload(g, rest))
    requires CompleteRefused(d, index, subindex) == 0
    requires var f := Lookup(d, index, subindex);
             Transferable(d, f.o, f.n, v) && |content| == ObjectBytes(d[f.o], f.n)
    ensures CanDownloadComplete(d, v, dsize)
    ensures var f := Lookup(d, index, subindex);
            var r := AsDownload(g, rest);
            var t := SdoDownloadComplete(d, v, state, dsize);
            && CanLoad(d[f.o], f.n, Load.Download(content), |content|, Work([], v.st))
            && (if Collects(r, dsize) then
                  t.st == v.st && t.sess == CollectStarted(r, v.sess, dsize)
                  && t.block == Over(v.block, 0, content[..dsize - COE_HEADERSIZE])
                else t.st == SpreadInto(d[f.o], state, f.n, content, v.st))
  {
    hide Highest, Serviceable, LoopSize, Sent, Loadable, AsDownload, IsDynamic, BlockTooBig, CanLoad, LoopResult, Extent,
      CollectStarted, ByteEntries;
    var f := Lookup(d, index, subindex);
    var r := AsDownload(g, rest);
    TransferableBytes(d, f.o, f.n, v);
    SpreadOf(d[f.o], state, f.n, content, content, Work([], v.st));
    var data := r.body[DownloadAt(r)..];
    if !Collects(r, dsize) {
      SpreadOf(d[f.o], state, f.n, data, content, Work(v.block, v.st));
    }
  }

  /** The first exchange: either the object is restored at once, or segments follow. */
  lemma StartAll(d: Dictionary, u: Server, v: Server, state: nat, dsize: nat, index: uint16, subindex: byte, rest: seq<byte>)
    requires 14 <= dsize == |rest| && CanServe(d, u, dsize) && FreeBuffer(u.mbx) > 0
    requires IndexOf(u.mbx.buf[0]) == index && SubindexOf(u.mbx.buf[0]) == subindex && CompleteRefused(d, index, subindex) == 0
    requires var f := Lookup(d, index, subindex);
             Transferable(d, f.o, f.n, u) && Transferable(d, f.o, f.n, v)
    requires var resp := Response(u, SdoUploadComplete(d, u, state, dsize));
             6 <= |resp.body| <= dsize && AskedAll(d, v, dsize, AsDownload(resp, rest))
    ensures CanDownloadComplete(d, v, dsize)
    ensures var f := Lookup(d, index, subindex);
            && CanLoad(d[f.o], f.n, Load.Upload, 0, Work(u.block, u.st))
            && ObjectBytes(d[f.o], f.n) <= |u.block|
            && var content := ObjectContent(d[f.o], f.n, u, state);
               && CanLoad(d[f.o], f.n, Load.Download(content), |content|, Work([], v.st))
               && var (u', v') := (SdoUploadComplete(d, u, state, dsize), SdoDownloadComplete(d, v, state, dsize));
                  (v'.st == SpreadInto(d[f.o], state, f.n, content, v.st)
                   || (BlockMidway(u', v', content, index, subindex) && v'.st == v.st))
  {
    hide Highest, Serviceable, SdoUploadComplete, SdoDownloadComplete, AsDownload, BlockReply, Loadable, LoopResult, CanLoad,
      Extent, LoopSize, ByteEntries, SpreadInto;
    var f := Lookup(d, index, subindex);
    UploadAllServed(d, u, state, dsize);
    TransferableBytes(d, f.o, f.n, u);
    var u' := SdoUploadComplete(d, u, state, dsize);
    var bits := LoopSize(d[f.o], f.n, 0);
    BlockReturns(index, subindex, bits, u'.block, u.sess, dsize, rest);
    var content := ObjectContent(d[f.o], f.n, u, state);
    assert content == u'.block[..BitsToBytes(bits)];
    var g := Response(u, u');
    DownloadAllServed(d, v, state, dsize, index, subindex, content, u'.sess, g, rest);
    var r := AsDownload(g, rest);
    var v' := SdoDownloadComplete(d, v, state, dsize);
    if Collects(r, dsize) {
      var k := dsize - COE_HEADERSIZE;
      assert v'.block[..k] == content[..k];
    }
  }

  /** A segment that does not complete the block is only collected. */
  lemma SegmentCollected(d: Dictionary, v: Server, state: nat, at: nat)
    requires CanTake(v) && WellFormed(d) && v.sess.index != LIST_END && FreeBuffer(v.mbx) > 0
    requires v.sess.data == Scratch(at) && !LastSegment(Command(v.mbx.buf[0]))
    ensures CanSegment(d, v)
    ensures var r := v.mbx.buf[0];
            var t := SdoDownloadSegment(d, v, state);
            t.st == v.st && t.sess == SegmentTaken(r, v.sess) && t.block == Over(v.block, at, SegmentData(r))
  {
    hide Highest, SegmentTaken, SegmentData, Lookup, LastSegment, CanLoad, WellFormed, LoopResult;
    ClaimedCanSegment(d, v);
  }

  /** The last segment completes the block, which is spread over the entries. */
  lemma SegmentSpread(d: Dictionary, v: Server, state: nat, at: nat, content: seq<byte>)
    requires CanTake(v) && WellFormed(d) && v.sess.index != LIST_END && FreeBuffer(v.mbx) > 0
    requires v.sess.data == Scratch(at) && LastSegment(Command(v.mbx.buf[0])) && v.sess.flags == COMPLETE_ACCESS_FLAG
    requires v.sess.frags == |content| == v.sess.fragsleft + SegmentSize(v.mbx.buf[0])
    requires content <= Over(v.block, at, SegmentData(v.mbx.buf[0]))
    requires Lookup(d, v.sess.index, v.sess.subindex).Found?
    requires var f := Lookup(d, v.sess.index, v.sess.subindex);
             Transferable(d, f.o, f.n, v) && |content| == ObjectBytes(d[f.o], f.n)
    ensures CanSegment(d, v)
    ensures var f := Lookup(d, v.sess.index, v.sess.subindex);
            && CanLoad(d[f.o], f.n, Load.Download(content), |content|, Work([], v.st))
            && SdoDownloadSegment(d, v, state).st == SpreadInto(d[f.o], state, f.n, content, v.st)
  {
    hide Highest, SegmentTaken, SegmentData, Lookup, LastSegment, CanLoad, WellFormed, LoopResult, Loadable, Extent, ByteEntries,
      IsDynamic, BlockTooBig, ObjectBytes, Sent, Queued;
    var f := Lookup(d, v.sess.index, v.sess.subindex);
    TransferableBytes(d, f.o, f.n, v);
    var block := Over(v.block, at, SegmentData(v.mbx.buf[0]));
    SpreadOf(d[f.o], state, f.n, block, content, Work(block, v.st));
    assert CanSegment(d, v);
    ClaimedCanSegment(d, v);
  }

  lemma TransferableIgnoresMailbox(d: Dictionary, v: Server, w: Server, index: nat, subindex: nat)
    requires Lookup(d, index, subindex).Found? && w.st == v.st && w.block == v.block
    requires var f := Lookup(d, index, subindex); Transferable(d, f.o, f.n, v)
    ensures var f := Lookup(d, index, subindex); Transferable(d, f.o, f.n, w)
  {
  }

  /** A further exchange moves the next bytes of the block; after the last one the object is restored. */
  lemma ContinueAll(d: Dictionary, u: Server, v: Server, x: Exchange, state: nat, dsize: nat, content: seq<byte>,
                    index: nat, subindex: nat)
    requires BlockMidway(u, v, content, index, subindex) && IsExchange(d, u, v, x, dsize)
    requires Lookup(d, index, subindex).Found?
    requires var f := Lookup(d, index, subindex);
             Transferable(d, f.o, f.n, v) && |content| == ObjectBytes(d[f.o], f.n)
    ensures CanSegment(d, v.(mbx := x.vm))
    ensures var f := Lookup(d, index, subindex);
            var u' := SdoUploadSegment(u.(mbx := x.um), dsize);
            var v' := SdoDownloadSegment(d, v.(mbx := x.vm), state);
            if u'.sess.segmented == 0 then
              && CanLoad(d[f.o], f.n, Load.Download(content), |content|, Work([], v.st))
              && v'.st == SpreadInto(d[f.o], state, f.n, content, v.st)
            else
              && BlockMidway(u', v', content, index, subindex) && v'.st == v.st && |v'.block| == |v.block|
              && u.sess.fragsleft < u'.sess.fragsleft
  {
    hide SegmentReply, AsDownloadSegment, SdoUploadSegment, SdoDownloadSegment, Highest, FreeBuffer, WellFormed, SegmentInside,
      SegmentData, SegmentSize, LastSegment, CanSend, Toggle, Lookup, Transferable, SpreadInto, CanSegment, CanLoad, ObjectBytes,
      SegmentLength;
    var u1, v1 := u.(mbx := x.um), v.(mbx := x.vm);
    var command := Command(x.um.buf[0]);
    var src := u.block;
    assert Source(u.sess.data, u.st, u.block) == src;
    SegmentServed(u1, dsize);
    SegmentShape(command, u.sess, src, dsize);
    SegmentReturns(command, u.sess, src, dsize, x.rest);
    UploadedPointer(command, u.sess, src, dsize);
    TransferableIgnoresMailbox(d, v, v1, index, subindex);
    var u' := SdoUploadSegment(u1, dsize);
    var r := AsDownloadSegment(Response(u1, u'), x.rest);
    var n := SegmentLength(u.sess, dsize);
    assert SegmentData(r) == content[u.sess.fragsleft..u.sess.fragsleft + n];
    if u'.sess.segmented == 0 {
      SegmentSpread(d, v1, state, u.sess.fragsleft, content);
    } else {
      SegmentCollected(d, v1, state, u.sess.fragsleft);
    }
  }

  /**
   What a complete transfer leaves at v: every entry that can be read and
   written in this state holds what it held at u, one that can only be written
   is zero, and no other variable has changed.
   */
  lemma ObjectRestored(d: Dictionary, o: nat, nsub: nat, u: Server, v: Server, state: nat, after: Store)
    requires Transferable(d, o, nsub, u) && Transferable(d, o, nsub, v) && DistinctCells(d[o])
    requires CanLoad(d[o], nsub, Load.Upload, 0, Work(u.block, u.st)) && ObjectBytes(d[o], nsub) <= |u.block|
    requires var content := ObjectContent(d[o], nsub, u, state);
             && CanLoad(d[o], nsub, Load.Download(content), |content|, Work([], v.st))
             && after == SpreadInto(d[o], state, nsub, content, v.st)
    ensures forall j | nsub <= j < |d[o].entries| && WriteAccess(d[o].entries[j].flags, state) ::
              Restored(d[o].entries[j], state, u.st, v.st, after)
    ensures forall c | 0 <= c < |v.st| && !WrittenFrom(d[o], state, nsub, c) :: after[c] == v.st[c]
  {
    hide Loadable, LoopResult, LoopSize, CanLoad, ByteEntries, DistinctCells, Restored, WrittenFrom;
    UploadThenDownloadAll(d[o], state, nsub, u.block, u.st, v.st, []);
  }

  // The whole transfer

  /** From any exchange on: as many further ones as bytes are missing, at the latest, spread the block over the entries. */
  lemma {:induction false} BlockTransferCompletes(d: Dictionary, us: seq<Server>, vs: seq<Server>, xs: seq<Exchange>, i: nat,
                                                  state: nat, dsize: nat, content: seq<byte>, index: nat, subindex: nat)
    returns (k: nat)
    requires IsTransfer(d, us, vs, xs, state, dsize) && i < |us| && BlockMidway(us[i], vs[i], content, index, subindex)
    requires Lookup(d, index, subindex).Found?
    requires var f := Lookup(d, index, subindex);
             Transferable(d, f.o, f.n, vs[i]) && |content| == ObjectBytes(d[f.o], f.n)
    requires |xs| - i >= us[i].sess.frags - us[i].sess.fragsleft
    ensures k < |vs| && us[k].sess.segmented == 0
    ensures var f := Lookup(d, index, subindex);
            && CanLoad(d[f.o], f.n, Load.Download(content), |content|, Work([], vs[i].st))
            && vs[k].st == SpreadInto(d[f.o], state, f.n, content, vs[i].st)
    decreases |xs| - i
  {
    assert us[i].sess.segmented != 0 && us[i].sess.fragsleft < us[i].sess.frags == |content|;
    hide IsExchange, CanSegment, SdoUploadSegment, SdoDownloadSegment, Lookup, CanLoad, SpreadInto, ObjectBytes, BlockMidway;
    ContinueAll(d, us[i], vs[i], xs[i], state, dsize, content, index, subindex);
    if us[i + 1].sess.segmented == 0 {
      k := i + 1;
    } else {
      var f := Lookup(d, index, subindex);
      SameRoom(d, f.o, f.n, vs[i], vs[i + 1]);
      MidwayCounts(us[i + 1], vs[i + 1], content, index, subindex);
      k := BlockTransferCompletes(d, us, vs, xs, i + 1, state, dsize, content, index, subindex);
    }
  }

  lemma MidwayCounts(u: Server, v: Server, content: seq<byte>, index: nat, subindex: nat)
    requires BlockMidway(u, v, content, index, subindex)
    ensures u.sess.segmented != 0 && u.sess.fragsleft < u.sess.frags == |content|
  {
  }

  lemma SameRoom(d: Dictionary, o: nat, nsub: nat, v: Server, w: Server)
    requires Transferable(d, o, nsub, v) && w.st == v.st && |w.block| == |v.block|
    ensures Transferable(d, o, nsub, w)
  {
    hide Loadable, ByteEntries, IsDynamic;
  }

  lemma DownloadAllKeepsRoom(d: Dictionary, v: Server, state: nat, dsize: nat)
    requires CanDownloadComplete(d, v, dsize)
    ensures |SdoDownloadComplete(d, v, state, dsize).block| == |v.block|
  {
    hide Highest, Sent, Lookup, Serviceable, LoopResult, CanLoad;
  }

  /**
   An object uploaded from u and sent back to v, in one message or in segments:
   at the latest after as many segments as the object has bytes, v holds what u
   held in every entry that can be read and written, and nothing else of v has
   changed.
   */
  lemma ObjectTransferRestores(d: Dictionary, u: Server, v: Server, us: seq<Server>, vs: seq<Server>, xs: seq<Exchange>,
                               state: nat, dsize: nat, index: uint16, subindex: byte, rest: seq<byte>)
    returns (k: nat)
    requires 14 <= dsize == |rest| && CanServe(d, u, dsize) && FreeBuffer(u.mbx) > 0
    requires IndexOf(u.mbx.buf[0]) == index && SubindexOf(u.mbx.buf[0]) == subindex && CompleteRefused(d, index, subindex) == 0
    requires var f := Lookup(d, index, subindex);
             Transferable(d, f.o, f.n, u) && Transferable(d, f.o, f.n, v) && DistinctCells(d[f.o])
    requires var resp := Response(u, SdoUploadComplete(d, u, state, dsize));
             6 <= |resp.body| <= dsize && AskedAll(d, v, dsize, AsDownload(resp, rest)) && CanDownloadComplete(d, v, dsize)
    requires IsTransfer(d, us, vs, xs, state, dsize)
    requires us[0] == SdoUploadComplete(d, u, state, dsize) && vs[0] == SdoDownloadComplete(d, v, state, dsize)
    requires var f := Lookup(d, index, subindex); |xs| >= ObjectBytes(d[f.o], f.n)
    ensures k < |vs|
    ensures var f := Lookup(d, index, subindex);
            && (forall j | f.n <= j < |d[f.o].entries| && WriteAccess(d[f.o].entries[j].flags, state) ::
                  Restored(d[f.o].entries[j], state, u.st, v.st, vs[k].st))
            && |vs[k].st| == |v.st|
            && forall c | 0 <= c < |v.st| && !WrittenFrom(d[f.o], state, f.n, c) :: vs[k].st[c] == v.st[c]
  {
    hide Lookup, Transferable, SdoUploadComplete, SdoDownloadComplete, AsDownload, CanLoad, SpreadInto, IsExchange, CanSegment,
      SdoUploadSegment, SdoDownloadSegment, BlockMidway, DistinctCells, Restored, WrittenFrom, CanDownloadComplete, CanServe,
      AskedAll, ObjectBytes, WriteAccess;
    var f := Lookup(d, index, subindex);
    StartAll(d, u, v, state, dsize, index, subindex, rest);
    var content := ObjectContent(d[f.o], f.n, u, state);
    if vs[0].st == SpreadInto(d[f.o], state, f.n, content, v.st) {
      k := 0;
    } else {
      DownloadAllKeepsRoom(d, v, state, dsize);
      SameRoom(d, f.o, f.n, v, vs[0]);
      MidwayCounts(us[0], vs[0], content, index, subindex);
      k := BlockTransferCompletes(d, us, vs, xs, 0, state, dsize, content, index, subindex);
    }
    SpreadKeepsCount(d[f.o], state, f.n, content, v.st);
    ObjectRestored(d, f.o, f.n, u, v, state, vs[k].st);
  }

  lemma SpreadKeepsCount(o: Object, state: nat, nsub: nat, content: seq<byte>, st: Store)
    requires CanLoad(o, nsub, Load.Download(content), |content|, Work([], st))
    ensures |SpreadInto(o, state, nsub, content, st)| == |st|
  {
  }
}
