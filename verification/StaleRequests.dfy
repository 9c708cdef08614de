/**
 The requests that make the cached mapping stale: a download of one mapping
 value, or of the whole object it belongs to.
 */
module StaleRequests {
  import opened Words
  import opened Bytes
  import opened ObjectDictionary
  import opened PdoMapping
  import opened AlControl
  import opened AlRuns
  import opened Mailbox
  import opened SdoTransfer
  import opened CompleteAccess
  import opened CompleteAccessRoundTrip
  import opened CompleteTransfer
  import opened CoeHandlers
  import opened CoeAnswers
  import opened SegmentRights
  import opened SlaveRuns
  import opened StaleMapping

  /** A download that carries its bytes in one message; flag 0x10 makes it a complete one. */
  function DownloadOf(flag: byte, index: uint16, subindex: byte, bs: seq<byte>, dsize: nat): (f: Frame)
    requires flag in {0, COE_COMPLETEACCESS} && |bs| + COE_HEADERSIZE <= dsize < 0x1_0000
    ensures |f.body| == dsize
  {
    Frame(COE_HEADERSIZE + |bs|, MBXCOE, 1,
          [0, COE_SDOREQUEST * 0x10, COE_COMMAND_DOWNLOADREQUEST + COE_SIZE_INDICATOR + flag] + Le16(index) + [subindex]
          + Le32(|bs|) + bs + Zeros(dsize - COE_HEADERSIZE - |bs|))
  }

  lemma DownloadKind(flag: byte, index: uint16, subindex: byte, bs: seq<byte>, dsize: nat, segmented: nat)
    requires flag in {0, COE_COMPLETEACCESS} && 1 <= |bs| && |bs| + COE_HEADERSIZE <= dsize < 0x1_0000
    ensures var r := DownloadOf(flag, index, subindex, bs, dsize);
            IsRequest(r) && KindOf(r, segmented) == if flag == 0 then DownloadOne else DownloadAll
  {
    hide Le16, Le32;
    var r := DownloadOf(flag, index, subindex, bs, dsize);
    assert r.body[1] == 0x20 && r.body[2] == 0x21 + flag;
  }

  lemma DownloadFields(flag: byte, index: uint16, subindex: byte, bs: seq<byte>, dsize: nat)
    requires flag in {0, COE_COMPLETEACCESS} && 1 <= |bs| && |bs| + COE_HEADERSIZE <= dsize < 0x1_0000
    ensures var r := DownloadOf(flag, index, subindex, bs, dsize);
            && IsRequest(r) && r.length == COE_HEADERSIZE + |bs| && r.mtype == MBXCOE
            && IndexOf(r) == index && SubindexOf(r) == subindex && DownloadSize(r) == |bs| && DownloadAt(r) == 10
            && DownloadInside(r) && DownloadData(r) == bs && bs <= r.body[10..]
  {
    WordOfLe16(index);
    LengthOfLe32(|bs|);
    var r := DownloadOf(flag, index, subindex, bs, dsize);
    hide Le16, Le32, Word;
    var head := [0, COE_SDOREQUEST * 0x10, COE_COMMAND_DOWNLOADREQUEST + COE_SIZE_INDICATOR + flag];
    assert r.body[3..5] == Le16(index) && r.body[6..10] == Le32(|bs|) && r.body[10..10 + |bs|] == bs;
    assert r.body[3] == Le16(index)[0] && r.body[4] == Le16(index)[1];
    assert r.body[6] == Le32(|bs|)[0] && r.body[7] == Le32(|bs|)[1];
    assert r.body[10..][..|bs|] == bs;
  }

  lemma FoundAt(d: Dictionary, o: nat, n: nat)
    requires WellFormed(d) && o < |d| - 1 && n < |d[o].entries|
    ensures Lookup(d, d[o].index, d[o].entries[n].subindex) == Found(o, n) && d[o].index != LIST_END
  {
    ObjectNoIs(d, o);
    EntryNoIs(d[o], n);
  }

  // One value

  /** A download of the value to its entry is served: the variable takes its bytes. */
  lemma ValueDownloaded(d: Dictionary, s: Server, state: nat, dsize: nat, text: Frame, o: nat, n: nat, bs: seq<byte>)
    requires Arrived(d, s, dsize) && o < |d| - 1 && n < |d[o].entries| && d[o].entries[n].subindex < 256
    requires var e := d[o].entries[n];
             && 1 <= |bs| == BitsToBytes(e.bitlength) && |bs| + COE_HEADERSIZE <= dsize
             && WriteAccess(e.flags, state) && Loadable(d[o], s.st) && CanFetch(d[o].entries[0], s.st, 1)
             && !MappingLocked(d[o], e.subindex, e.flags, s.st)
             && s.mbx.buf[0] == DownloadOf(0, d[o].index, e.subindex, bs, dsize)
    ensures CanProcess(d, s, dsize)
    ensures var e := d[o].entries[n];
            && e.data.Some? && e.data.value < |s.st| && |bs| <= |s.st[e.data.value]|
            && CoeProcess(d, s, state, dsize, text).st == s.st[e.data.value := Over(s.st[e.data.value], 0, bs)]
  {
    DownloadFields(0, d[o].index, d[o].entries[n].subindex, bs, dsize);
    DownloadKind(0, d[o].index, d[o].entries[n].subindex, bs, dsize, s.sess.segmented);
    FoundAt(d, o, n);
    TakesOn(d, s, dsize);
    hide DownloadOf, TakenOn, Lookup, KindOf, FreeBuffer, SdoDownload, Serviceable, DownloadData, DownloadInside,
      DownloadSize,
      MappingLocked, WriteAccess, Loadable;
    DownloadServed(d, TakenOn(s), state, dsize);
  }

  /**
   A mapping value in use whose entry may be written now, and is not locked,
   makes the lists stale by an ordinary download of the value 8 bits longer.
   */
  lemma DownloadMakesStale(d: Dictionary, lim: Limits, al: Al, s: Server, text: Frame, index: nat, o: nat, n: nat,
                           cell: nat)
    requires Arrived(d, s, lim.dsize) && o < |d| - 1 && n < |d[o].entries| && d[o].entries[n].subindex < 256
    requires var e := d[o].entries[n];
             && e.data == Some(cell) && cell < |s.st| && 1 <= BitsToBytes(e.bitlength) <= |s.st[cell]|
             && BitsToBytes(e.bitlength) + COE_HEADERSIZE <= lim.dsize < 0x1_0000
             && WriteAccess(e.flags, StateOf(al)) && Loadable(d[o], s.st) && CanFetch(d[o].entries[0], s.st, 1)
             && !MappingLocked(d[o], e.subindex, e.flags, s.st)
             && var bs := Resized(s.st, cell)[cell][..BitsToBytes(e.bitlength)];
                s.mbx.buf[0] == DownloadOf(0, d[o].index, e.subindex, bs, lim.dsize)
    requires CacheAgrees(d, lim, al, s.st) && al.rx.nm >= 0 && al.tx.nm >= 0 && index in {RX_PDO_OBJIDX, TX_PDO_OBJIDX}
    requires InUse(d, s.st, index, cell) && HoldsValues(d, s.st, index, cell)
    ensures CanProcess(d, s, lim.dsize)
    ensures var t := CoeProcess(d, s, StateOf(al), lim.dsize, text);
            t.st == Resized(s.st, cell) && !CacheAgrees(d, lim, al, t.st)
  {
    hide CoeProcess, CanProcess, Arrived, InUse, HoldsValues, CacheAgrees, MappingLocked, DownloadOf, Loadable,
      WriteAccess,
      CanFetch;
    var e := d[o].entries[n];
    var bs := Resized(s.st, cell)[cell][..BitsToBytes(e.bitlength)];
    ValueDownloaded(d, s, StateOf(al), lim.dsize, text, o, n, bs);
    assert Over(s.st[cell], 0, bs) == Resized(s.st, cell)[cell];
    assert WritableCell(d, cell, StateOf(al));
    WritableValueMakesStale(d, lim, al, s.st, index, cell);
  }

  // The whole object

  /** Entries from nsub on that may be written in this state may be read, too. */
  predicate WritableReadable(o: Object, nsub: nat, state: nat) {
    forall j | nsub <= j < |o.entries| && WriteAccess(o.entries[j].flags, state) :: ReadAccess(o.entries[j].flags, state)
  }

  /** What an upload of the object would show if the value in the cell were changed. */
  ghost function ChangedContent(o: Object, nsub: nat, state: nat, block: seq<byte>, st: Store, cell: nat): (c: seq<byte>)
    requires cell < |st| && |st[cell]| > 0 && CanLoad(o, nsub, Upload, 0, Work(block, Resized(st, cell)))
    requires ObjectBytes(o, nsub) <= |block|
    ensures |c| == ObjectBytes(o, nsub)
  {
    LoopResult(o, state, nsub, Upload, 0, Work(block, Resized(st, cell))).block[..ObjectBytes(o, nsub)]
  }

  /** Spreading the block that shows the changed value changes that value and nothing else. */
  lemma SpreadResizes(o: Object, state: nat, nsub: nat, block: seq<byte>, st: Store, cell: nat, n: nat)
    requires cell < |st| && |st[cell]| > 0 && nsub <= n < |o.entries|
    requires CanLoad(o, nsub, Upload, 0, Work(block, Resized(st, cell))) && Loadable(o, st) && !IsDynamic(o)
    requires ByteEntries(o) && DistinctCells(o) && WritableReadable(o, nsub, state)
    requires o.entries[n].data == Some(cell) && WriteAccess(o.entries[n].flags, state)
    requires ObjectBytes(o, nsub) <= |block|
    ensures var content := ChangedContent(o, nsub, state, block, st, cell);
            && CanLoad(o, nsub, Download(content), |content|, Work([], st))
            && SpreadInto(o, state, nsub, content, st) == Resized(st, cell)
  {
    var rs := Resized(st, cell);
    UploadThenDownloadAll(o, state, nsub, block, rs, st, []);
    var content := ChangedContent(o, nsub, state, block, st, cell);
    var after := SpreadInto(o, state, nsub, content, st);
    hide LoopResult, LoopSize, CanLoad, Loadable, DistinctCells, Resized, SpreadInto;
    assert Restored(o.entries[n], state, rs, st, after);
    forall c | 0 <= c < |st| ensures after[c] == rs[c] {
      if WrittenFrom(o, state, nsub, c) {
        var j :| nsub <= j < |o.entries| && o.entries[j].data == Some(c) && WriteAccess(o.entries[j].flags, state);
        assert Restored(o.entries[j], state, rs, st, after);
        TakenOver(o.entries[j], state, st, cell, after);
      } else {
        assert c != cell;
      }
    }
  }

  lemma TakenOver(e: Entry, state: nat, st: Store, cell: nat, after: Store)
    requires cell < |st| && |st[cell]| > 0 && Restored(e, state, Resized(st, cell), st, after)
    requires ReadAccess(e.flags, state) && e.bitlength > 0
    ensures e.data.value < |st| && after[e.data.value] == Resized(st, cell)[e.data.value]
  {
    var c, n := e.data.value, BitsToBytes(e.bitlength);
    assert n >= 1 && Resized(st, cell)[c][..n] + Resized(st, cell)[c][n..] == Resized(st, cell)[c];
    assert Resized(st, cell)[c][n..] == st[c][n..];
  }

  /** A complete download in one message, of as many bytes as the object has, is spread over its entries. */
  lemma ObjectDownload(d: Dictionary, s: Server, state: nat, dsize: nat, text: Frame, o: nat, nsub: nat,
                       content: seq<byte>)
    requires Arrived(d, s, dsize) && o < |d| - 1 && Transferable(d, o, nsub, s) && d[o].entries[nsub].subindex <= 1
    requires |content| == ObjectBytes(d[o], nsub) && |content| + COE_HEADERSIZE <= dsize
    requires s.mbx.buf[0] == DownloadOf(COE_COMPLETEACCESS, d[o].index, d[o].entries[nsub].subindex, content, dsize)
    ensures CanProcess(d, s, dsize) && CanLoad(d[o], nsub, Download(content), |content|, Work([], s.st))
    ensures CoeProcess(d, s, state, dsize, text).st == SpreadInto(d[o], state, nsub, content, s.st)
  {
    TransferableBytes(d, o, nsub, s);
    DownloadFields(COE_COMPLETEACCESS, d[o].index, d[o].entries[nsub].subindex, content, dsize);
    DownloadKind(COE_COMPLETEACCESS, d[o].index, d[o].entries[nsub].subindex, content, dsize, s.sess.segmented);
    FoundAt(d, o, nsub);
    TakesOn(d, s, dsize);
    var r := DownloadOf(COE_COMPLETEACCESS, d[o].index, d[o].entries[nsub].subindex, content, dsize);
    hide DownloadOf, TakenOn, Lookup, KindOf, FreeBuffer, Serviceable, DownloadData, DownloadInside, DownloadSize,
      DownloadAt,
      Loadable, LoopResult, CanLoad, LoopSize, Extent, ByteEntries, Sent, IsDynamic, BlockTooBig;
    SpreadOf(d[o], state, nsub, content, content, Work([], s.st));
    SpreadOf(d[o], state, nsub, r.body[10..], content, Work(s.block, s.st));
    assert CanDownloadComplete(d, TakenOn(s), dsize);
  }

  /**
   The same for the values of mapping objects, which are locked while their
   count is not zero: complete access does not look at the lock.
   */
  lemma CompleteDownloadMakesStale(d: Dictionary, lim: Limits, al: Al, s: Server, text: Frame, index: nat, o: nat,
                                   nsub: nat,
                                   n: nat, cell: nat)
    requires Arrived(d, s, lim.dsize) && o < |d| - 1 && Transferable(d, o, nsub, s) && d[o].entries[nsub].subindex <= 1
    requires nsub <= n < |d[o].entries| && cell < |s.st| && |s.st[cell]| > 0
    requires DistinctCells(d[o]) && WritableReadable(d[o], nsub, StateOf(al))
    requires d[o].entries[n].data == Some(cell) && WriteAccess(d[o].entries[n].flags, StateOf(al))
    requires ObjectBytes(d[o], nsub) + COE_HEADERSIZE <= lim.dsize < 0x1_0000
    requires CanLoad(d[o], nsub, Upload, 0, Work(s.block, Resized(s.st, cell))) && ObjectBytes(d[o], nsub) <= |s.block|
    requires var content := ChangedContent(d[o], nsub, StateOf(al), s.block, s.st, cell);
             s.mbx.buf[0] ==
             DownloadOf(COE_COMPLETEACCESS, d[o].index, d[o].entries[nsub].subindex, content, lim.dsize)
    requires CacheAgrees(d, lim, al, s.st) && al.rx.nm >= 0 && al.tx.nm >= 0 && index in {RX_PDO_OBJIDX, TX_PDO_OBJIDX}
    requires InUse(d, s.st, index, cell) && HoldsValues(d, s.st, index, cell)
    ensures CanProcess(d, s, lim.dsize)
    ensures var t := CoeProcess(d, s, StateOf(al), lim.dsize, text);
            t.st == Resized(s.st, cell) && !CacheAgrees(d, lim, al, t.st)
  {
    hide CoeProcess, CanProcess, Arrived, InUse, HoldsValues, CacheAgrees, DownloadOf, Loadable, WriteAccess,
      LoopResult, CanLoad,
      Resized, SpreadInto, LoopSize, DistinctCells, ByteEntries;
    var content := ChangedContent(d[o], nsub, StateOf(al), s.block, s.st, cell);
    SpreadResizes(d[o], StateOf(al), nsub, s.block, s.st, cell, n);
    ObjectDownload(d, s, StateOf(al), lim.dsize, text, o, nsub, content);
    assert WritableCell(d, cell, StateOf(al));
    WritableValueMakesStale(d, lim, al, s.st, index, cell);
  }
}
