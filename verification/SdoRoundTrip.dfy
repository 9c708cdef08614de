/**
 Two servers with the same dictionary: what one uploads, sent back to the other
 as a download, rebuilds the same bytes there. Between two exchanges anything
 may happen in the mailboxes.
 */
module SdoRoundTrip {
  import opened Words
  import opened Bytes
  import opened ObjectDictionary
  import opened Mailbox
  import opened SdoTransfer
  import opened CoeHandlers
  import opened CompleteAccess
  import opened CoeAnswers

  /** The message a handler has queued for the one free buffer it found. */
  function Response(before: Server, after: Server): Frame
    requires Shaped(before.mbx) && LikeShaped(after.mbx, before.mbx)
  {
    after.mbx.buf[FreeBuffer(before.mbx)].(cnt := 0)
  }

  /** Part of the content has been moved from cell c of u to cell c of v; tail is what v holds behind it. */
  ghost predicate Midway(u: Server, v: Server, c: nat, content: seq<byte>, tail: seq<byte>) {
    && u.sess.segmented == MBXSEU && u.sess.data == Cell(c, 0) && c < |u.st|
    && u.sess.fragsleft < u.sess.frags == |content| && content <= u.st[c]
    && v.sess.data == Cell(c, u.sess.fragsleft) && v.sess.flags != COMPLETE_ACCESS_FLAG && v.sess.index != LIST_END
    && c < |v.st| && |v.st[c]| == |content| + |tail|
    && v.st[c][..u.sess.fragsleft] == content[..u.sess.fragsleft] && v.st[c][|content|..] == tail
  }

  ghost predicate Complete(v: Server, c: nat, content: seq<byte>, tail: seq<byte>) {
    v.sess.segmented == 0 && c < |v.st| && v.st[c] == content + tail
  }

  /** u holds a request for this entry, to be uploaded. */
  ghost predicate Requested(d: Dictionary, u: Server, state: nat, dsize: nat, index: uint16, subindex: byte) {
    && CanServe(d, u, dsize) && FreeBuffer(u.mbx) > 0
    && IndexOf(u.mbx.buf[0]) == index && SubindexOf(u.mbx.buf[0]) == subindex
    && var f := Lookup(d, index, subindex);
       f.Found? && ReadAccess(d[f.o].entries[f.n].flags, state)
  }

  /** v has this request in its inbox, and may write the entry. */
  ghost predicate Asked(d: Dictionary, v: Server, state: nat, dsize: nat, index: uint16, subindex: byte, r: Frame) {
    && Serviceable(d, v.st) && Shaped(v.mbx) && 11 <= dsize < 0x1_0000 && v.mbx.buf[0] == r && r.length <= dsize
    && var f := Lookup(d, index, subindex);
       && f.Found? && WriteAccess(d[f.o].entries[f.n].flags, state)
       && CanFetch(d[f.o].entries[0], v.st, 1)
       && !MappingLocked(d[f.o], subindex, d[f.o].entries[f.n].flags, v.st)
       && d[f.o].entries[f.n].flags != COMPLETE_ACCESS_FLAG
  }

  /**
   The first exchange: an initiate upload of a readable entry, its response
   sent back as an initiate download of a writable one. Either all bytes are
   there, or segments follow.
   */
  lemma Start(d: Dictionary, u: Server, v: Server, state: nat, dsize: nat, index: uint16, subindex: byte, rest: seq<byte>)
    requires index != LIST_END && |rest| == dsize
    requires Requested(d, u, state, dsize, index, subindex)
    requires var f := Lookup(d, index, subindex);
             d[f.o].entries[f.n].data.Some? && d[f.o].entries[f.n].bitlength > 0
    requires var resp := Response(u, SdoUpload(d, u, state, dsize));
             6 <= |resp.body| <= dsize && Asked(d, v, state, dsize, index, subindex, AsDownload(resp, rest))
    ensures CanDownload(d, v, dsize)
    ensures var f := Lookup(d, index, subindex);
            var e := d[f.o].entries[f.n];
            var c := e.data.value;
            var n := BitsToBytes(e.bitlength);
            && Backed(e, u.st) && Backed(e, v.st)
            && var (u', v') := (SdoUpload(d, u, state, dsize), SdoDownload(d, v, state, dsize));
               (Midway(u', v', c, Content(e, u.st), v.st[c][n..]) || Complete(v', c, Content(e, u.st), v.st[c][n..]))
  {
    UploadServed(d, u, state, dsize);
    var f := Lookup(d, index, subindex);
    var e := d[f.o].entries[f.n];
    var content := Content(e, u.st);
    var u' := SdoUpload(d, u, state, dsize);
    var r := AsDownload(Response(u, u'), rest);
    InitiateReturns(index, subindex, e, content, u.sess, dsize, rest);
    assert Returns(index, subindex, content, u'.sess, Response(u, u'), rest);
    hide SdoUpload, SdoDownload, UploadReply, Lookup, Serviceable, MappingLocked, Loadable, AsDownload, Highest,
      FreeBuffer;
    assert |r.body| == dsize by { BodyLength(Response(u, u'), rest); }
    assert DownloadFits(e, r);
    DownloadServed(d, v, state, dsize);
    var c := e.data.value;
    var v' := SdoDownload(d, v, state, dsize);
    assert v'.st[c] == Over(v.st[c], 0, DownloadData(r));
    if DownloadIsSegmented(r) {
      assert v'.st[c][..u'.sess.fragsleft] == content[..u'.sess.fragsleft];
      assert v'.st[c][|content|..] == v.st[c][|content|..];
    }
  }

  lemma BodyLength(f: Frame, rest: seq<byte>)
    requires 6 <= |f.body| <= |rest|
    ensures |AsDownload(f, rest).body| == |rest|
  {
  }

  /** The mailboxes before a further exchange: a segment request at u, what comes back at v. */
  datatype Exchange = Exchange(um: Mbx, vm: Mbx, rest: seq<byte>)

  ghost predicate IsExchange(d: Dictionary, u: Server, v: Server, x: Exchange, dsize: nat) {
    && WellFormed(d) && 11 <= dsize == |x.rest| < 0x1_0000
    && Shaped(x.um) && FreeBuffer(x.um) > 0 && IsRequest(x.um.buf[0])
    && CanSend(u.(mbx := x.um))
    && Shaped(x.vm) && FreeBuffer(x.vm) > 0
    && var u1 := u.(mbx := x.um);
       var resp := Response(u1, SdoUploadSegment(u1, dsize));
       3 <= |resp.body| <= dsize && x.vm.buf[0] == AsDownloadSegment(resp, x.rest)
  }

  /** A further exchange moves the next bytes; after the last one everything is there. */
  lemma Continue(d: Dictionary, u: Server, v: Server, x: Exchange, state: nat, dsize: nat, c: nat,
                 content: seq<byte>, tail: seq<byte>)
    requires Midway(u, v, c, content, tail) && IsExchange(d, u, v, x, dsize)
    ensures CanSegment(d, v.(mbx := x.vm))
    ensures var u' := SdoUploadSegment(u.(mbx := x.um), dsize);
            var v' := SdoDownloadSegment(d, v.(mbx := x.vm), state);
            if u'.sess.segmented == 0 then Complete(v', c, content, tail)
            else Midway(u', v', c, content, tail) && u.sess.fragsleft < u'.sess.fragsleft < u'.sess.frags == u.sess.frags
  {
    var u1, v1 := u.(mbx := x.um), v.(mbx := x.vm);
    var command := Command(x.um.buf[0]);
    SegmentServed(u1, dsize);
    var src := u.st[c];
    assert Source(u.sess.data, u.st, u.block) == src;
    SegmentShape(command, u.sess, src, dsize);
    SegmentReturns(command, u.sess, src, dsize, x.rest);
    var u' := SdoUploadSegment(u1, dsize);
    var resp := Response(u1, u');
    var r := AsDownloadSegment(resp, x.rest);
    var n := SegmentLength(u.sess, dsize);
    assert resp == SegmentReply(command, u.sess, src, dsize).1;
    assert u'.sess == SegmentReply(command, u.sess, src, dsize).0;
    UploadedPointer(command, u.sess, src, dsize);
    hide SegmentReply, AsDownloadSegment, SdoUploadSegment, Highest, FreeBuffer, WellFormed, SegmentInside, SegmentData,
      LastSegment, CanSend, Toggle;
    assert CanSegment(d, v1) by { hide SpreadRefused; }
    DownloadSegmentServed(d, v1, state);
    Stored(v.st[c], content, u.sess.fragsleft, SegmentData(r), tail);
    assert SegmentTaken(r, v.sess).segmented == 0 || SegmentTaken(r, v.sess).data == Cell(c, u.sess.fragsleft + n);
    hide SdoDownloadSegment;
  }

  lemma UploadedPointer(command: byte, s: Session, src: seq<byte>, dsize: nat)
    requires 11 <= dsize < 0x1_0000 && Sending(s, src)
    ensures var t := SegmentReply(command, s, src, dsize).0;
            t.data == s.data && (t.segmented != 0 ==> t.fragsleft == s.fragsleft + SegmentLength(s, dsize) && t.frags == s.frags)
  {
  }

  /** The next bytes of the content are put behind those already there. */
  lemma Stored(cell: seq<byte>, content: seq<byte>, at: nat, data: seq<byte>, tail: seq<byte>)
    requires |cell| == |content| + |tail| && at + |data| <= |content|
    requires cell[..at] == content[..at] && data == content[at..at + |data|] && cell[|content|..] == tail
    ensures var r := Over(cell, at, data);
            && r[..at + |data|] == content[..at + |data|] && r[|content|..] == tail
            && (at + |data| == |content| ==> r == content + tail)
  {
    var r := Over(cell, at, data);
    assert r[..at + |data|] == content[..at] + content[at..at + |data|];
    if at + |data| == |content| { assert r == r[..|content|] + r[|content|..]; }
  }

  /** States after each exchange of a transfer. */
  ghost predicate IsTransfer(d: Dictionary, us: seq<Server>, vs: seq<Server>, xs: seq<Exchange>, state: nat, dsize: nat) {
    && |us| == |vs| == |xs| + 1
    && forall k | 0 <= k < |xs| && us[k].sess.segmented != 0 ::
         && IsExchange(d, us[k], vs[k], xs[k], dsize) && CanSegment(d, vs[k].(mbx := xs[k].vm))
         && us[k + 1] == SdoUploadSegment(us[k].(mbx := xs[k].um), dsize)
         && vs[k + 1] == SdoDownloadSegment(d, vs[k].(mbx := xs[k].vm), state)
  }

  /** From any exchange on: as many further ones as bytes are missing, at the latest, complete the transfer. */
  lemma {:induction false} TransferCompletes(d: Dictionary, us: seq<Server>, vs: seq<Server>, xs: seq<Exchange>, i: nat,
                                             state: nat, dsize: nat, c: nat, content: seq<byte>, tail: seq<byte>)
    returns (k: nat)
    requires IsTransfer(d, us, vs, xs, state, dsize) && i < |us| && Midway(us[i], vs[i], c, content, tail)
    requires |xs| - i >= us[i].sess.frags - us[i].sess.fragsleft
    ensures k < |vs| && us[k].sess.segmented == 0 && Complete(vs[k], c, content, tail)
    decreases |xs| - i
  {
    assert us[i].sess.segmented != 0 && us[i].sess.fragsleft < us[i].sess.frags;
    hide Midway, Complete, IsExchange, CanSegment, SdoUploadSegment, SdoDownloadSegment;
    Continue(d, us[i], vs[i], xs[i], state, dsize, c, content, tail);
    if us[i + 1].sess.segmented == 0 {
      k := i + 1;
    } else {
      k := TransferCompletes(d, us, vs, xs, i + 1, state, dsize, c, content, tail);
    }
  }
}
