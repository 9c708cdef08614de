/**
 What the receiver makes of fragments: every frame sent arrives once and
 unchanged, and whatever stream of fragments arrives, only whole frames are
 handed on.
 */
module EoeRuns {
  import opened Words
  import opened Bytes
  import opened ObjectDictionary
  import opened Mailbox
  import opened Eoe

  // The sender's fragments at the receiver

  lemma Info2Fields(fragno: nat, offset: nat, frameno: nat)
    requires fragno < 0x40 && offset < 0x40
    ensures var w := Info2(fragno, offset, frameno);
            w % 0x40 == fragno && w / 0x40 % 0x40 == offset && w / 0x1000 % 0x10 == frameno % 0x10
  {
    var w := Info2(fragno, offset, frameno);
    assert w / 0x40 == offset + frameno % 0x10 * 0x40;
    assert w / 0x1000 == frameno % 0x10;
  }

  lemma Info1Fields(last: bool)
    ensures var w := Info1(last);
            (w / 0x100 % 2 == 1) == last && w / 0x200 % 2 == 0 && w / 0x10 % 0x10 == 0
  {
  }

  /** Two header words and the data behind them. */
  lemma FragmentParts(a: seq<byte>, b: seq<byte>, data: seq<byte>)
    requires |a| == |b| == 2 && ESC_EOEHSIZE + |data| < 0x1_0000
    ensures var f := Frame(ESC_EOEHSIZE + |data|, MBXEOE, 0, a + b + data);
            && IsFragment(f) && Word1(f) == Word(a[0], a[1]) && Word2(f) == Word(b[0], b[1]) && Data(f) == data
  {
  }

  lemma LengthOfLe16(v: nat)
    ensures |Le16(v)| == 2
  {
  }

  /** What is put into a fragment is what is found in it. */
  lemma FragmentFields(last: bool, fragno: nat, offset: nat, frameno: nat, data: seq<byte>)
    requires fragno < 0x40 && offset < 0x40 && ESC_EOEHSIZE + |data| < 0x1_0000
    ensures var f := FragmentFrame(last, fragno, offset, frameno, data);
            && IsFragment(f) && f.length == ESC_EOEHSIZE + |data| && IsLast(f) == last && !TimeAppended(f) && Port(f) == 0
            && FragNo(f) == fragno && FrameOffset(f) == 32 * offset && FrameNo(f) == frameno % 0x10
            && Data(f) == data
  {
    hide Le16, Word, Info1, Info2, Word1, Word2, Data, IsFragment;
    LengthOfLe16(Info1(last));
    LengthOfLe16(Info2(fragno, offset, frameno));
    WordOfLe16(Info1(last));
    WordOfLe16(Info2(fragno, offset, frameno));
    FragmentParts(Le16(Info1(last)), Le16(Info2(fragno, offset, frameno)), data);
    Info1Fields(last);
    Info2Fields(fragno, offset, frameno);
  }

  /** The announced size of a frame: its length in whole blocks. */
  function Announced(p: seq<byte>): nat {
    (|p| + 31) / 32 * 32
  }

  /** The receiver has what the sender has sent of p. */
  ghost predicate Together(t: Tx, p: seq<byte>, r: Rx) {
    && TxValid(t) && t.payload == Some(p) && |p| <= MAX_FRAME && RxValid(r) && r.ready
    && t.offset % 32 == 0 && 32 * t.fragmentno <= t.offset
    && (t.fragmentno == 0 ==> t.offset == 0)
    && (t.fragmentno > 0 ==>
          && r.fragmentno == t.fragmentno && r.framesize == Announced(p)
          && r.offset == t.offset && r.frameno == t.frameno % 0x10
          && r.buf[..t.offset] == p[..t.offset])
  }

  /** The fragment fits the mailbox, and its numbers fit their 6 bits. */
  lemma FragmentFits(t: Tx, p: seq<byte>, r: Rx, room: nat)
    requires Together(t, p, r) && 32 <= room < 0x1_0000 - ESC_EOEHSIZE
    ensures t.fragmentno < 0x40 && t.offset / 32 < 0x40 && (|p| + 31) / 32 < 0x40
    ensures 0 < SendLength(t, room) <= room && t.offset + SendLength(t, room) <= |p| <= Announced(p) <= MAX_FRAME
    ensures SendLength(t, room) < |p| - t.offset ==> SendLength(t, room) % 32 == 0
  {
  }

  lemma StoredPrefix(buf: seq<byte>, at: nat, data: seq<byte>, p: seq<byte>)
    requires at + |data| <= |buf| && at + |data| <= |p|
    requires buf[..at] == p[..at] && data == p[at..at + |data|]
    ensures Over(buf, at, data)[..at + |data|] == p[..at + |data|]
  {
    assert Over(buf, at, data)[..at + |data|] == p[..at] + p[at..at + |data|];
  }

  /** The header fields of the next fragment. */
  lemma NextFields(t: Tx, p: seq<byte>, r: Rx, room: nat)
    requires Together(t, p, r) && 32 <= room < 0x1_0000 - ESC_EOEHSIZE
    ensures var (t', f) := TxFragment(t, room);
            var n := SendLength(t, room);
            && IsFragment(f) && f.length <= ESC_EOEHSIZE + room
            && IsLast(f) == (n == |p| - t.offset) && !TimeAppended(f) && Port(f) == 0
            && FragNo(f) == t.fragmentno && FrameNo(f) == t'.frameno % 0x10
            && FrameOffset(f) == (if t.fragmentno > 0 then t.offset else Announced(p))
            && Data(f) == p[t.offset..t.offset + n]
            && (t.fragmentno > 0 ==> t'.frameno == t.frameno)
            && (n == |p| - t.offset ==> t'.payload.None?)
            && (n != |p| - t.offset ==> t' == t.(offset := t.offset + n, fragmentno := t.fragmentno + 1, frameno := t'.frameno))
  {
    hide FragmentFrame, IsLast, TimeAppended, Port, FragNo, FrameOffset, FrameNo, Data, SendLength, IsFragment;
    FragmentFits(t, p, r, room);
    assert (t.fragmentno + 1) % 0x100 == t.fragmentno + 1;
    var n := SendLength(t, room);
    FragmentFields(n == |p| - t.offset, t.fragmentno, if t.fragmentno > 0 then t.offset / 32 else (|p| + 31) / 32,
                   if t.fragmentno > 0 then t.frameno else (t.frameno + 1) % 0x100, p[t.offset..t.offset + n]);
  }

  /** The receiver expects just this fragment. */
  ghost predicate Expects(t: Tx, p: seq<byte>, r: Rx, frameno: nat) {
    && RxValid(r) && r.ready && r.fragmentno == t.fragmentno && r.offset == t.offset <= |p|
    && r.framesize == Announced(p) && r.frameno == frameno % 0x10
    && r.buf[..t.offset] == p[..t.offset]
  }

  lemma FragmentExpected(t: Tx, p: seq<byte>, r: Rx, room: nat, supplied: bool) returns (r1: Rx)
    requires Together(t, p, r) && 32 <= room < 0x1_0000 - ESC_EOEHSIZE
    ensures var (t', f) := TxFragment(t, room);
            && IsFragment(f) && Expects(t, p, r1, t'.frameno) && r1.delivered == r.delivered
            && RxReceive(r, f, supplied) == RxStore(r1, f, supplied)
  {
    NextFields(t, p, r, room);
    hide TxFragment, IsLast, TimeAppended, Port, FragNo, FrameOffset, FrameNo, Data, SendLength, IsFragment, RxStore;
    var f := TxFragment(t, room).1;
    if t.fragmentno > 0 {
      r1 := r;
    } else {
      r1 := RxStart(if r.fragmentno != 0 then RxReset(r, supplied) else r, f);
    }
  }

  /** Storing the expected fragment. */
  lemma StoreExpected(t: Tx, p: seq<byte>, r: Rx, frameno: nat, f: Frame, n: nat, supplied: bool)
    requires Expects(t, p, r, frameno) && IsFragment(f)
    requires t.offset + n <= |p| <= Announced(p) && Data(f) == p[t.offset..t.offset + n] && !TimeAppended(f) && Port(f) == 0
    ensures var r' := RxStore(r, f, supplied);
            if IsLast(f) then r'.delivered == r.delivered + [Delivery(0, p[..t.offset + n])] && r'.fragmentno == 0
            else
              && r'.delivered == r.delivered && r'.buf[..t.offset + n] == p[..t.offset + n] && |r'.buf| == |r.buf|
              && r' == r.(offset := t.offset + n, fragmentno := t.fragmentno + 1, buf := r'.buf)
  {
    hide IsLast, TimeAppended, Port, Data, Announced, IsFragment, Over;
    StoredPrefix(r.buf, t.offset, Data(f), p);
  }

  /** A fragment that is not the last one leaves both sides in step. */
  lemma StillTogether(t: Tx, p: seq<byte>, r: Rx, frameno: nat, n: nat, t': Tx, r': Rx)
    requires TxValid(t) && t.payload == Some(p) && Expects(t, p, r, frameno) && Announced(p) <= MAX_FRAME
    requires t.offset % 32 == 0 && 32 * t.fragmentno <= t.offset && n % 32 == 0 && 0 < n && t.offset + n < |p| <= Announced(p)
    requires t' == t.(offset := t.offset + n, fragmentno := t.fragmentno + 1, frameno := frameno) && t.fragmentno < 0x40
    requires r' == r.(offset := t.offset + n, fragmentno := t.fragmentno + 1, buf := r'.buf)
    requires |r'.buf| == |r.buf| && r'.buf[..t.offset + n] == p[..t.offset + n]
    ensures Together(t', p, r')
  {
    assert r'.framesize == Announced(p);
    hide Announced;
  }

  lemma FragmentArrives(t: Tx, p: seq<byte>, r: Rx, room: nat, supplied: bool)
    requires Together(t, p, r) && 32 <= room < 0x1_0000 - ESC_EOEHSIZE
    ensures var (t', f) := TxFragment(t, room);
            && IsFragment(f) && f.length <= ESC_EOEHSIZE + room
            && var r' := RxReceive(r, f, supplied);
               if t'.payload.Some? then
                 Together(t', p, r') && r'.delivered == r.delivered && t.offset < t'.offset
               else r'.delivered == r.delivered + [Delivery(0, p)] && r'.fragmentno == 0
  {
    FragmentFits(t, p, r, room);
    NextFields(t, p, r, room);
    var r1 := FragmentExpected(t, p, r, room, supplied);
    var (t', f) := TxFragment(t, room);
    var n := SendLength(t, room);
    StoreExpected(t, p, r1, t'.frameno, f, n, supplied);
    assert p[..|p|] == p;
    hide IsLast, TimeAppended, Port, FragNo, FrameOffset, FrameNo, Data, SendLength, IsFragment, RxReceive, RxStore, Announced,
      TxFragment;
    if n != |p| - t.offset {
      StillTogether(t, p, r1, t'.frameno, n, t', RxReceive(r, f, supplied));
    }
    hide Together, Expects, TxValid, RxValid;
  }

  /** All fragments of the frame being sent, received in order. */
  function Transport(t: Tx, p: seq<byte>, r: Rx, room: nat, supplied: bool): Rx
    requires Together(t, p, r) && 32 <= room < 0x1_0000 - ESC_EOEHSIZE
    decreases t.framesize - t.offset
  {
    FragmentArrives(t, p, r, room, supplied);
    var (t', f) := TxFragment(t, room);
    var r' := RxReceive(r, f, supplied);
    if t'.payload.None? then r' else Transport(t', p, r', room, supplied)
  }

  lemma {:induction false} TransportDelivers(t: Tx, p: seq<byte>, r: Rx, room: nat, supplied: bool)
    requires Together(t, p, r) && 32 <= room < 0x1_0000 - ESC_EOEHSIZE
    ensures Transport(t, p, r, room, supplied).delivered == r.delivered + [Delivery(0, p)]
    decreases t.framesize - t.offset
  {
    FragmentArrives(t, p, r, room, supplied);
    var (t', f) := TxFragment(t, room);
    hide Together, TxFragment, RxReceive;
    if t'.payload.Some? {
      TransportDelivers(t', p, RxReceive(r, f, supplied), room, supplied);
    }
  }

  /**
   For every frame of 1 to 2016 bytes, every mailbox that holds at least one
   32-byte block, and whatever the receiver was in the middle of: the frame is
   delivered exactly once, exactly as it was sent.
   */
  lemma FrameArrives(t: Tx, p: seq<byte>, r: Rx, room: nat, supplied: bool)
    requires TxValid(t) && t.payload.None? && 1 <= |p| <= MAX_FRAME && RxValid(r) && r.ready
    requires 32 <= room < 0x1_0000 - ESC_EOEHSIZE
    ensures var t1 := TxFetched(t, Some(p));
            && Together(t1, p, r)
            && Transport(t1, p, r, room, supplied).delivered == r.delivered + [Delivery(0, p)]
  {
    TransportDelivers(TxFetched(t, Some(p)), p, r, room, supplied);
  }

  // Arbitrary streams

  function AllData(fs: seq<Frame>): seq<byte>
    requires forall i | 0 <= i < |fs| :: IsFragment(fs[i])
  {
    if fs == [] then [] else AllData(fs[..|fs| - 1]) + Data(fs[|fs| - 1])
  }

  /** Fragments 0, 1, 2, ... of one frame number, each where the one before it ended, within the announced size. */
  ghost predicate Gapless(fs: seq<Frame>) {
    && (forall i | 0 <= i < |fs| :: IsFragment(fs[i]))
    && (forall i | 0 <= i < |fs| :: FragNo(fs[i]) == i && FrameNo(fs[i]) == FrameNo(fs[0]))
    && (forall i | 0 < i < |fs| :: FrameOffset(fs[i]) == |AllData(fs[..i])|)
    && (|fs| > 0 ==> |AllData(fs)| <= FrameOffset(fs[0]))
  }

  /** A whole frame: gapless, and the last fragment, and no other, is flagged last. */
  ghost predicate WholeFrame(fs: seq<Frame>) {
    && |fs| > 0 && Gapless(fs)
    && forall i | 0 <= i < |fs| :: IsLast(fs[i]) == (i == |fs| - 1)
  }

  /** The receiver is in the middle of a frame whose fragments so far are fs. */
  ghost predicate Assembling(r: Rx, fs: seq<Frame>) {
    && RxValid(r) && Gapless(fs) && r.fragmentno == |fs|
    && (forall i | 0 <= i < |fs| :: !IsLast(fs[i]))
    && (|fs| > 0 ==>
          && r.ready && r.frameno == FrameNo(fs[0]) && r.framesize == FrameOffset(fs[0])
          && r.offset == |AllData(fs)| && r.buf[..r.offset] == AllData(fs))
  }

  lemma GaplessExtend(fs: seq<Frame>, f: Frame)
    requires Gapless(fs) && IsFragment(f) && FragNo(f) == |fs|
    requires |fs| > 0 ==> FrameNo(f) == FrameNo(fs[0]) && FrameOffset(f) == |AllData(fs)|
    requires |AllData(fs)| + |Data(f)| <= FrameOffset((fs + [f])[0])
    ensures Gapless(fs + [f]) && AllData(fs + [f]) == AllData(fs) + Data(f)
  {
    var gs := fs + [f];
    assert gs[..|fs|] == fs;
    hide FragNo, FrameNo, FrameOffset, Data, IsFragment;
    forall i | 0 < i < |gs| ensures FrameOffset(gs[i]) == |AllData(gs[..i])| {
      if i < |fs| { assert gs[..i] == fs[..i]; }
    }
  }

  /** The fragments the receiver is putting together after one more arrived. */
  ghost function Parts(r: Rx, fs: seq<Frame>, f: Frame, supplied: bool): seq<Frame>
    requires IsFragment(f) && RxValid(r)
  {
    var t := RxReceive(r, f, supplied);
    if t.fragmentno == 0 then [] else if FragNo(f) == 0 then [f] else fs + [f]
  }

  lemma NumbersFit(f: Frame)
    requires IsFragment(f)
    ensures FragNo(f) < 0x40 && FrameOffset(f) <= MAX_FRAME
  {
  }

  lemma GaplessNone()
    ensures Gapless([])
  {
  }

  lemma StoreStep(r: Rx, fs: seq<Frame>, f: Frame, supplied: bool)
    requires RxValid(r) && IsFragment(f) && !TimeAppended(f) && r.ready && r.fragmentno == |fs| == FragNo(f)
    requires Gapless(fs) && (forall i | 0 <= i < |fs| :: IsFragment(fs[i])) && (forall i | 0 <= i < |fs| :: !IsLast(fs[i]))
    requires r.frameno == FrameNo((fs + [f])[0]) && r.framesize == FrameOffset((fs + [f])[0])
    requires |fs| > 0 ==> r.frameno == FrameNo(f) && r.offset == FrameOffset(f)
    requires r.offset == |AllData(fs)| && r.buf[..r.offset] == AllData(fs)
    ensures var t := RxStore(r, f, supplied);
            if t.fragmentno > 0 then Assembling(t, fs + [f]) && t.delivered == r.delivered
            else
              Assembling(t, [])
              && (t.delivered == r.delivered
                  || (WholeFrame(fs + [f]) && t.delivered == r.delivered + [Delivery(Port(f), AllData(fs + [f]))]))
  {
    hide Gapless, FragNo, FrameNo, FrameOffset, Data, IsLast, TimeAppended, Port;
    assert forall i | 0 <= i < |fs + [f]| :: IsFragment((fs + [f])[i]);
    var n := |Data(f)|;
    NumbersFit(f);
    GaplessNone();
    if r.offset + n <= r.framesize {
      GaplessExtend(fs, f);
    }
  }

  /** Whatever fragment arrives: the receiver goes on, starts over, or hands on one whole frame. */
  lemma ReceiveStep(r: Rx, fs: seq<Frame>, f: Frame, supplied: bool)
    requires Assembling(r, fs) && IsFragment(f) && !TimeAppended(f)
    ensures var t := RxReceive(r, f, supplied);
            var whole := if FragNo(f) == 0 then [f] else fs + [f];
            && Assembling(t, Parts(r, fs, f, supplied))
            && (t.delivered == r.delivered
                || (WholeFrame(whole) && t.fragmentno == 0
                    && t.delivered == r.delivered + [Delivery(Port(f), AllData(whole))]))
  {
    hide FragNo, FrameNo, FrameOffset, Data, IsLast, TimeAppended, Port, RxStore;
    var t := RxReceive(r, f, supplied);
    NumbersFit(f);
    if FragNo(f) == 0 {
      var r0 := if r.fragmentno != 0 then RxReset(r, supplied) else r;
      if r0.ready {
        assert t == RxStore(RxStart(r0, f), f, supplied);
        assert [] + [f] == [f];
        StoreStep(RxStart(r0, f), [], f, supplied);
      }
    } else if r.fragmentno == FragNo(f) && Continues(r, f) {
      assert t == RxStore(r, f, supplied);
      StoreStep(r, fs, f, supplied);
    }
  }

  predicate IsStream(ms: seq<Frame>) {
    forall i | 0 <= i < |ms| :: IsFragment(ms[i])
  }

  /** The receiver after the first n fragments; supplied tells, for each call, whether a buffer could be fetched. */
  function AfterStream(r: Rx, ms: seq<Frame>, supplied: seq<bool>, n: nat): (t: Rx)
    requires IsStream(ms) && n <= |supplied| == |ms| && RxValid(r)
    ensures RxValid(t)
  {
    if n == 0 then r
    else
      var before := AfterStream(r, ms, supplied, n - 1);
      RxReceive(before, ms[n - 1], supplied[n - 1])
  }

  /** These bytes are the data of consecutive fragments of the stream that make up a whole frame. */
  ghost predicate FrameOf(ms: seq<Frame>, bytes: seq<byte>) {
    exists i, j | 0 <= i < j <= |ms| :: IsFrameAt(ms, i, j, bytes)
  }

  ghost predicate OnlyFrames(ms: seq<Frame>, ds: seq<Delivery>) {
    forall k | 0 <= k < |ds| :: FrameOf(ms, ds[k].bytes)
  }

  ghost predicate IsFrameAt(ms: seq<Frame>, i: nat, j: nat, bytes: seq<byte>)
    requires i <= j <= |ms|
  {
    WholeFrame(ms[i..j]) && bytes == AllData(ms[i..j])
  }

  /** One more fragment of the stream. */
  lemma StreamStep(before: Rx, ms: seq<Frame>, from: nat, n: nat, supplied: bool) returns (start: nat)
    requires from <= n < |ms| && IsStream(ms) && !TimeAppended(ms[n])
    requires Assembling(before, ms[from..n]) && RxValid(before)
    ensures start <= n + 1
    ensures var after := RxReceive(before, ms[n], supplied);
            && Assembling(after, ms[start..n + 1])
            && (after.delivered == before.delivered
                || exists d: Delivery :: after.delivered == before.delivered + [d] && FrameOf(ms, d.bytes))
  {
    hide Assembling, WholeFrame, RxReceive, TimeAppended, FragNo, IsFragment, Port, RxValid, AllData;
    var parts := ms[from..n];
    var after := RxReceive(before, ms[n], supplied);
    ReceiveStep(before, parts, ms[n], supplied);
    assert parts + [ms[n]] == ms[from..n + 1] && [ms[n]] == ms[n..n + 1] && [] == ms[n + 1..n + 1];
    var first := if FragNo(ms[n]) == 0 then n else from;
    start := if after.fragmentno == 0 then n + 1 else first;
    if after.delivered != before.delivered {
      assert IsFrameAt(ms, first, n + 1, AllData(ms[first..n + 1]));
    }
  }

  /**
   Whatever fragments arrive, in any order, lost, repeated or of mixed frames,
   as long as none carries a time stamp: each delivered buffer is the data of
   consecutive fragments of the stream that are numbered 0 to k without gaps,
   belong to one frame, and end with the one flagged last.
   */
  lemma {:induction false} OnlyWholeFrames(r: Rx, ms: seq<Frame>, supplied: seq<bool>, n: nat) returns (start: nat)
    requires RxValid(r) && Assembling(r, []) && r.delivered == [] && IsStream(ms) && n <= |supplied| == |ms|
    requires forall i | 0 <= i < |ms| :: !TimeAppended(ms[i])
    ensures start <= n && Assembling(AfterStream(r, ms, supplied, n), ms[start..n])
    ensures OnlyFrames(ms, AfterStream(r, ms, supplied, n).delivered)
  {
    hide Assembling, TimeAppended, FrameOf, RxReceive, RxValid, IsFragment;
    if n == 0 {
      start := 0;
    } else {
      var from := OnlyWholeFrames(r, ms, supplied, n - 1);
      start := StreamStep(AfterStream(r, ms, supplied, n - 1), ms, from, n - 1, supplied[n - 1]);
    }
  }
}
