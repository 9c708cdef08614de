/**
 Ethernet fragments on the wire: the two header words bit by bit, and how much
 of a frame goes into a fragment.
 */
module EoeBytes {
  import opened Words
  import opened Bytes
  import opened ObjectDictionary
  import opened Mailbox
  import opened Eoe
  import opened EoeRuns

  /**
   Header of a fragment: the last-fragment flag is bit 8 of the first word; the
   second one holds fragment number, offset or size, and frame number in 6, 6 and
   4 bits.
   */
  lemma HeaderWritten(last: bool, fragno: nat, offset: nat, frameno: nat, data: seq<byte>)
    requires fragno < 64 && offset < 64 && 4 + |data| < 0x1_0000
    ensures FragmentFrame(last, fragno, offset, frameno, data) ==
            Frame(4 + |data|, 2, 0, [0, if last then 1 else 0, fragno + offset % 4 * 64, offset / 4 + frameno % 16 * 16] + data)
  {
    hide Le16, Info1, Info2;
    FlagBytes(last);
    WordBytes(fragno, offset, frameno);
  }

  lemma FlagBytes(last: bool)
    ensures Le16(Info1(last)) == [0, if last then 1 else 0]
  {
  }

  lemma WordBytes(fragno: nat, offset: nat, frameno: nat)
    requires fragno < 64 && offset < 64
    ensures Le16(Info2(fragno, offset, frameno)) == [fragno + offset % 4 * 64, offset / 4 + frameno % 16 * 16]
  {
    hide Le16, Info2;
    PlainWord(fragno, offset, frameno);
    Regrouped(fragno, offset / 4, offset % 4, frameno % 16);
    BothBytes(fragno + offset % 4 * 64, offset / 4 + frameno % 16 * 16);
  }

  lemma PlainWord(fragno: nat, offset: nat, frameno: nat)
    requires fragno < 64 && offset < 64
    ensures Info2(fragno, offset, frameno) == fragno + offset * 64 + frameno % 16 * 0x1000
  {
  }

  lemma Regrouped(fragno: nat, a: nat, b: nat, frameno: nat)
    ensures fragno + (4 * a + b) * 64 + frameno * 0x1000 == (fragno + b * 64) + 256 * (a + frameno * 16)
  {
  }

  lemma BothBytes(lo: nat, hi: nat)
    requires lo < 256 && hi < 256
    ensures Le16(lo + 256 * hi) == [lo, hi]
  {
  }

  lemma HeaderRead(f: Frame)
    requires IsFragment(f)
    ensures var b0: nat, b1: nat, b2: nat, b3: nat := f.body[0], f.body[1], f.body[2], f.body[3];
            && Port(f) == b0 / 16 && IsLast(f) == (b1 % 2 == 1) && TimeAppended(f) == (b1 / 2 % 2 == 1)
            && FragNo(f) == b2 % 64 && FrameOffset(f) == (b2 / 64 + b3 % 16 * 4) * 32 && FrameNo(f) == b3 / 16
            && Data(f) == f.body[4..f.length]
  {
    var b0: nat, b1: nat, b2: nat, b3: nat := f.body[0], f.body[1], f.body[2], f.body[3];
    SplitFirst(b0, b1);
    SplitSecond(b2, b3);
  }

  lemma SplitFirst(lo: nat, hi: nat)
    requires lo < 256 && hi < 256
    ensures var w := lo + 256 * hi;
            w / 0x10 % 0x10 == lo / 16 && w / 0x100 % 2 == hi % 2 && w / 0x200 % 2 == hi / 2 % 2
  {
    var w := lo + 256 * hi;
    assert w / 0x10 == lo / 16 + 16 * hi;
    assert w / 0x100 == hi;
    assert w / 0x200 == hi / 2;
  }

  lemma SplitSecond(lo: nat, hi: nat)
    requires lo < 256 && hi < 256
    ensures var w := lo + 256 * hi;
            w % 0x40 == lo % 64 && w / 0x40 % 0x40 == lo / 64 + hi % 16 * 4 && w / 0x1000 % 0x10 == hi / 16
  {
    var w := lo + 256 * hi;
    assert w / 0x40 == lo / 64 + 4 * hi;
    assert w / 0x1000 == hi / 16;
  }

  /** A fragment carries all that is left, or as many blocks of 32 bytes as fit. */
  lemma LengthIs(t: Tx, room: nat)
    requires t.offset <= t.framesize
    ensures var left, n := t.framesize - t.offset, SendLength(t, room);
            if left <= room then n == left else n % 32 == 0 && n <= room < n + 32
  {
  }

  /** Every frame has the next number, in all its fragments; the first fragment announces its size in blocks. */
  lemma FragmentIs(t: Tx, room: nat)
    requires TxValid(t) && t.payload.Some? && 32 <= room < 0x1_0000 - ESC_EOEHSIZE
    ensures var (u, f) := TxFragment(t, room);
            var n := SendLength(t, room);
            var number := if t.fragmentno > 0 then t.frameno else (t.frameno + 1) % 256;
            && t.offset + n <= |t.payload.value|
            && f == FragmentFrame(t.offset + n == t.framesize, t.fragmentno,
                                  if t.fragmentno > 0 then t.offset / 32 else (t.framesize + 31) / 32, number,
                                  t.payload.value[t.offset..t.offset + n])
            && u == if t.offset + n == t.framesize then Tx(None, 0, 0, 0, number)
                    else t.(offset := t.offset + n, fragmentno := (t.fragmentno + 1) % 256, frameno := number)
  {
    hide FragmentFrame;
  }

  /** A frame is fetched when none is being sent; the frame number is counted with its first fragment. */
  lemma FetchedIs(t: Tx, next: Option<seq<byte>>)
    requires TxValid(t)
    ensures TxFetched(t, next) ==
            if t.payload.Some? || next.None? || next.value == [] then t else Tx(next, 0, |next.value|, 0, t.frameno)
  {
  }

  // Reception

  /** Nothing of a frame is left; what was delivered stays. */
  predicate StartedOver(r: Rx, t: Rx, ready: bool) {
    t == Rx(0, 0, 0, 0, ready, r.buf, r.delivered)
  }

  /**
   The fragment's data are put behind what is there; a last fragment delivers
   the frame, without a time stamp of four bytes, and the buffer with it.
   */
  predicate TakenIn(r: Rx, t: Rx, f: Frame, supplied: bool)
    requires IsFragment(f) && 0 <= r.offset <= |r.buf|
  {
    var bytes := r.buf[..r.offset] + Data(f);
    if !IsLast(f) then
      && t == r.(fragmentno := r.fragmentno + 1, offset := |bytes|, buf := t.buf)
      && |bytes| <= |t.buf| == |r.buf| && t.buf[..|bytes|] == bytes
    else
      var end := if !TimeAppended(f) then |bytes| else if |bytes| >= 4 then |bytes| - 4 else 0;
      t == Rx(0, 0, 0, 0, supplied, t.buf, r.delivered + [Delivery(Port(f), bytes[..end])])
  }

  lemma StoredIs(r: Rx, f: Frame, supplied: bool)
    requires IsFragment(f) && RxValid(r) && r.offset + |Data(f)| <= r.framesize
    ensures TakenIn(r, RxStore(r, f, supplied), f, supplied)
  {
    var bytes := r.buf[..r.offset] + Data(f);
    assert |Over(r.buf, r.offset, Data(f))| == |r.buf| && Over(r.buf, r.offset, Data(f))[..|bytes|] == bytes;
    if |bytes| >= 4 { assert Over(r.buf, r.offset, Data(f))[..|bytes| - 4] == bytes[..|bytes| - 4]; }
    assert bytes[..|bytes|] == bytes && bytes[..0] == [];
    hide IsLast, TimeAppended, Port, Data, Over;
  }

  /**
   Every fragment. A number other than the expected one starts reception over;
   number 0 starts a frame if there is a buffer; any other one needs the expected
   frame number and offset; and the data have to fit the announced size.
   */
  lemma ReceivedExactly(r: Rx, f: Frame, supplied: bool)
    requires IsFragment(f) && RxValid(r)
    ensures var t, no, length := RxReceive(r, f, supplied), FragNo(f), |Data(f)|;
            if no == 0 then
              if !r.ready && (r.fragmentno == 0 || !supplied) then StartedOver(r, t, supplied)
              else if length > FrameOffset(f) then StartedOver(r, t, true)
              else TakenIn(Rx(0, FrameOffset(f), 0, FrameNo(f), true, r.buf, r.delivered), t, f, supplied)
            else if no != r.fragmentno then if r.fragmentno == 0 then t == r else StartedOver(r, t, r.ready || supplied)
            else if r.frameno != FrameNo(f) || r.offset != FrameOffset(f) || r.offset + length > r.framesize then
              StartedOver(r, t, r.ready || supplied)
            else TakenIn(r, t, f, supplied)
  {
    hide IsLast, TimeAppended, Port, Data, Over, RxDeliver, TakenIn, FragNo, FrameNo, FrameOffset;
    NumbersFit(f);
    var begun := Rx(0, FrameOffset(f), 0, FrameNo(f), true, r.buf, r.delivered);
    if FragNo(f) == 0 {
      if |Data(f)| <= FrameOffset(f) { StoredIs(begun, f, supplied); }
    } else if r.offset + |Data(f)| <= r.framesize {
      StoredIs(r, f, supplied);
    }
  }
}
