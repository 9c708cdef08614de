/**
 What a file transfer writes: buffer by buffer, the write function is given
 exactly the bytes of the packets, in order, each call at the right offset.
 */
module FoeRuns {
  import opened Words
  import opened Mailbox
  import opened Foe

  function AllWritten(fl: seq<Flush>): seq<byte> {
    if fl == [] then [] else AllWritten(fl[..|fl| - 1]) + fl[|fl| - 1].bytes
  }

  /** Every call wrote to this file, at the offset reached by the calls before it. */
  ghost predicate InPlace(fl: seq<Flush>, file: nat) {
    forall j | 0 <= j < |fl| :: fl[j].file == file && fl[j].offset == |AllWritten(fl[..j])|
  }

  ghost predicate AllFull(fl: seq<Flush>, n: nat, size: nat)
    requires n <= |fl|
  {
    forall j | 0 <= j < n :: |fl[j].bytes| == size
  }

  /** The data so far are in the calls since the start of the session and in the buffer. */
  ghost predicate Progress(s: FoeState, start: nat, data: seq<byte>) {
    && FoeValid(s) && start <= |s.flushes|
    && var fl := s.flushes[start..];
    && InPlace(fl, s.file) && AllFull(fl, |fl|, |s.buffer|)
    && s.offset == |AllWritten(fl)| && AllWritten(fl) + s.buffer[..s.bufPosition] == data
    && s.position == |data|
  }

  /** A session that has accepted k packets. */
  ghost predicate Writing(s: FoeState, start: nat, data: seq<byte>, k: nat) {
    && Progress(s, start, data)
    && s.state == FOE_WAIT_FOR_DATA && s.packet == (k + 1) % 0x1_0000_0000 && s.total == |data|
  }

  lemma WrittenOne(fl: seq<Flush>, f: Flush, file: nat)
    requires InPlace(fl, file) && f.file == file && f.offset == |AllWritten(fl)|
    ensures AllWritten(fl + [f]) == AllWritten(fl) + f.bytes && InPlace(fl + [f], file)
  {
    var gl := fl + [f];
    assert gl[..|fl|] == fl;
    forall j | 0 <= j < |gl| ensures gl[j].file == file && gl[j].offset == |AllWritten(gl[..j])| {
      if j < |fl| { assert gl[..j] == fl[..j]; }
    }
  }

  lemma FlushProgress(s: FoeState, start: nat, data: seq<byte>, n: nat, step: nat)
    requires start <= |s.flushes| && n <= |s.buffer|
    requires InPlace(s.flushes[start..], s.file) && s.offset == |AllWritten(s.flushes[start..])|
    requires AllWritten(s.flushes[start..]) + s.buffer[..n] == data
    ensures var t := Flushed(s, n, step);
            && t.flushes[start..] == s.flushes[start..] + [Flush(s.file, s.offset, s.buffer[..n])]
            && InPlace(t.flushes[start..], s.file) && AllWritten(t.flushes[start..]) == data
  {
    WrittenOne(s.flushes[start..], Flush(s.file, s.offset, s.buffer[..n]), s.file);
    assert Flushed(s, n, step).flushes[start..] == s.flushes[start..] + [Flush(s.file, s.offset, s.buffer[..n])];
  }

  lemma PutByteProgress(s: FoeState, start: nat, data: seq<byte>, b: byte)
    requires Progress(s, start, data) && s.position < s.end
    ensures Progress(PutByte(s, b), start, data + [b])
  {
    hide InPlace, AllWritten;
    var s1 := s.(buffer := s.buffer[s.bufPosition := b], bufPosition := s.bufPosition + 1, position := s.position + 1);
    assert s1.buffer[..s1.bufPosition] == s.buffer[..s.bufPosition] + [b];
    var fl := s.flushes[start..];
    assert AllWritten(fl) + s1.buffer[..s1.bufPosition] == data + [b];
    if s1.bufPosition >= |s.buffer| {
      FlushProgress(s1, start, data + [b], s1.bufPosition, |s.buffer|);
      assert s1.buffer[..0] == [];
    }
  }

  /** However far the bytes get, what is written and buffered is what was taken in before, and the bytes up to there. */
  lemma {:induction false} PutBytesProgress(s: FoeState, start: nat, before: seq<byte>, data: seq<byte>, i: nat, fails: nat -> bool)
    returns (x: nat)
    requires i <= |data| && Progress(s, start, before + data[..i])
    ensures var (t, n) := PutBytes(s, data, i, fails);
            && i <= n <= x <= |data| && Progress(t, start, before + data[..x])
            && t == s.(flushes := t.flushes, buffer := t.buffer, bufPosition := t.bufPosition, position := t.position,
                       offset := t.offset)
            && |t.buffer| == |s.buffer|
    ensures (forall k: nat :: !fails(k)) && s.position + |data| - i <= s.end ==> PutBytes(s, data, i, fails).1 == |data|
    decreases |data| - i
  {
    hide Progress;
    PositionOf(s, start, before + data[..i]);
    if i == |data| || s.position == s.end {
      x := i;
    } else {
      PutByteProgress(s, start, before + data[..i], data[i]);
      assert before + data[..i] + [data[i]] == before + data[..i + 1];
      if PutFails(s, fails) {
        x := i + 1;
      } else {
        x := PutBytesProgress(PutByte(s, data[i]), start, before, data, i + 1, fails);
      }
    }
  }

  lemma PositionOf(s: FoeState, start: nat, data: seq<byte>)
    requires Progress(s, start, data)
    ensures FoeValid(s)
  {
  }

  // Packets

  /** The file is open: a session begins, and packet 0 is acknowledged. */
  lemma SessionStarts(s: FoeState, files: seq<FileConfig>, boot: bool, f: Frame)
    requires FoeValid(s) && s.state == FOE_READY && IsFoe(f) && FreeBuffer(s.mbx) > 0
    requires Open(files, RequestedName(f), Number(f), boot, 0).Opened?
    ensures var t := WriteRequested(s, files, boot, f);
            && Writing(t, |s.flushes|, [], 0)
            && t.mbx == Sent(s.mbx, FoeFrame(FOE_OP_ACK, 0))
            && t.end == files[Open(files, RequestedName(f), Number(f), boot, 0).file].maxData
  {
    hide Open, RequestedName, Number, Sent, FoeFrame, Highest;
  }

  /** A full packet with the expected number is taken and acknowledged. */
  lemma PacketTaken(s: FoeState, start: nat, data: seq<byte>, k: nat, f: Frame, fullSize: nat, fails: nat -> bool)
    requires Writing(s, start, data, k) && IsFoe(f) && FreeBuffer(s.mbx) > 0 && (forall n: nat :: !fails(n))
    requires Number(f) == s.packet && |Payload(f)| == fullSize > 0 && s.position + fullSize <= s.end
    ensures var t := DataReceived(s, f, fullSize, fails);
            && Writing(t, start, data + Payload(f), k + 1) && t.end == s.end && t.file == s.file
            && |t.buffer| == |s.buffer| && t.mbx == Sent(s.mbx, FoeFrame(FOE_OP_ACK, s.packet))
  {
    hide Number, Payload, Sent, FoeFrame, InPlace, AllWritten, AllFull, PutBytes, Highest;
    var d := Payload(f);
    assert data + d[..0] == data;
    var x := PutBytesProgress(s.(prevPosition := s.position), start, data, d, 0, fails);
    assert d[..x] == d;
  }

  /** What the calls of a finished session have written. */
  ghost predicate FileComplete(fl: seq<Flush>, file: nat, size: nat, data: seq<byte>) {
    && |fl| > 0 && InPlace(fl, file) && AllWritten(fl) == data
    && AllFull(fl, |fl| - 1, size) && |fl[|fl| - 1].bytes| < size
  }

  lemma ClosingFlush(s: FoeState, start: nat, data: seq<byte>)
    requires Progress(s, start, data)
    ensures var t := FileClosed(s);
            FileComplete(t.flushes[start..], s.file, |s.buffer|, data)
  {
    FlushProgress(s, start, data, s.bufPosition, s.bufPosition);
  }

  /** A shorter packet, possibly an empty one, ends the session: the rest of the buffer is written. */
  lemma LastPacketTaken(s: FoeState, start: nat, data: seq<byte>, k: nat, f: Frame, fullSize: nat, fails: nat -> bool)
    requires Writing(s, start, data, k) && IsFoe(f) && (forall n: nat :: !fails(n))
    requires Number(f) == s.packet && |Payload(f)| < fullSize && s.position + |Payload(f)| <= s.end
    ensures var t := DataReceived(s, f, fullSize, fails);
            && start <= |t.flushes| && FileComplete(t.flushes[start..], s.file, |s.buffer|, data + Payload(f))
            && t.state == FOE_READY && t.mbx == Sent(s.mbx, FoeFrame(FOE_OP_ACK, s.packet))
  {
    hide Number, Payload, FoeFrame, InPlace, AllWritten, AllFull, PutBytes, Highest, FileComplete, Claimed, Queued;
    var d := Payload(f);
    assert data + d[..0] == data;
    if d == [] {
      assert data + d == data;
      ClosingFlush(s, start, data);
    } else {
      var x := PutBytesProgress(s.(prevPosition := s.position), start, data, d, 0, fails);
      assert d[..x] == d;
      ClosingFlush(FileWritten(s, d, fails).0, start, data + d);
    }
  }

  /** Any other packet number ends the session with an error, and writes nothing. */
  lemma WrongPacket(s: FoeState, f: Frame, fullSize: nat, fails: nat -> bool)
    requires FoeValid(s) && s.state == FOE_WAIT_FOR_DATA && IsFoe(f) && Number(f) != s.packet
    ensures var t := DataReceived(s, f, fullSize, fails);
            t.state == FOE_READY && t.flushes == s.flushes && t.mbx == Sent(s.mbx, FoeFrame(FOE_OP_ERR, FOE_ERR_PACKETNO))
  {
    hide Number, Payload, Sent, FoeFrame;
  }

  // A packet answered twice

  /**
   A full packet of which only a part is written is answered by an error and by
   an acknowledgement of packet 0. No other packet gets two answers.
   */
  lemma TwoAnswers(s: FoeState, data: seq<byte>, fullSize: nat, fails: nat -> bool)
    requires FoeValid(s) && data != []
    requires FreeBuffer(s.mbx) > 0 && FreeBuffer(Sent(s.mbx, FoeFrame(FOE_OP_ERR, FOE_ERR_PROGERROR))) > 0
    ensures var n := FileWritten(s, data, fails).1;
            var t := DataTaken(s, data, fullSize, fails);
            var refused := Sent(s.mbx, FoeFrame(FOE_OP_ERR, FOE_ERR_PROGERROR));
            (0 < n < |data| == fullSize <==> t.mbx == Sent(refused, FoeFrame(FOE_OP_ACK, 0)))
            && (t.mbx.txcue == s.mbx.txcue + 2 || t.mbx.txcue == s.mbx.txcue + 1)
  {
    PutBytesKeepsMailboxes(s.(prevPosition := s.position), data, 0, fails);
    CountsOne(s.mbx, FoeFrame(FOE_OP_ERR, FOE_ERR_PROGERROR));
    CountsOne(s.mbx, FoeFrame(FOE_OP_ACK, s.packet));
    CountsOne(Sent(s.mbx, FoeFrame(FOE_OP_ERR, FOE_ERR_PROGERROR)), FoeFrame(FOE_OP_ACK, 0));
    hide Sent, FoeFrame, Highest, PutBytes, FreeBuffer;
  }

  lemma CountsOne(m: Mbx, f: Frame)
    requires Shaped(m) && FreeBuffer(m) > 0
    ensures Sent(m, f).txcue == m.txcue + 1
  {
  }

  lemma {:induction false} PutBytesKeepsMailboxes(s: FoeState, data: seq<byte>, i: nat, fails: nat -> bool)
    requires FoeValid(s) && i <= |data|
    ensures PutBytes(s, data, i, fails).0.mbx == s.mbx && PutBytes(s, data, i, fails).0.packet == s.packet
    decreases |data| - i
  {
    if i < |data| && s.position < s.end && !PutFails(s, fails) {
      PutBytesKeepsMailboxes(PutByte(s, data[i]), data, i + 1, fails);
    }
  }

  /**
   Byte i of the data is not taken: the file is full by then, or the byte fills
   the buffer and the write function fails, in the call with this number.
   */
  predicate Blocked(s: FoeState, i: nat, fails: nat -> bool)
    requires |s.buffer| > 0
  {
    var put := s.bufPosition + i + 1;
    s.position + i == s.end || (put % |s.buffer| == 0 && fails(|s.flushes| + CallsAt(put, |s.buffer|)))
  }

  /** Calls of the write function before the one that the last of put bytes causes. */
  function CallsAt(put: nat, size: nat): nat
    requires size > 0
  {
    if put < size then 0 else put / size - 1
  }

  lemma OneBufferMore(put: nat, size: nat)
    requires size > 0
    ensures (size + put) % size == put % size && (size + put) / size == put / size + 1
  {
    var q, r := put / size, put % size;
    assert size + put == (q + 1) * size + r;
    DivisionIs(size + put, q + 1, r, size);
  }

  lemma DivisionIs(n: nat, q: nat, r: nat, size: nat)
    requires n == q * size + r && r < size
    ensures n / size == q && n % size == r
  {
    var d: int := n / size - q;
    assert n == (n / size) * size + n % size;
    assert d * size == r - n % size;
    assert d >= 1 ==> d * size >= size;
    assert d <= -1 ==> d * size + size <= 0;
  }

  /** After byte 0 has been taken, byte k is what byte k + 1 was. */
  lemma BlockedLater(s: FoeState, b: byte, k: nat, fails: nat -> bool)
    requires FoeValid(s) && s.position < s.end
    ensures Blocked(PutByte(s, b), k, fails) <==> Blocked(s, k + 1, fails)
  {
    var t := PutByte(s, b);
    var put := t.bufPosition + k + 1;
    if s.bufPosition + 1 == |s.buffer| {
      OneBufferMore(put, |s.buffer|);
      assert CallsAt(|s.buffer| + put, |s.buffer|) == put / |s.buffer|;
      if put % |s.buffer| == 0 { WholeBuffer(put, |s.buffer|); }
    }
  }

  lemma WholeBuffer(put: nat, size: nat)
    requires size > 0 && put > 0 && put % size == 0
    ensures put >= size && put / size >= 1
  {
  }

  /** The bytes up to the first blocked one are taken. */
  lemma {:induction false} TakenExactly(s: FoeState, data: seq<byte>, i: nat, fails: nat -> bool)
    requires FoeValid(s) && i <= |data|
    ensures var n := PutBytes(s, data, i, fails).1;
            && i <= n && (n < |data| ==> Blocked(s, n - i, fails))
            && forall k | 0 <= k < n - i :: !Blocked(s, k, fails)
    decreases |data| - i
  {
    hide Blocked;
    if i < |data| {
      FirstBlocked(s, fails);
      if s.position < s.end && !PutFails(s, fails) {
        var t := PutByte(s, data[i]);
        TakenExactly(t, data, i + 1, fails);
        var n := PutBytes(t, data, i + 1, fails).1;
        forall k | 0 <= k < |data| - i ensures Blocked(t, k, fails) <==> Blocked(s, k + 1, fails) {
          BlockedLater(s, data[i], k, fails);
        }
        forall k | 0 <= k < n - i ensures !Blocked(s, k, fails) {
          if k > 0 { assert !Blocked(t, k - 1, fails); }
        }
      }
    }
  }

  lemma FirstBlocked(s: FoeState, fails: nat -> bool)
    requires FoeValid(s)
    ensures Blocked(s, 0, fails) <==> s.position == s.end || PutFails(s, fails)
  {
    var put, size := s.bufPosition + 1, |s.buffer|;
    if put < size { DivisionIs(put, 0, put, size); } else { DivisionIs(put, 1, 0, size); }
  }

  /** A packet is partly written if and only if its first byte is taken and some later byte is not. */
  lemma PartlyWritten(s: FoeState, data: seq<byte>, fails: nat -> bool)
    requires FoeValid(s) && data != []
    ensures 0 < FileWritten(s, data, fails).1 < |data| <==>
            !Blocked(s, 0, fails) && exists i | 0 < i < |data| :: Blocked(s, i, fails)
  {
    var s0 := s.(prevPosition := s.position);
    TakenExactly(s0, data, 0, fails);
    assert forall i: nat :: Blocked(s0, i, fails) <==> Blocked(s, i, fails);
    hide Blocked;
  }

  // Whole sessions

  /** A packet, and the mailboxes when it arrives. */
  datatype Packet = Packet(m: Mbx, f: Frame)

  ghost predicate IsSession(ps: seq<Packet>, fullSize: nat) {
    && |ps| > 0
    && (forall i | 0 <= i < |ps| :: Shaped(ps[i].m) && IsFoe(ps[i].f))
    && (forall i | 0 <= i < |ps| :: Number(ps[i].f) == (i + 1) % 0x1_0000_0000)
    && (forall i | 0 <= i < |ps| - 1 :: |Payload(ps[i].f)| == fullSize)
    && |Payload(ps[|ps| - 1].f)| < fullSize
  }

  /** The first n packets find a buffer for their acknowledgement. */
  ghost predicate Answered(ps: seq<Packet>, n: nat)
    requires n <= |ps| && forall i | 0 <= i < |ps| :: Shaped(ps[i].m)
  {
    forall i | 0 <= i < n :: FreeBuffer(ps[i].m) > 0
  }

  /** The payloads of the first n packets. */
  function Payloads(ps: seq<Packet>, n: nat): seq<byte>
    requires n <= |ps| && forall i | 0 <= i < |ps| :: IsFoe(ps[i].f)
  {
    if n == 0 then [] else Payloads(ps, n - 1) + Payload(ps[n - 1].f)
  }

  ghost predicate Runs(ps: seq<Packet>, ss: seq<FoeState>, fullSize: nat, fails: nat -> bool) {
    && |ss| == |ps| + 1
    && forall i | 0 <= i < |ps| :: StepTo(ps[i], ss[i], ss[i + 1], fullSize, fails)
  }

  ghost predicate StepTo(p: Packet, s: FoeState, t: FoeState, fullSize: nat, fails: nat -> bool) {
    FoeValid(s.(mbx := p.m)) && IsFoe(p.f) && t == DataReceived(s.(mbx := p.m), p.f, fullSize, fails)
  }

  lemma {:induction false} SessionProgress(ps: seq<Packet>, ss: seq<FoeState>, start: nat, fullSize: nat, fails: nat -> bool, n: nat)
    requires IsSession(ps, fullSize) && Runs(ps, ss, fullSize, fails) && (forall k: nat :: !fails(k))
    requires Writing(ss[0], start, [], 0) && n < |ps| && |Payloads(ps, |ps|)| <= ss[0].end && Answered(ps, n)
    ensures Writing(ss[n], start, Payloads(ps, n), n)
    ensures ss[n].end == ss[0].end && ss[n].file == ss[0].file && |ss[n].buffer| == |ss[0].buffer|
  {
    hide Writing, DataReceived, Number, Payload, FreeBuffer;
    if n > 0 {
      SessionProgress(ps, ss, start, fullSize, fails, n - 1);
      PayloadsGrow(ps, n, |ps|);
      var s := ss[n - 1].(mbx := ps[n - 1].m);
      assert StepTo(ps[n - 1], ss[n - 1], ss[n], fullSize, fails);
      OtherMailboxes(ss[n - 1], start, Payloads(ps, n - 1), n - 1, ps[n - 1].m);
      PacketTaken(s, start, Payloads(ps, n - 1), n - 1, ps[n - 1].f, fullSize, fails);
    }
  }

  lemma {:induction false} PayloadsGrow(ps: seq<Packet>, n: nat, m: nat)
    requires n <= m <= |ps| && forall i | 0 <= i < |ps| :: IsFoe(ps[i].f)
    ensures |Payloads(ps, n)| <= |Payloads(ps, m)|
  {
    if n < m { PayloadsGrow(ps, n, m - 1); }
  }

  lemma OtherMailboxes(s: FoeState, start: nat, data: seq<byte>, k: nat, m: Mbx)
    requires Writing(s, start, data, k) && Shaped(m)
    ensures Writing(s.(mbx := m), start, data, k) && s.packet == (k + 1) % 0x1_0000_0000 && s.position == |data|
  {
    hide InPlace, AllWritten;
  }

  /** Without a buffer for the acknowledgement the session is over; only full buffers have been written. */
  lemma NotAnswered(s: FoeState, start: nat, data: seq<byte>, k: nat, f: Frame, fullSize: nat, fails: nat -> bool)
    requires Writing(s, start, data, k) && IsFoe(f) && FreeBuffer(s.mbx) == 0 && (forall n: nat :: !fails(n))
    requires Number(f) == s.packet && |Payload(f)| == fullSize > 0 && s.position + fullSize <= s.end
    ensures Interrupted(DataReceived(s, f, fullSize, fails), start, |s.buffer|)
  {
    hide Number, Payload, Sent, FoeFrame, InPlace, AllWritten, AllFull, PutBytes, Highest;
    var d := Payload(f);
    assert data + d[..0] == data;
    var x := PutBytesProgress(s.(prevPosition := s.position), start, data, d, 0, fails);
  }

  ghost predicate Interrupted(s: FoeState, start: nat, size: nat) {
    && FoeValid(s) && s.state == FOE_READY && start <= |s.flushes|
    && AllFull(s.flushes[start..], |s.flushes[start..]|, size)
  }

  /** Further packets are refused and write nothing. */
  lemma {:induction false} StaysInterrupted(ps: seq<Packet>, ss: seq<FoeState>, start: nat, size: nat, fullSize: nat,
                                            fails: nat -> bool, i: nat, n: nat)
    requires Runs(ps, ss, fullSize, fails) && i <= n <= |ps| && Interrupted(ss[i], start, size)
    ensures Interrupted(ss[n], start, size)
    decreases n - i
  {
    hide Number, Payload, Sent, FoeFrame, AllFull;
    if i < n {
      StaysInterrupted(ps, ss, start, size, fullSize, fails, i, n - 1);
      assert StepTo(ps[n - 1], ss[n - 1], ss[n], fullSize, fails);
    }
  }

  lemma {:induction false} FirstUnanswered(ps: seq<Packet>, n: nat) returns (i: nat)
    requires n <= |ps| && (forall i | 0 <= i < |ps| :: Shaped(ps[i].m)) && !Answered(ps, n)
    ensures i < n && Answered(ps, i) && FreeBuffer(ps[i].m) == 0
  {
    hide FreeBuffer;
    if Answered(ps, n - 1) {
      i := n - 1;
    } else {
      i := FirstUnanswered(ps, n - 1);
    }
  }

  lemma SessionInterrupted(ps: seq<Packet>, ss: seq<FoeState>, start: nat, fullSize: nat, fails: nat -> bool)
    requires IsSession(ps, fullSize) && Runs(ps, ss, fullSize, fails) && (forall k: nat :: !fails(k))
    requires Writing(ss[0], start, [], 0) && |Payloads(ps, |ps|)| <= ss[0].end && !Answered(ps, |ps| - 1)
    ensures Interrupted(ss[|ps|], start, |ss[0].buffer|)
  {
    var i := FirstUnanswered(ps, |ps| - 1);
    hide Writing, DataReceived, Number, Payload, FreeBuffer, Interrupted;
    SessionProgress(ps, ss, start, fullSize, fails, i);
    assert StepTo(ps[i], ss[i], ss[i + 1], fullSize, fails);
    OtherMailboxes(ss[i], start, Payloads(ps, i), i, ps[i].m);
    PayloadsGrow(ps, i + 1, |ps|);
    NotAnswered(ss[i].(mbx := ps[i].m), start, Payloads(ps, i), i, ps[i].f, fullSize, fails);
    StaysInterrupted(ps, ss, start, |ss[0].buffer|, fullSize, fails, i + 1, |ps|);
  }

  /**
   A session of packets 1, 2, 3, ..., all full but the last one, with a write
   function that never fails: if and only if every full packet finds a buffer for
   its acknowledgement, the calls write the concatenated payloads, each call but
   the last one a full buffer, each at the number of bytes written before it.
   */
  lemma SessionWritesFile(ps: seq<Packet>, ss: seq<FoeState>, start: nat, fullSize: nat, fails: nat -> bool)
    requires IsSession(ps, fullSize) && Runs(ps, ss, fullSize, fails) && (forall k: nat :: !fails(k))
    requires Writing(ss[0], start, [], 0) && |Payloads(ps, |ps|)| <= ss[0].end
    ensures var t := ss[|ps|];
            && t.state == FOE_READY && start <= |t.flushes|
            && (FileComplete(t.flushes[start..], ss[0].file, |ss[0].buffer|, Payloads(ps, |ps|)) <==> Answered(ps, |ps| - 1))
  {
    hide Writing, DataReceived, Number, Payload, FreeBuffer, InPlace, AllWritten;
    var n := |ps| - 1;
    if Answered(ps, n) {
      SessionProgress(ps, ss, start, fullSize, fails, n);
      assert StepTo(ps[n], ss[n], ss[n + 1], fullSize, fails);
      OtherMailboxes(ss[n], start, Payloads(ps, n), n, ps[n].m);
      LastPacketTaken(ss[n].(mbx := ps[n].m), start, Payloads(ps, n), n, ps[n].f, fullSize, fails);
    } else {
      SessionInterrupted(ps, ss, start, fullSize, fails);
    }
  }
}
