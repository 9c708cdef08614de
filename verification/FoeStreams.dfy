/**
 Arbitrary streams of file messages: requests in the middle of a transfer, lost,
 repeated or misnumbered packets, full mailboxes, and a write function that
 fails when it likes.
 */
module FoeStreams {
  import opened Words
  import opened Mailbox
  import opened Foe
  import opened FoeRuns

  /** A message and the mailboxes when it arrives; any other one ends the transfer, with or without an error. */
  datatype Arrival =
    | Request(m: Mbx, f: Frame, boot: bool)
    | Data(m: Mbx, f: Frame)
    | Else(m: Mbx, code: uint32)

  ghost predicate Arrives(e: Arrival, s: FoeState, t: FoeState, files: seq<FileConfig>, fullSize: nat, fails: nat -> bool) {
    var s1 := s.(mbx := e.m);
    && FoeValid(s1)
    && match e
       case Request(_, f, boot) => IsFoe(f) && t == WriteRequested(s1, files, boot, f)
       case Data(_, f) => IsFoe(f) && t == DataReceived(s1, f, fullSize, fails)
       case Else(_, code) => t == FoeAborted(s1, code)
  }

  /** The last accepted request: the calls before it, the data received since then, and its file. */
  datatype Session = Session(start: nat, data: seq<byte>, file: nat)

  function SessionAfter(e: Arrival, s: FoeState, t: FoeState, r: Session): Session {
    match e
    case Request(_, _, _) => if t.state == FOE_WAIT_FOR_DATA then Session(|s.flushes|, [], t.file) else r
    case Data(_, f) => if IsFoe(f) then r.(data := r.data + Payload(f)) else r
    case Else(_, _) => r
  }

  /**
   What was written since the last accepted request is the beginning of the data
   received since then, each call at its place in the file; while the transfer
   goes on, all data are written or in the buffer.
   */
  ghost predicate WritesInOrder(s: FoeState, r: Session) {
    && FoeValid(s) && r.start <= |s.flushes|
    && InPlace(s.flushes[r.start..], r.file) && AllWritten(s.flushes[r.start..]) <= r.data
    && (s.state == FOE_WAIT_FOR_DATA ==> s.file == r.file && exists k :: Writing(s, r.start, r.data, k))
  }

  lemma AbortedInOrder(s: FoeState, code: uint32, r: Session, more: seq<byte>)
    requires FoeValid(s) && r.start <= |s.flushes| && InPlace(s.flushes[r.start..], r.file)
    requires AllWritten(s.flushes[r.start..]) <= r.data + more
    ensures WritesInOrder(FoeAborted(s, code), r.(data := r.data + more))
  {
    hide Sent, InPlace, AllWritten, FoeFrame;
  }

  lemma RequestInOrder(s: FoeState, files: seq<FileConfig>, boot: bool, f: Frame, r: Session)
    requires FoeValid(s) && WritesInOrder(s, r) && IsFoe(f)
    ensures var t := WriteRequested(s, files, boot, f);
            WritesInOrder(t, if t.state == FOE_WAIT_FOR_DATA then Session(|s.flushes|, [], t.file) else r)
  {
    var t := WriteRequested(s, files, boot, f);
    if s.state == FOE_READY && Open(files, RequestedName(f), Number(f), boot, 0).Opened? && FreeBuffer(s.mbx) > 0 {
      SessionStarts(s, files, boot, f);
      assert t.flushes[|s.flushes|..] == [];
    }
    hide Sent, AllWritten, FoeFrame, Open, RequestedName, Number, FreeBuffer, InPlace;
  }

  /** Bytes that got through, or did not: what was written is still the beginning of the data. */
  lemma PutInOrder(s: FoeState, d: seq<byte>, fails: nat -> bool, r: Session, k: nat) returns (x: nat)
    requires Writing(s, r.start, r.data, k) && s.file == r.file
    ensures var (t, n) := FileWritten(s, d, fails);
            && n <= x <= |d| && Progress(t, r.start, r.data + d[..x]) && t.file == r.file && t.mbx == s.mbx
            && t.total == s.total + n && t.packet == s.packet && t.state == s.state
            && InPlace(t.flushes[r.start..], r.file) && AllWritten(t.flushes[r.start..]) <= r.data + d
  {
    assert r.data + d[..0] == r.data;
    x := PutBytesProgress(s.(prevPosition := s.position), r.start, r.data, d, 0, fails);
    assert r.data + d[..x] <= r.data + d;
    hide InPlace, AllWritten, PutBytes;
  }

  lemma DataInOrder(s: FoeState, f: Frame, fullSize: nat, fails: nat -> bool, r: Session)
    requires FoeValid(s) && WritesInOrder(s, r) && IsFoe(f)
    ensures WritesInOrder(DataReceived(s, f, fullSize, fails), r.(data := r.data + Payload(f)))
  {
    hide Sent, AllWritten, FoeFrame, Number, Payload, FreeBuffer, InPlace, PutBytes, Highest, Writing;
    var d := Payload(f);
    if s.state != FOE_WAIT_FOR_DATA {
      AbortedInOrder(s, FOE_ERR_ILLEGAL, r, d);
    } else if Number(f) != s.packet {
      AbortedInOrder(s, FOE_ERR_PACKETNO, r, d);
    } else {
      var k :| Writing(s, r.start, r.data, k);
      if d == [] {
        ClosedInOrder(s, r, k);
        assert r.data + d == r.data;
      } else if (s.position + |d|) % 0x1_0000_0000 > s.end {
        AbortedInOrder(s, FOE_ERR_DISKFULL, r, d);
      } else {
        TakenInOrder(s, d, fullSize, fails, r, k);
      }
    }
  }

  lemma ClosedInOrder(s: FoeState, r: Session, k: nat)
    requires FoeValid(s) && Writing(s, r.start, r.data, k) && s.file == r.file
    ensures WritesInOrder(Initial(Acked(FileClosed(s))), r)
  {
    hide Sent, FoeFrame, Highest, FreeBuffer, InPlace, AllWritten;
    ClosingFlush(s, r.start, r.data);
  }

  lemma TakenInOrder(s: FoeState, d: seq<byte>, fullSize: nat, fails: nat -> bool, r: Session, k: nat)
    requires FoeValid(s) && Writing(s, r.start, r.data, k) && s.file == r.file
    ensures WritesInOrder(DataTaken(s, d, fullSize, fails), r.(data := r.data + d))
  {
    hide Sent, FoeFrame, Highest, FreeBuffer, InPlace, AllWritten, FileWritten, FoeAborted, Initial, FileClosed, Progress;
    var x := PutInOrder(s, d, fails, r, k);
    var (t, n) := FileWritten(s, d, fails);
    ProgressValid(t, r.start, r.data + d[..x]);
    AbortedInOrder(t, FOE_ERR_PROGERROR, r, d);
    if n == |d| {
      assert d[..x] == d;
      ClosingFlushes(t, r, d, fails);
    }
    if |d| == fullSize && n != 0 {
      var t1 := if n != |d| then FoeAborted(t, FOE_ERR_PROGERROR) else t;
      AcknowledgedInOrder(t, t1, r, d, k, n);
    }
  }

  lemma ProgressValid(s: FoeState, start: nat, data: seq<byte>)
    requires Progress(s, start, data)
    ensures FoeValid(s) && start <= |s.flushes|
  {
  }

  /** After the last flush: aborted if it failed, done otherwise. */
  lemma ClosingFlushes(t: FoeState, r: Session, d: seq<byte>, fails: nat -> bool)
    requires FoeValid(t) && Progress(t, r.start, r.data + d) && t.file == r.file
    ensures WritesInOrder(FoeAborted(FileClosed(t), FOE_ERR_PROGERROR), r.(data := r.data + d))
    ensures WritesInOrder(Initial(Acked(FileClosed(t))), r.(data := r.data + d))
  {
    ClosingFlush(t, r.start, r.data + d);
    AbortedInOrder(FileClosed(t), FOE_ERR_PROGERROR, r, d);
    hide Sent, FoeFrame, Highest, FreeBuffer, InPlace, AllWritten;
  }

  /** A full packet is acknowledged, and the transfer goes on if all of it was written. */
  lemma AcknowledgedInOrder(t: FoeState, t1: FoeState, r: Session, d: seq<byte>, k: nat, n: nat)
    requires FoeValid(t) && t.file == r.file && t.state == FOE_WAIT_FOR_DATA && t.packet == (k + 1) % 0x1_0000_0000
    requires n <= |d| && t.total == |r.data| + n && r.start <= |t.flushes|
    requires InPlace(t.flushes[r.start..], r.file) && AllWritten(t.flushes[r.start..]) <= r.data + d
    requires n == |d| ==> Progress(t, r.start, r.data + d)
    requires t1 == if n != |d| then FoeAborted(t, FOE_ERR_PROGERROR) else t
    ensures WritesInOrder(FoeAborted(t1, FOE_ERR_PROGERROR), r.(data := r.data + d))
    ensures FreeBuffer(t1.mbx) > 0 ==> WritesInOrder(Acked(t1), r.(data := r.data + d))
  {
    hide Sent, FoeFrame, Highest, FreeBuffer, InPlace, AllWritten;
    AbortedInOrder(t, FOE_ERR_PROGERROR, r, d);
    AbortedInOrder(t1, FOE_ERR_PROGERROR, r, d);
    if n == |d| && FreeBuffer(t1.mbx) > 0 {
      assert Writing(Acked(t), r.start, r.data + d, k + 1);
    }
  }

  lemma ArrivalInOrder(e: Arrival, s: FoeState, t: FoeState, files: seq<FileConfig>, fullSize: nat, fails: nat -> bool, r: Session)
    requires WritesInOrder(s, r) && Arrives(e, s, t, files, fullSize, fails)
    ensures WritesInOrder(t, SessionAfter(e, s, t, r))
  {
    var s1 := s.(mbx := e.m);
    hide WriteRequested, DataReceived, FoeAborted, InPlace, AllWritten;
    assert WritesInOrder(s1, r) by { OtherMailboxesInOrder(s, r, e.m); }
    match e
    case Request(_, f, boot) => RequestInOrder(s1, files, boot, f, r);
    case Data(_, f) => DataInOrder(s1, f, fullSize, fails, r);
    case Else(_, code) =>
      AbortedInOrder(s1, code, r, []);
      assert r.data + [] == r.data;
  }

  lemma OtherMailboxesInOrder(s: FoeState, r: Session, m: Mbx)
    requires WritesInOrder(s, r) && Shaped(m)
    ensures WritesInOrder(s.(mbx := m), r)
  {
    if s.state == FOE_WAIT_FOR_DATA {
      var k :| Writing(s, r.start, r.data, k);
      OtherMailboxes(s, r.start, r.data, k, m);
    }
    hide InPlace, AllWritten;
  }

  ghost predicate IsFileStream(es: seq<Arrival>, ss: seq<FoeState>, files: seq<FileConfig>, fullSize: nat, fails: nat -> bool) {
    |ss| == |es| + 1 && forall i | 0 <= i < |es| :: Arrives(es[i], ss[i], ss[i + 1], files, fullSize, fails)
  }

  /** The session after the first n messages. */
  function SessionAt(es: seq<Arrival>, ss: seq<FoeState>, n: nat): Session
    requires n <= |es| < |ss|
  {
    if n == 0 then Session(|ss[0].flushes|, [], ss[0].file)
    else SessionAfter(es[n - 1], ss[n - 1], ss[n], SessionAt(es, ss, n - 1))
  }

  /** Whatever arrives, only the data of the accepted transfer reach the write function, in order and in place. */
  lemma {:induction false} StreamWritesInOrder(es: seq<Arrival>, ss: seq<FoeState>, files: seq<FileConfig>, fullSize: nat,
                                               fails: nat -> bool, n: nat)
    requires IsFileStream(es, ss, files, fullSize, fails) && n <= |es| && FoeValid(ss[0]) && ss[0].state == FOE_READY
    ensures WritesInOrder(ss[n], SessionAt(es, ss, n))
  {
    hide Arrives, SessionAfter, FoeValid;
    if n == 0 {
      assert ss[0].flushes[|ss[0].flushes|..] == [];
    } else {
      StreamWritesInOrder(es, ss, files, fullSize, fails, n - 1);
      assert Arrives(es[n - 1], ss[n - 1], ss[n], files, fullSize, fails);
      ArrivalInOrder(es[n - 1], ss[n - 1], ss[n], files, fullSize, fails, SessionAt(es, ss, n - 1));
    }
  }
}
