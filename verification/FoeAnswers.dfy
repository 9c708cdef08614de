/**
 File requests on the wire: which request opens a file, and every refusal with
 its error code.
 */
module FoeAnswers {
  import opened Words
  import opened Mailbox
  import opened Foe
  import opened FoeRuns

  // Names

  predicate NoZero(name: seq<byte>, from: nat, to: nat)
    requires to <= |name|
  {
    forall i | from <= i < to :: name[i] != 0
  }

  /** From character k on the requested name agrees with the file's, up to and including a terminating zero. */
  predicate MatchesFrom(name: seq<byte>, file: FileConfig, k: nat) {
    forall j | k <= j < |name| && NoZero(name, k, j) :: name[j] == (if j < |file.name| then file.name[j] else 0)
  }

  predicate Matches(name: seq<byte>, file: FileConfig) { MatchesFrom(name, file, 0) }

  lemma MatchesStep(name: seq<byte>, file: FileConfig, k: nat)
    requires k < |name|
    ensures MatchesFrom(name, file, k) <==>
            name[k] == (if k < |file.name| then file.name[k] else 0) && (name[k] == 0 || MatchesFrom(name, file, k + 1))
  {
    assert NoZero(name, k, k);
    forall j | k + 1 <= j < |name| ensures NoZero(name, k, j) <==> name[k] != 0 && NoZero(name, k + 1, j) {
    }
    hide NoZero;
  }

  lemma {:induction false} SameNameFrom(name: seq<byte>, file: FileConfig, k: nat)
    requires k <= |name|
    ensures SameName(name, file.name, k) <==> MatchesFrom(name, file, k)
    decreases |name| - k
  {
    hide MatchesFrom;
    if k < |name| {
      SameNameFrom(name, file, k + 1);
      MatchesStep(name, file, k);
    } else {
      MatchesEnd(name, file);
    }
  }

  lemma MatchesEnd(name: seq<byte>, file: FileConfig)
    ensures MatchesFrom(name, file, |name|)
  {
  }

  /** The file a name stands for: the first one that matches. */
  predicate Chosen(files: seq<FileConfig>, name: seq<byte>, i: nat) {
    i < |files| && Matches(name, files[i]) && forall j | 0 <= j < i :: !Matches(name, files[j])
  }

  /** Error code of a write request, or 0 when the file may be written. */
  function OpenCode(file: FileConfig, password: uint32, boot: bool): uint32 {
    if password != file.password then 0x800A // no rights
    else if file.onlyInBoot && !boot then 0x8009 // not in Bootstrap
    else 0
  }

  lemma {:induction false} OpenIs(files: seq<FileConfig>, name: seq<byte>, password: uint32, boot: bool, from: nat)
    requires from <= |files| && forall j | 0 <= j < from :: !Matches(name, files[j])
    ensures var r := Open(files, name, password, boot, from);
            && (forall i: nat | Chosen(files, name, i) ::
                  r == if OpenCode(files[i], password, boot) == 0 then Opened(i) else Refused(OpenCode(files[i], password, boot)))
            && ((forall i | 0 <= i < |files| :: !Matches(name, files[i])) ==> r == Refused(0x8001))
    decreases |files| - from
  {
    if from < |files| {
      SameNameFrom(name, files[from], 0);
      if !Matches(name, files[from]) { OpenIs(files, name, password, boot, from + 1); }
    }
  }

  /** The name in a request: at most 31 characters behind the header, of a length counted modulo 256. */
  function NameIn(f: Frame): (name: seq<byte>)
    requires IsFoe(f)
    ensures |name| <= 31
  {
    var n := (f.length - 6) % 0x100;
    f.body[6..6 + if n > 31 then 31 else n]
  }

  /** Password, packet number or error code, lowest byte first. */
  function NumberIn(f: Frame): nat
    requires IsFoe(f)
  {
    var bs := f.body;
    bs[2] + 0x100 * (bs[3] as nat) + 0x1_0000 * (bs[4] as nat) + 0x100_0000 * (bs[5] as nat)
  }

  lemma FieldsAre(f: Frame)
    requires IsFoe(f)
    ensures RequestedName(f) == NameIn(f) && Number(f) == NumberIn(f)
  {
  }

  /** A FoE message: operation code, and a number of four bytes. */
  lemma MessageBytes(op: byte, number: uint32)
    ensures FoeFrame(op, number) ==
            Frame(6, 4, 0, [op, 0, number % 0x100, number / 0x100 % 0x100, number / 0x1_0000 % 0x100, number / 0x100_0000 % 0x100])
  {
  }

  // Write requests

  /**
   A session starts if and only if none is open, a buffer is free for the
   acknowledgement, and the first file whose name matches has this password and
   may be written in this state.
   */
  lemma StartsExactly(s: FoeState, files: seq<FileConfig>, boot: bool, f: Frame)
    requires FoeValid(s) && IsFoe(f)
    ensures var t := WriteRequested(s, files, boot, f);
            t.state == 3 <==>
            && s.state == 0 && FreeBuffer(s.mbx) > 0
            && exists i: nat :: Chosen(files, NameIn(f), i) && OpenCode(files[i], NumberIn(f), boot) == 0
  {
    FieldsAre(f);
    OpenIs(files, NameIn(f), NumberIn(f), boot, 0);
    FirstMatch(files, NameIn(f), |files|);
    hide Open, Matches, RequestedName, Number, NameIn, NumberIn, Sent, FreeBuffer, FoeFrame;
  }

  /** Either no file matches, or one is the first. */
  lemma {:induction false} FirstMatch(files: seq<FileConfig>, name: seq<byte>, n: nat)
    requires n <= |files|
    ensures (forall i | 0 <= i < n :: !Matches(name, files[i])) || exists i: nat :: i < n && Chosen(files, name, i)
  {
    hide Matches;
    if n > 0 {
      FirstMatch(files, name, n - 1);
      if (forall i | 0 <= i < n - 1 :: !Matches(name, files[i])) && Matches(name, files[n - 1]) {
        assert Chosen(files, name, n - 1);
      }
    }
  }

  /** The error code of a refused write request. */
  ghost predicate RefusedWith(s: FoeState, files: seq<FileConfig>, boot: bool, f: Frame, code: uint32)
    requires IsFoe(f)
  {
    if s.state != 0 then code == 0x8004 // illegal
    else
      || (code == 0x8001 && forall i | 0 <= i < |files| :: !Matches(NameIn(f), files[i])) // not found
      || (code != 0 && exists i: nat :: Chosen(files, NameIn(f), i) && code == OpenCode(files[i], NumberIn(f), boot))
  }

  /** A refused request: its error code is reported if there is a buffer, and no session is open. */
  lemma WriteRefused(s: FoeState, files: seq<FileConfig>, boot: bool, f: Frame, code: uint32)
    requires FoeValid(s) && IsFoe(f) && RefusedWith(s, files, boot, f, code)
    ensures var t := WriteRequested(s, files, boot, f);
            && t.mbx == Sent(s.mbx, FoeFrame(5, code)) && t.state == 0 && t.flushes == s.flushes && t.file == s.file
  {
    FieldsAre(f);
    OpenIs(files, NameIn(f), NumberIn(f), boot, 0);
    hide Open, Matches, RequestedName, Number, NameIn, NumberIn, Sent, FreeBuffer, FoeFrame;
  }

  /** A granted one is acknowledged as packet 0; the file is open from its beginning, and packet 1 is expected. */
  lemma WriteGranted(s: FoeState, files: seq<FileConfig>, boot: bool, f: Frame, i: nat)
    requires FoeValid(s) && IsFoe(f) && s.state == 0 && FreeBuffer(s.mbx) > 0
    requires Chosen(files, NameIn(f), i) && OpenCode(files[i], NumberIn(f), boot) == 0
    ensures WriteRequested(s, files, boot, f) ==
            s.(mbx := Sent(s.mbx, FoeFrame(4, 0)), state := 3, packet := 1, position := 0, prevPosition := 0, bufPosition := 0,
               file := i, offset := 0, total := 0, end := files[i].maxData)
  {
    FieldsAre(f);
    OpenIs(files, NameIn(f), NumberIn(f), boot, 0);
    hide Open, Matches, RequestedName, Number, NameIn, NumberIn, Sent, FreeBuffer, FoeFrame;
  }

  /** What ends a session: an error is sent if there is a code, and everything starts over. */
  lemma AbortIs(s: FoeState, code: uint32)
    requires Shaped(s.mbx)
    ensures FoeAborted(s, code) ==
            s.(mbx := if code == 0 then s.mbx else Sent(s.mbx, FoeFrame(5, code)), packet := 0, state := 0, position := 0,
               prevPosition := 0, bufPosition := 0)
  {
    hide Sent, FoeFrame;
  }

  // Packets

  /** The error code of a packet that is refused before anything of it is written, or 0. */
  function PacketCode(s: FoeState, f: Frame): uint32
    requires IsFoe(f)
  {
    if s.state != 3 then 0x8004 // illegal
    else if NumberIn(f) != s.packet then 0x8005 // packet number
    else if f.length > 6 && (s.position + f.length - 6) % 0x1_0000_0000 > s.end then 0x8003 // disk full
    else 0
  }

  lemma PacketRefused(s: FoeState, f: Frame, fullSize: nat, fails: nat -> bool)
    requires FoeValid(s) && IsFoe(f) && PacketCode(s, f) != 0
    ensures var t := DataReceived(s, f, fullSize, fails);
            t.mbx == Sent(s.mbx, FoeFrame(5, PacketCode(s, f))) && t.state == 0 && t.flushes == s.flushes
  {
    FieldsAre(f);
    hide Number, NumberIn, Sent, FoeFrame, RequestedName, NameIn, DataTaken;
  }

  /**
   The answer to a packet that is not refused, by the number n of its bytes that
   get through (FoeRuns.TakenExactly says which): error 0x800B if none do; for a
   full packet the acknowledgement, and the next packet is expected, or without a
   buffer the end; for a shorter one the rest of the buffer is written, and the
   acknowledgement, or the error if that or some byte failed, ends the session. A
   full packet partly written gets both.
   */
  lemma PacketAnswered(s: FoeState, f: Frame, fullSize: nat, fails: nat -> bool)
    requires FoeValid(s) && IsFoe(f) && PacketCode(s, f) == 0 && f.length > 6
    ensures var (w, n) := FileWritten(s, Payload(f), fails);
            var t, length := DataReceived(s, f, fullSize, fails), f.length - 6;
            var failed := Sent(s.mbx, FoeFrame(5, 0x800B));
            && w.total == s.total + n && w.prevPosition == s.position && w.mbx == s.mbx && w.packet == s.packet
            && (if length == fullSize && n == length then
                  && t.flushes == w.flushes && t.mbx == Sent(s.mbx, FoeFrame(4, s.packet))
                  && (if FreeBuffer(s.mbx) > 0 then t == w.(mbx := t.mbx, packet := (s.packet + 1) % 0x1_0000_0000) else t.state == 0)
                else if n == length then
                  && t.state == 0 && t.flushes == w.flushes + [Flush(w.file, w.offset, w.buffer[..w.bufPosition])]
                  && t.offset == w.offset + w.bufPosition
                  && t.mbx == if fails(|w.flushes|) then failed else Sent(s.mbx, FoeFrame(4, s.packet))
                else
                  && t.state == 0 && t.flushes == w.flushes
                  && t.mbx == if length == fullSize && n > 0 then Sent(failed, FoeFrame(4, 0)) else failed)
  {
    FieldsAre(f);
    var s0 := s.(prevPosition := s.position);
    PutBytesKeepsMailboxes(s0, Payload(f), 0, fails);
    PutBytesKeepsSession(s0, Payload(f), 0, fails);
    NotSentTwice(s.mbx, FoeFrame(5, 0x800B));
    hide Number, NumberIn, FoeFrame, RequestedName, NameIn, Sent, FreeBuffer, PutBytes, Payload;
  }

  lemma NotSentTwice(m: Mbx, f: Frame)
    requires Shaped(m)
    ensures forall g :: FreeBuffer(Sent(m, f)) == 0 ==> Sent(Sent(m, f), g) == Sent(m, f)
    ensures forall g :: FreeBuffer(m) == 0 ==> Sent(m, g) == m
  {
    hide Highest;
  }

  lemma {:induction false} PutBytesKeepsSession(s: FoeState, data: seq<byte>, i: nat, fails: nat -> bool)
    requires FoeValid(s) && i <= |data|
    ensures var t := PutBytes(s, data, i, fails).0;
            t.total == s.total && t.prevPosition == s.prevPosition && t.state == s.state && t.file == s.file
    decreases |data| - i
  {
    if i < |data| && s.position < s.end && !PutFails(s, fails) {
      PutBytesKeepsSession(PutByte(s, data[i]), data, i + 1, fails);
    }
  }

  /** An empty packet writes the rest of the buffer, and ends the session with an acknowledgement. */
  lemma EmptyPacket(s: FoeState, f: Frame, fullSize: nat, fails: nat -> bool)
    requires FoeValid(s) && IsFoe(f) && PacketCode(s, f) == 0 && f.length == 6
    ensures var t := DataReceived(s, f, fullSize, fails);
            && t.mbx == Sent(s.mbx, FoeFrame(4, s.packet)) && t.state == 0
            && t.flushes == s.flushes + [Flush(s.file, s.offset, s.buffer[..s.bufPosition])]
            && t.offset == s.offset + s.bufPosition
  {
    FieldsAre(f);
    hide Number, NumberIn, FoeFrame, RequestedName, NameIn, DataTaken, Claimed, Queued, Highest;
  }
}
