/**
 SDO transfers of one entry: how an upload is cut into an initiate response and
 segments, and how an initiate download and its segments are put together.

 The bytes of a mailbox message after the mailbox header are: service number (2),
 command (1), index (2), subindex (1), size (4), data. A segment carries its
 data right after the command. Only the bytes a handler fills in are part of
 the frames built here.
 */
module SdoTransfer {
  import opened Words
  import opened Bytes
  import opened ObjectDictionary
  import opened Mailbox

  const MBXCOE: nat := 3
  const MBXODL: nat := 0x10
  const MBXSEU: nat := 0x40
  const MBXSED: nat := 0x50

  const COE_HEADERSIZE: nat := 10
  const COE_SEGMENTHEADERSIZE: nat := 3
  const COE_MINIMUM_LENGTH: nat := 8
  const COE_SDOREQUEST: nat := 2
  const COE_SDORESPONSE: nat := 3
  const COE_SDOINFORMATION: nat := 8

  const COE_COMMAND_SDOABORT: byte := 0x80
  const COE_COMMAND_UPLOADREQUEST: byte := 0x40
  const COE_COMMAND_UPLOADRESPONSE: byte := 0x40
  const COE_COMMAND_DOWNLOADREQUEST: byte := 0x20
  const COE_COMMAND_DOWNLOADRESPONSE: byte := 0x60
  const COE_COMMAND_DOWNLOADSEGREQ: byte := 0x00
  const COE_COMMAND_DOWNLOADSEGRESP: byte := 0x20
  const COE_SIZE_INDICATOR: byte := 0x01
  const COE_EXPEDITED_INDICATOR: byte := 0x02
  const COE_COMPLETEACCESS: byte := 0x10
  const COMPLETE_ACCESS_FLAG: nat := 0x8000

  // Fields of a request

  predicate IsRequest(f: Frame) { |f.body| >= 11 }

  function Service(f: Frame): nat requires IsRequest(f) { f.body[1] / 0x10 }
  function Command(f: Frame): byte requires IsRequest(f) { f.body[2] }
  function IndexOf(f: Frame): uint16 requires IsRequest(f) { Word(f.body[3], f.body[4]) }
  function SubindexOf(f: Frame): byte requires IsRequest(f) { f.body[5] }
  function SizeField(f: Frame): uint16 requires IsRequest(f) { Word(f.body[6], f.body[7]) }

  predicate Expedited(c: byte) { c / 2 % 2 == 1 }
  predicate IsComplete(c: byte) { c / 0x10 % 2 == 1 }
  function Toggle(c: byte): byte { c / 0x10 % 2 * 0x10 }
  predicate LastSegment(c: byte) { c % 2 == 1 }

  // Frames

  function SdoFrame(length: uint16, service: nat, command: byte, index: uint16, subindex: byte, rest: seq<byte>): Frame
    requires service < 0x10
  {
    Frame(length, MBXCOE, 0, [0, service * 0x10, command] + Le16(index) + [subindex] + rest)
  }

  function SegmentFrame(length: uint16, command: byte, data: seq<byte>): Frame {
    Frame(length, MBXCOE, 0, [0, COE_SDORESPONSE * 0x10, command] + data)
  }

  // The variables of a transfer in progress

  /** Where a segmented transfer reads or writes: a storage cell, or the buffer for complete access. */
  datatype Pointer = Cell(c: nat, at: nat) | Scratch(at: nat)

  datatype Session = Session(frags: nat, fragsleft: nat, segmented: nat, data: Pointer,
                             index: uint16, subindex: byte, flags: nat)

  /** The entry's storage is big enough for its length. */
  predicate Backed(e: Entry, st: Store) {
    match e.data
    case Some(c) => c < |st| && BitsToBytes(e.bitlength) <= |st[c]|
    case None => e.bitlength <= 32
  }

  /** The bytes of an entry. */
  function Content(e: Entry, st: Store): (bs: seq<byte>)
    requires Backed(e, st)
    ensures |bs| == BitsToBytes(e.bitlength)
  {
    match e.data
    case Some(c) => st[c][..BitsToBytes(e.bitlength)]
    case None => Le32(e.value)[..BitsToBytes(e.bitlength)]
  }

  // Upload

  /** The bits that count the unused bytes of an expedited transfer. */
  function Dss(bits: nat): byte {
    if bits > 24 then 0x00 else if bits > 16 then 0x04 else if bits > 8 then 0x08 else 0x0C
  }

  /** The response to an initiate upload of an entry with this content, and what it leaves for the segments. */
  function UploadReply(index: uint16, subindex: byte, e: Entry, content: seq<byte>, s: Session, dsize: nat): (Session, Frame)
    requires 11 <= dsize < 0x1_0000 && |content| == BitsToBytes(e.bitlength) && (e.data.None? ==> e.bitlength <= 32)
  {
    var n := |content|;
    if n <= 4 then
      (s, SdoFrame(COE_HEADERSIZE, COE_SDORESPONSE,
                   COE_COMMAND_UPLOADRESPONSE + COE_SIZE_INDICATOR + COE_EXPEDITED_INDICATOR + Dss(e.bitlength),
                   index, subindex, content))
    else
      var k := if n + COE_HEADERSIZE > dsize then dsize - COE_HEADERSIZE else n;
      (if k < n then s.(frags := n, fragsleft := k, segmented := MBXSEU, data := Cell(e.data.value, 0), flags := e.flags)
       else s.(frags := n, segmented := 0),
       SdoFrame(COE_HEADERSIZE + k, COE_SDORESPONSE, COE_COMMAND_UPLOADRESPONSE + COE_SIZE_INDICATOR,
                index, subindex, Le32(n) + content[..k]))
  }

  /** The next part of src is there to be sent. */
  predicate Sending(s: Session, src: seq<byte>) {
    s.fragsleft <= s.frags <= |src|
  }

  function SegmentLength(s: Session, dsize: nat): nat
    requires s.fragsleft <= s.frags && dsize >= 11
  {
    if s.frags - s.fragsleft + COE_SEGMENTHEADERSIZE > dsize then dsize - COE_SEGMENTHEADERSIZE else s.frags - s.fragsleft
  }

  /** The response to an upload segment request. */
  function SegmentReply(command: byte, s: Session, src: seq<byte>, dsize: nat): (Session, Frame)
    requires 11 <= dsize < 0x1_0000 && Sending(s, src)
  {
    var n := SegmentLength(s, dsize);
    var data := src[s.fragsleft..s.fragsleft + n];
    if n < s.frags - s.fragsleft then
      (s.(fragsleft := s.fragsleft + n), SegmentFrame(COE_SEGMENTHEADERSIZE + n, Toggle(command), data))
    else
      (s.(segmented := 0, frags := 0, fragsleft := 0),
       SegmentFrame(if n >= 7 then COE_SEGMENTHEADERSIZE + n else COE_HEADERSIZE,
                    Toggle(command) + 1 + (if n >= 7 then 0 else 2 * (7 - n)), data))
  }

  // Download

  /** Total size announced by an initiate download. */
  function DownloadSize(r: Frame): nat
    requires IsRequest(r)
  {
    if Expedited(Command(r)) then 4 - Command(r) / 4 % 4 else SizeField(r)
  }

  function DownloadAt(r: Frame): nat
    requires IsRequest(r)
  {
    if Expedited(Command(r)) then 6 else 10
  }

  /** More bytes are announced than the request carries. */
  predicate DownloadIsSegmented(r: Frame)
    requires IsRequest(r)
  {
    DownloadSize(r) > 4 && r.length >= COE_HEADERSIZE && DownloadSize(r) > r.length - COE_HEADERSIZE
  }

  function DownloadCount(r: Frame): nat
    requires IsRequest(r)
  {
    if DownloadIsSegmented(r) then r.length - COE_HEADERSIZE else DownloadSize(r)
  }

  /** The bytes to be stored are in the mailbox. */
  predicate DownloadInside(r: Frame) {
    IsRequest(r) && DownloadAt(r) + DownloadCount(r) <= |r.body|
  }

  function DownloadData(r: Frame): (bs: seq<byte>)
    requires DownloadInside(r)
    ensures |bs| == DownloadCount(r)
  {
    r.body[DownloadAt(r)..DownloadAt(r) + DownloadCount(r)]
  }

  function DownloadStarted(r: Frame, e: Entry, s: Session): Session
    requires IsRequest(r) && e.data.Some?
  {
    if DownloadIsSegmented(r) then
      s.(segmented := MBXSED, data := Cell(e.data.value, DownloadCount(r)), index := IndexOf(r), subindex := SubindexOf(r),
         flags := e.flags)
    else s.(segmented := 0)
  }

  function SegmentSize(r: Frame): nat
    requires IsRequest(r) && r.length >= COE_MINIMUM_LENGTH
  {
    if r.length - 3 == 7 then 7 - Command(r) / 2 % 8 else r.length - 3
  }

  predicate SegmentInside(r: Frame) {
    IsRequest(r) && r.length >= COE_MINIMUM_LENGTH && 3 + SegmentSize(r) <= |r.body|
  }

  function SegmentData(r: Frame): (bs: seq<byte>)
    requires SegmentInside(r)
    ensures |bs| == SegmentSize(r)
  {
    r.body[3..3 + SegmentSize(r)]
  }

  function Moved(p: Pointer, n: nat): Pointer {
    match p
    case Cell(c, at) => Cell(c, at + n)
    case Scratch(at) => Scratch(at + n)
  }

  /** The transfer after a download segment. */
  function SegmentTaken(r: Frame, s: Session): Session
    requires SegmentInside(r)
  {
    if LastSegment(Command(r)) then s.(segmented := 0, frags := 0, fragsleft := 0)
    else s.(data := Moved(s.data, SegmentSize(r)), fragsleft := s.fragsleft + SegmentSize(r))
  }

  // An upload sent back as a download

  /** The initiate download request that returns what an upload response carries; rest is what else is in the mailbox. */
  function AsDownload(f: Frame, rest: seq<byte>): Frame
    requires 6 <= |f.body| <= |rest|
  {
    Frame(f.length, MBXCOE, 0, [0, COE_SDOREQUEST * 0x10, COE_COMMAND_DOWNLOADREQUEST + f.body[2] % 0x20]
                               + f.body[3..] + rest[|f.body|..])
  }

  function AsDownloadSegment(f: Frame, rest: seq<byte>): Frame
    requires 3 <= |f.body| <= |rest|
  {
    Frame(f.length, MBXCOE, 0, [0, COE_SDOREQUEST * 0x10, f.body[2]] + f.body[3..] + rest[|f.body|..])
  }

  /** An upload segment carries at least one byte, fits the mailbox, and is flagged last exactly when it is. */
  lemma SegmentShape(command: byte, s: Session, src: seq<byte>, dsize: nat)
    requires 11 <= dsize < 0x1_0000 && Sending(s, src) && s.fragsleft < s.frags && s.segmented == MBXSEU
    ensures var (t, f) := SegmentReply(command, s, src, dsize);
            && 3 < |f.body| <= dsize && COE_MINIMUM_LENGTH <= f.length <= dsize
            && (LastSegment(f.body[2]) <==> t.segmented == 0)
            && (LastSegment(f.body[2]) <==> s.fragsleft + |f.body| - 3 == s.frags)
            && Toggle(f.body[2]) == Toggle(command)
            && (t.segmented != 0 ==> t.segmented == MBXSEU && Sending(t, src) && s.fragsleft < t.fragsleft < t.frags == s.frags)
            && 0 < SegmentLength(s, dsize) <= s.frags - s.fragsleft
            && (t.segmented != 0 ==> t.fragsleft == s.fragsleft + SegmentLength(s, dsize))
            && (t.segmented == 0 ==> s.fragsleft + SegmentLength(s, dsize) == s.frags)
  {
  }

  /** Taken back as a download segment, it yields exactly the bytes it was made of. */
  lemma SegmentReturns(command: byte, s: Session, src: seq<byte>, dsize: nat, rest: seq<byte>)
    requires 11 <= dsize == |rest| < 0x1_0000 && Sending(s, src) && s.fragsleft < s.frags && s.segmented == MBXSEU
    ensures var f := SegmentReply(command, s, src, dsize).1;
            && 3 <= |f.body| <= |rest|
            && var r := AsDownloadSegment(f, rest);
            && SegmentInside(r) && SegmentData(r) == src[s.fragsleft..s.fragsleft + SegmentLength(s, dsize)]
            && (LastSegment(Command(r)) <==> SegmentReply(command, s, src, dsize).0.segmented == 0)
  {
    SegmentShape(command, s, src, dsize);
    var f := SegmentReply(command, s, src, dsize).1;
    var r := AsDownloadSegment(f, rest);
    var n := SegmentLength(s, dsize);
    assert |r.body| == dsize && Command(r) == f.body[2];
    assert SegmentSize(r) == n;
    assert r.body[3..3 + n] == f.body[3..];
  }

  function Flipped(command: byte): byte {
    if command == 0x60 then 0x70 else 0x60
  }

  /** Every further upload segment is requested and sent back; dst is what the receiving side has stored. */
  function SegmentsBack(command: byte, u: Session, src: seq<byte>, v: Session, dst: seq<byte>, dsize: nat, rest: seq<byte>)
    : (Session, seq<byte>)
    requires 11 <= dsize == |rest| < 0x1_0000 && |dst| >= |src|
    requires u.segmented != 0 ==> u.segmented == MBXSEU && Sending(u, src) && u.fragsleft < u.frags
    requires u.segmented != 0 ==> v.data.at == u.fragsleft
    decreases if u.segmented == 0 then 0 else u.frags - u.fragsleft
  {
    if u.segmented == 0 then (v, dst)
    else
      SegmentShape(command, u, src, dsize);
      SegmentReturns(command, u, src, dsize, rest);
      var (t, f) := SegmentReply(command, u, src, dsize);
      var r := AsDownloadSegment(f, rest);
      SegmentsBack(Flipped(command), t, src, SegmentTaken(r, v), Over(dst, v.data.at, SegmentData(r)), dsize, rest)
  }

  lemma {:induction false} SegmentsRebuild(command: byte, u: Session, src: seq<byte>, v: Session, dst: seq<byte>,
                                           dsize: nat, rest: seq<byte>)
    requires 11 <= dsize == |rest| < 0x1_0000 && |dst| >= |src| == u.frags
    requires u.segmented == MBXSEU && u.fragsleft < u.frags && v.data.at == u.fragsleft
    requires dst[..u.fragsleft] == src[..u.fragsleft]
    ensures var (w, out) := SegmentsBack(command, u, src, v, dst, dsize, rest);
            out == src + dst[|src|..] && w.segmented == 0
    decreases u.frags - u.fragsleft
  {
    hide SegmentReply, AsDownloadSegment, SegmentLength, Toggle, LastSegment, SegmentInside, SegmentData;
    SegmentShape(command, u, src, dsize);
    SegmentReturns(command, u, src, dsize, rest);
    var (t, f) := SegmentReply(command, u, src, dsize);
    var r := AsDownloadSegment(f, rest);
    var n := SegmentLength(u, dsize);
    var next := Over(dst, v.data.at, SegmentData(r));
    assert next[..u.fragsleft + n] == src[..u.fragsleft + n];
    assert next[|src|..] == dst[|src|..];
    if t.segmented != 0 {
      SegmentsRebuild(Flipped(command), t, src, SegmentTaken(r, v), next, dsize, rest);
    } else {
      assert next == src + dst[|src|..];
      assert SegmentTaken(r, v).segmented == 0;
    }
  }

  /** The fields of a response, as the handlers read them in the request it is turned into. */
  lemma ReturnedFields(f: Frame, length: uint16, command: byte, index: uint16, subindex: byte, data: seq<byte>, rest: seq<byte>)
    requires f == SdoFrame(length, COE_SDORESPONSE, command, index, subindex, data)
    requires 11 <= |rest| && 6 + |data| <= |rest|
    ensures |f.body| == 6 + |data| && f.length == length
    ensures var r := AsDownload(f, rest);
            && |r.body| == |rest| && r.length == length && Service(r) == COE_SDOREQUEST
            && Command(r) == COE_COMMAND_DOWNLOADREQUEST + command % 0x20
            && IndexOf(r) == index && SubindexOf(r) == subindex
            && r.body[6..6 + |data|] == data
  {
    var r := AsDownload(f, rest);
    assert forall k | 3 <= k < |f.body| :: r.body[k] == f.body[k];
    WordOfLe16(index);
    assert f.body[3] == Le16(index)[0] && f.body[4] == Le16(index)[1];
  }

  /** What a response to an initiate upload brings back, as an initiate download. */
  ghost predicate Returns(index: uint16, subindex: byte, content: seq<byte>, u: Session, f: Frame, rest: seq<byte>) {
    && 6 <= |f.body| <= |rest|
    && var r := AsDownload(f, rest);
    && DownloadInside(r) && Service(r) == COE_SDOREQUEST && IndexOf(r) == index && SubindexOf(r) == subindex
    && Command(r) / 0x20 == 1 && !IsComplete(Command(r))
    && DownloadSize(r) == |content| && DownloadCount(r) <= |content|
    && DownloadData(r) == content[..DownloadCount(r)]
    && (if DownloadIsSegmented(r) then
          u.segmented == MBXSEU && u.frags == |content| > u.fragsleft == DownloadCount(r)
        else DownloadCount(r) == |content|)
  }

  /** The initiate response carries the first part of the content, all of it unless segments follow. */
  lemma InitiateReturns(index: uint16, subindex: byte, e: Entry, content: seq<byte>, s: Session, dsize: nat, rest: seq<byte>)
    requires 11 <= dsize == |rest| < 0x1_0000 && |content| == BitsToBytes(e.bitlength) && e.data.Some? && e.bitlength > 0
    ensures var (u, f) := UploadReply(index, subindex, e, content, s, dsize);
            Returns(index, subindex, content, u, f, rest)
  {
    if |content| <= 4 {
      ExpeditedReturns(index, subindex, e, content, s, dsize, rest);
    } else {
      NormalReturns(index, subindex, e, content, s, dsize, rest);
    }
  }

  lemma ExpeditedReturns(index: uint16, subindex: byte, e: Entry, content: seq<byte>, s: Session, dsize: nat, rest: seq<byte>)
    requires 11 <= dsize == |rest| < 0x1_0000 && |content| == BitsToBytes(e.bitlength) <= 4 && e.data.Some? && e.bitlength > 0
    ensures var (u, f) := UploadReply(index, subindex, e, content, s, dsize);
            Returns(index, subindex, content, u, f, rest)
  {
    var f := UploadReply(index, subindex, e, content, s, dsize).1;
    var command := COE_COMMAND_UPLOADRESPONSE + COE_SIZE_INDICATOR + COE_EXPEDITED_INDICATOR + Dss(e.bitlength);
    ReturnedFields(f, COE_HEADERSIZE, command, index, subindex, content, rest);
    var c := COE_COMMAND_DOWNLOADREQUEST + command % 0x20;
    assert Expedited(c) && 4 - c / 4 % 4 == |content| && c / 0x20 == 1 && !IsComplete(c);
    hide SdoFrame, AsDownload;
  }

  lemma NormalReturns(index: uint16, subindex: byte, e: Entry, content: seq<byte>, s: Session, dsize: nat, rest: seq<byte>)
    requires 11 <= dsize == |rest| < 0x1_0000 && |content| == BitsToBytes(e.bitlength) > 4 && e.data.Some?
    ensures var (u, f) := UploadReply(index, subindex, e, content, s, dsize);
            Returns(index, subindex, content, u, f, rest)
  {
    var n := |content|;
    var k := if n + COE_HEADERSIZE > dsize then dsize - COE_HEADERSIZE else n;
    var f := UploadReply(index, subindex, e, content, s, dsize).1;
    ReturnedFields(f, COE_HEADERSIZE + k, COE_COMMAND_UPLOADRESPONSE + COE_SIZE_INDICATOR, index, subindex,
                   Le32(n) + content[..k], rest);
    var r := AsDownload(f, rest);
    hide SdoFrame, AsDownload;
    var data := Le32(n) + content[..k];
    assert r.body[6] == data[0] && r.body[7] == data[1];
    WordOfLe16(n);
    assert DownloadSize(r) == n;
    assert DownloadCount(r) == k;
    assert r.body[10..10 + k] == r.body[6..6 + |data|][4..] == content[..k];
  }

  /**
   An upload sent back as a download rebuilds the same bytes: cell is what the
   receiving entry held, and only its first |content| bytes change.
   */
  lemma UploadThenDownload(index: uint16, subindex: byte, e: Entry, content: seq<byte>, s: Session, v: Session,
                           cell: seq<byte>, command: byte, dsize: nat, rest: seq<byte>)
    requires 11 <= dsize == |rest| < 0x1_0000 && |content| == BitsToBytes(e.bitlength) && e.data.Some? && e.bitlength > 0
    requires |content| <= |cell|
    ensures var (u, f) := UploadReply(index, subindex, e, content, s, dsize);
            && Returns(index, subindex, content, u, f, rest)
            && var r := AsDownload(f, rest);
               var first := Over(cell, 0, DownloadData(r));
               if DownloadIsSegmented(r) then
                 var (w, out) := SegmentsBack(command, u, content, DownloadStarted(r, e, v), first, dsize, rest);
                 out == content + cell[|content|..] && w.segmented == 0
               else first == content + cell[|content|..] && DownloadStarted(r, e, v).segmented == 0
  {
    InitiateReturns(index, subindex, e, content, s, dsize, rest);
    var (u, f) := UploadReply(index, subindex, e, content, s, dsize);
    hide UploadReply;
    var r := AsDownload(f, rest);
    var first := Over(cell, 0, DownloadData(r));
    if DownloadIsSegmented(r) {
      assert first[..u.fragsleft] == content[..u.fragsleft];
      SegmentsRebuild(command, u, content, DownloadStarted(r, e, v), first, dsize, rest);
      assert first[|content|..] == cell[|content|..];
    }
  }
}
