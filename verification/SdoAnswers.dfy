/**
 The answers of the SDO server on the wire: which request is granted, which is
 refused with which abort code, byte by byte, and what it leaves in storage.
 */
module SdoAnswers {
  import opened Words
  import opened Bytes
  import opened ObjectDictionary
  import opened Mailbox
  import opened SdoTransfer
  import opened CompleteAccess
  import opened CoeHandlers
  import opened CoeAnswers
  import opened MailboxReceipt

  // Frames

  /** One CoE message of this length and these bytes is queued, and the inbox is free. */
  predicate Answers(m: Mbx, t: Mbx, length: uint16, body: seq<byte>)
    requires Shaped(m)
  {
    var n := FreeBuffer(m);
    && 0 < n < |t.buf| && t.control == m.control[n := Outreq][0 := Idle] && t.xoe == 0 && t.txcue == m.txcue + 1
    && t.buf[n] == Frame(length, 3, t.buf[n].cnt, body)
  }

  lemma AnsweredBy(s: Server, x: Server, f: Frame)
    requires Shaped(s.mbx) && x.mbx == s.mbx && f.mtype == 3
    ensures FreeBuffer(s.mbx) > 0 ==> Answers(s.mbx, Released(Replied(x, f)).mbx, f.length, f.body)
    ensures FreeBuffer(s.mbx) == 0 ==> Replied(x, f) == x
    ensures Released(Replied(x, f)) == x.(mbx := Released(Replied(x, f)).mbx)
  {
    SentExactly(s.mbx, f);
    hide Sent, FreeBuffer;
  }

  /** Index and subindex of a request, as they are in its bytes. */
  function Multiplexor(r: Frame): seq<byte>
    requires IsRequest(r)
  {
    [r.body[3], r.body[4], r.body[5]]
  }

  function Four(v: nat): seq<byte> {
    [v % 0x100, v / 0x100 % 0x100, v / 0x1_0000 % 0x100, v / 0x100_0000 % 0x100]
  }

  function AbortBody(r: Frame, code: nat): seq<byte>
    requires IsRequest(r)
  {
    [0, 0x20, 0x80] + Multiplexor(r) + Four(code)
  }

  lemma FrameBytes(r: Frame, length: uint16, service: nat, command: byte, rest: seq<byte>)
    requires IsRequest(r) && service < 0x10
    ensures SdoFrame(length, service, command, IndexOf(r), SubindexOf(r), rest) ==
            Frame(length, 3, 0, [0, service * 0x10, command] + Multiplexor(r) + rest)
  {
    var w: nat := r.body[4];
    assert Le16(IndexOf(r)) == [r.body[3], r.body[4]];
  }

  lemma AbortedBy(s: Server, x: Server, code: uint32)
    requires Shaped(s.mbx) && x.mbx == s.mbx && IsRequest(s.mbx.buf[0])
    ensures var t := Released(Aborted(x, code));
            && t == x.(mbx := t.mbx)
            && (FreeBuffer(s.mbx) > 0 ==> Answers(s.mbx, t.mbx, 10, AbortBody(s.mbx.buf[0], code)))
  {
    FrameBytes(s.mbx.buf[0], 10, 2, 0x80, Le32(code));
    AnsweredBy(s, x, AbortFrame(IndexOf(s.mbx.buf[0]), SubindexOf(s.mbx.buf[0]), code));
    hide Answers, Released, SdoFrame;
  }

  // Entries and access rights

  /** Bits 0 to 2 of the flags: readable in Pre-Op, Safe-Op, Op; bits 3 to 5: writable. */
  predicate Right(flags: nat, first: nat, state: nat) {
    var f := flags / (if first == 0 then 1 else 8);
    match state
    case 2 => f % 2 == 1
    case 4 => f / 2 % 2 == 1
    case 8 => f / 4 % 2 == 1
    case _ => false
  }

  lemma BitIs(w: nat, k: nat)
    requires k < 6
    ensures Bit(w, k) == (w / (if k == 0 then 1 else if k == 1 then 2 else if k == 2 then 4 else if k == 3 then 8
                                else if k == 4 then 16 else 32) % 2 == 1)
  {
    if k > 0 {
      BitIs(w / 2, k - 1);
    }
  }

  lemma RightsAre(flags: nat, state: nat)
    ensures ReadAccess(flags, state) == Right(flags, 0, state)
    ensures WriteAccess(flags, state) == Right(flags, 3, state)
  {
    BitIs(flags, 0);
    BitIs(flags, 1);
    BitIs(flags, 2);
    BitIs(flags, 3);
    BitIs(flags, 4);
    BitIs(flags, 5);
    hide Bit;
  }

  /** The entry a request names. */
  predicate Names(d: Dictionary, r: Frame, o: nat, n: nat)
    requires IsRequest(r)
  {
    o < |d| - 1 && n < |d[o].entries| && d[o].index == IndexOf(r) && d[o].entries[n].subindex == SubindexOf(r)
  }

  lemma NamedIsFound(d: Dictionary, r: Frame, o: nat, n: nat)
    requires WellFormed(d) && IsRequest(r) && Names(d, r, o, n)
    ensures Lookup(d, IndexOf(r), SubindexOf(r)) == Found(o, n)
  {
    ObjectNoIs(d, o);
    EntryNoIs(d[o], n);
  }

  /** There is no such object, or the object has no such entry. */
  predicate NoSuchObject(d: Dictionary, r: Frame)
    requires IsRequest(r)
  {
    forall o | 0 <= o < |d| :: d[o].index != IndexOf(r)
  }

  predicate NoSuchEntry(d: Dictionary, r: Frame)
    requires IsRequest(r)
  {
    exists o | 0 <= o < |d| - 1 ::
      d[o].index == IndexOf(r) && forall n | 0 <= n < |d[o].entries| :: d[o].entries[n].subindex != SubindexOf(r)
  }

  lemma MissingIsNotFound(d: Dictionary, r: Frame)
    requires WellFormed(d) && IsRequest(r)
    ensures NoSuchObject(d, r) ==> Lookup(d, IndexOf(r), SubindexOf(r)) == NoObject
    ensures NoSuchEntry(d, r) ==> Lookup(d, IndexOf(r), SubindexOf(r)) == NoSubindex
  {
    if NoSuchEntry(d, r) {
      var o :| 0 <= o < |d| - 1 && d[o].index == IndexOf(r)
               && forall n | 0 <= n < |d[o].entries| :: d[o].entries[n].subindex != SubindexOf(r);
      ObjectNoIs(d, o);
    }
  }

  // Download

  /** Data types whose entries may be written with another length than their own. */
  predicate AnyLength(dtype: nat) {
    dtype in {0x09, 0x0A, 0x0B, 0x0260, 0x0261, 0x0262, 0x0263}
  }

  /** An entry of a mapping or assign object, beyond subindex 0, or 1 for flag 0x8000. */
  predicate InMapping(o: Object, e: Entry, subindex: nat) {
    && (0x1600 <= o.index < 0x1800 || 0x1A00 <= o.index < 0x1C00 || o.index in {0x1C12, 0x1C13})
    && subindex > e.flags / 0x8000 % 2
  }

  /** Subindex 0 of an object, or 0 if it cannot be read. */
  function FirstValue(o: Object, st: Store): nat {
    if |o.entries| == 0 then 0
    else match o.entries[0].data
         case Some(c) => if c < |st| && |st[c]| > 0 then st[c][0] else 0
         case None => o.entries[0].value % 0x100
  }

  /** A visible string shorter than its entry is padded with zeroes. */
  predicate Padding(e: Entry, size: nat, i: nat) {
    e.dtype == 0x09 && size <= i < BitsToBytes(e.bitlength)
  }

  /** Storage with the string's padding only. */
  function PaddedStore(e: Entry, size: nat, st: Store): (r: Store) {
    match e.data
    case Some(c) =>
      if c < |st| then st[c := seq(|st[c]|, i requires 0 <= i < |st[c]| => if Padding(e, size, i) then 0 else st[c][i])] else st
    case None => st
  }

  /** The abort code of a refused download, or 0. */
  function DownloadCode(o: Object, e: Entry, r: Frame, state: nat, st: Store): uint32
    requires IsRequest(r)
  {
    if !Right(e.flags, 3, state) then
      if e.flags % 0x40 == 0x07 then 0x06010002 // read only
      else 0x08000022 // not in this state
    else if DownloadSize(r) != BitsToBytes(e.bitlength) && !AnyLength(e.dtype) then 0x06070010 // length does not match
    else if InMapping(o, e, SubindexOf(r)) && FirstValue(o, PaddedStore(e, DownloadSize(r), st)) != 0 then 0x06010003 // entries in use
    else 0
  }

  /** What a download carries: up to four bytes in place of the size, or a size of two bytes and the bytes behind it. */
  lemma DownloadFields(r: Frame)
    requires IsRequest(r)
    ensures var command: nat := r.body[2];
            var size := r.body[6] + 0x100 * (r.body[7] as nat);
            if command / 2 % 2 == 1 then DownloadSize(r) == DownloadCount(r) == 4 - command / 4 % 4 && DownloadAt(r) == 6
            else
              && DownloadSize(r) == size && DownloadAt(r) == 10
              && DownloadCount(r) == if 4 < size && 10 <= r.length < size + 10 then r.length - 10 else size
  {
  }

  /** Byte i of the entry's variable after a download that is granted. */
  function DownloadedByte(e: Entry, r: Frame, before: seq<byte>, i: nat): byte
    requires DownloadInside(r) && i < |before|
  {
    if i < DownloadCount(r) then r.body[DownloadAt(r) + i] else if Padding(e, DownloadSize(r), i) then 0 else before[i]
  }

  lemma PaddedIs(e: Entry, size: nat, st: Store)
    requires Backed(e, st) && e.data.Some? && (e.dtype == 0x09 ==> size <= BitsToBytes(e.bitlength))
    requires e.dtype != 0x09 ==> size <= BitsToBytes(e.bitlength)
    ensures Padded(e, size, st) == PaddedStore(e, size, st)
  {
    var c := e.data.value;
    var a, b := Padded(e, size, st), PaddedStore(e, size, st);
    forall i | 0 <= i < |st[c]| ensures a[c][i] == b[c][i] {
    }
    assert a[c] == b[c];
    assert a == st[c := a[c]];
  }

  lemma LockIs(o: Object, e: Entry, subindex: nat, st: Store)
    requires |o.entries| > 0 && CanFetch(o.entries[0], st, 1)
    ensures MappingLocked(o, subindex, e.flags, st) == (InMapping(o, e, subindex) && FirstValue(o, st) != 0)
  {
  }

  lemma LengthsAre(e: Entry, size: nat)
    ensures LengthAccepted(e, size) <==> size == BitsToBytes(e.bitlength) || AnyLength(e.dtype)
  {
  }

  /** What the handler does with the named entry. */
  lemma EntryOutcome(o: Object, n: nat, s: Server, state: nat)
    requires Shaped(s.mbx) && Loadable(o, s.st) && n < |o.entries| && CanFetch(o.entries[0], s.st, 1)
    requires DownloadFits(o.entries[n], s.mbx.buf[0])
    ensures var r, e := s.mbx.buf[0], o.entries[n];
            var code := DownloadCode(o, e, r, state, s.st);
            var t := EntryDownloaded(o, n, s, state);
            if code == 0 then
              && e.data.Some? && e.data.value < |s.st| && DownloadSize(r) <= BitsToBytes(e.bitlength) <= |s.st[e.data.value]|
              && var st1 := PaddedStore(e, DownloadSize(r), s.st);
                 t == Replied(s.(st := st1[e.data.value := Over(st1[e.data.value], 0, DownloadData(r))],
                                 sess := DownloadStarted(r, e, s.sess)),
                              DownloadResponse(IndexOf(r), SubindexOf(r), COE_COMMAND_DOWNLOADRESPONSE))
            else
              t == Aborted(if code == 0x06010003 then s.(st := PaddedStore(e, DownloadSize(r), s.st)) else s, code)
  {
    var r, e := s.mbx.buf[0], o.entries[n];
    RightsAre(e.flags, state);
    LengthsAre(e, DownloadSize(r));
    hide Sent, Highest, DownloadData, DownloadSize, Right, ReadAccess, DownloadInside, InMapping, FirstValue, MappingLocked, Padded,
      PaddedStore, LengthAccepted;
    if WriteAccess(e.flags, state) && LengthAccepted(e, DownloadSize(r)) {
      assert IsWritable(e);
      PaddedIs(e, DownloadSize(r), s.st);
      LockIs(o, e, SubindexOf(r), Padded(e, DownloadSize(r), s.st));
    }
  }

  function ResponseBody(r: Frame, command: byte, rest: seq<byte>): seq<byte>
    requires IsRequest(r)
  {
    [0, 0x30, command] + Multiplexor(r) + rest
  }

  lemma DownloadAccepted(s: Server, x: Server, command: byte)
    requires Shaped(s.mbx) && x.mbx == s.mbx && IsRequest(s.mbx.buf[0])
    ensures var r := s.mbx.buf[0];
            var t := Released(Replied(x, DownloadResponse(IndexOf(r), SubindexOf(r), command)));
            && t == x.(mbx := t.mbx)
            && (FreeBuffer(s.mbx) > 0 ==> Answers(s.mbx, t.mbx, 10, ResponseBody(r, command, [0, 0, 0, 0])))
  {
    var r := s.mbx.buf[0];
    FrameBytes(r, 10, 3, command, Le32(0));
    assert Le32(0) == [0, 0, 0, 0];
    AnsweredBy(s, x, DownloadResponse(IndexOf(r), SubindexOf(r), command));
    hide Answers, Released, SdoFrame;
  }

  /**
   Every download of an existing entry: a granted one is acknowledged and stored
   byte by byte, a refused one is answered by its abort code and stores nothing,
   except that a short string is padded before the lock of a mapping object is
   looked at.
   */
  lemma DownloadAnswered(d: Dictionary, s: Server, state: nat, dsize: nat, o: nat, n: nat)
    requires CanDownload(d, s, dsize) && Names(d, s.mbx.buf[0], o, n)
    ensures var r, e := s.mbx.buf[0], d[o].entries[n];
            var code := DownloadCode(d[o], e, r, state, s.st);
            var t := SdoDownload(d, s, state, dsize);
            && (FreeBuffer(s.mbx) > 0 ==>
                  Answers(s.mbx, t.mbx, 10, if code != 0 then AbortBody(r, code) else ResponseBody(r, 0x60, [0, 0, 0, 0])))
            && t.block == s.block
            && (if code == 0 then
                  && e.data.Some? && e.data.value < |s.st| && DownloadInside(r) && t.st == s.st[e.data.value := t.st[e.data.value]]
                  && |t.st[e.data.value]| == |s.st[e.data.value]|
                  && (forall i | 0 <= i < |s.st[e.data.value]| ::
                        t.st[e.data.value][i] == DownloadedByte(e, r, s.st[e.data.value], i))
                  && t.sess == (if DownloadCount(r) < DownloadSize(r) then
                                  s.sess.(segmented := 0x50, data := Cell(e.data.value, DownloadCount(r)), index := IndexOf(r),
                                          subindex := SubindexOf(r), flags := e.flags)
                                else s.sess.(segmented := 0))
                else
                  t.sess == s.sess && t.st == if code == 0x06010003 then PaddedStore(e, DownloadSize(r), s.st) else s.st)
  {
    var r, e := s.mbx.buf[0], d[o].entries[n];
    NamedIsFound(d, r, o, n);
    EntryOutcome(d[o], n, s, state);
    var code := DownloadCode(d[o], e, r, state, s.st);
    hide Lookup, Serviceable, EntryDownloaded, DownloadCode, Answers, Released, Aborted, Replied, DownloadResponse, DownloadStarted,
      AbortBody, ResponseBody, DownloadData, DownloadCount, DownloadSize, Names, FreeBuffer, DownloadAt;
    if code == 0 {
      var st1 := PaddedStore(e, DownloadSize(r), s.st);
      DownloadAccepted(s, s.(st := st1[e.data.value := Over(st1[e.data.value], 0, DownloadData(r))],
                             sess := DownloadStarted(r, e, s.sess)), COE_COMMAND_DOWNLOADRESPONSE);
      StoredBytes(e, r, s.st);
      StartedIs(r, e, s.sess);
    } else {
      AbortedBy(s, if code == 0x06010003 then s.(st := PaddedStore(e, DownloadSize(r), s.st)) else s, code);
    }
  }

  lemma StartedIs(r: Frame, e: Entry, s: Session)
    requires IsRequest(r) && e.data.Some?
    ensures DownloadStarted(r, e, s) ==
            (if DownloadCount(r) < DownloadSize(r) then
               s.(segmented := 0x50, data := Cell(e.data.value, DownloadCount(r)), index := IndexOf(r), subindex := SubindexOf(r),
                  flags := e.flags)
             else s.(segmented := 0))
  {
    hide DownloadSize, IndexOf, SubindexOf;
  }

  lemma StoredBytes(e: Entry, r: Frame, st: Store)
    requires DownloadInside(r) && e.data.Some? && e.data.value < |st| && DownloadSize(r) <= |st[e.data.value]|
    ensures var c := e.data.value;
            var st1 := PaddedStore(e, DownloadSize(r), st);
            && |st1| == |st| && |st1[c]| == |st[c]| && |DownloadData(r)| <= |st[c]|
            && var after := st1[c := Over(st1[c], 0, DownloadData(r))];
               && after == st[c := after[c]] && |after[c]| == |st[c]|
               && forall i | 0 <= i < |st[c]| :: after[c][i] == DownloadedByte(e, r, st[c], i)
  {
    hide DownloadSize;
  }

  lemma CodesDiffer(r: Frame, a: uint32, b: uint32)
    requires IsRequest(r) && AbortBody(r, a) == AbortBody(r, b)
    ensures a == b
  {
    assert Four(a) == AbortBody(r, a)[6..] && Four(b) == AbortBody(r, b)[6..];
    if a != b { Le32Differs(a, b); }
  }

  /** A request is answered by an abort code exactly if the table says so. */
  lemma DownloadRefusedExactly(d: Dictionary, s: Server, state: nat, dsize: nat, o: nat, n: nat, code: uint32)
    requires CanDownload(d, s, dsize) && Names(d, s.mbx.buf[0], o, n) && FreeBuffer(s.mbx) > 0 && code != 0
    ensures Answers(s.mbx, SdoDownload(d, s, state, dsize).mbx, 10, AbortBody(s.mbx.buf[0], code)) <==>
            code == DownloadCode(d[o], d[o].entries[n], s.mbx.buf[0], state, s.st)
  {
    DownloadAnswered(d, s, state, dsize, o, n);
    var r := s.mbx.buf[0];
    var told := DownloadCode(d[o], d[o].entries[n], r, state, s.st);
    hide DownloadCode, SdoDownload, CanDownload, Names;
    if Answers(s.mbx, SdoDownload(d, s, state, dsize).mbx, 10, AbortBody(r, code)) {
      assert AbortBody(r, code)[1] == 0x20 && ResponseBody(r, 0x60, [0, 0, 0, 0])[1] == 0x30;
      if told != 0 { CodesDiffer(r, code, told); }
    }
  }

  /**
   In particular for the length: 0x06070010 if and only if the entry may be
   written, the announced size is not its own, and its data type is none that
   may have another; and then nothing is stored.
   */
  lemma LengthRefusedExactly(d: Dictionary, s: Server, state: nat, dsize: nat, o: nat, n: nat)
    requires CanDownload(d, s, dsize) && Names(d, s.mbx.buf[0], o, n) && FreeBuffer(s.mbx) > 0
    ensures var r, e := s.mbx.buf[0], d[o].entries[n];
            var t := SdoDownload(d, s, state, dsize);
            (Answers(s.mbx, t.mbx, 10, [0, 0x20, 0x80] + Multiplexor(r) + [0x10, 0x00, 0x07, 0x06]) && t.st == s.st) <==>
            Right(e.flags, 3, state) && DownloadSize(r) != BitsToBytes(e.bitlength)
            && e.dtype !in {0x09, 0x0A, 0x0B, 0x0260, 0x0261, 0x0262, 0x0263}
  {
    hide SdoDownload, Serviceable, Lookup, Answers, DownloadSize, Right, DownloadCode, PaddedStore, DownloadInside, Multiplexor, Four,
      DownloadedByte, ResponseBody;
    DownloadRefusedExactly(d, s, state, dsize, o, n, 0x06070010);
    DownloadAnswered(d, s, state, dsize, o, n);
    LengthCode(d[o], d[o].entries[n], s.mbx.buf[0], state, s.st);
  }

  lemma LengthCode(o: Object, e: Entry, r: Frame, state: nat, st: Store)
    requires IsRequest(r)
    ensures DownloadCode(o, e, r, state, st) == 0x06070010 <==>
            Right(e.flags, 3, state) && DownloadSize(r) != BitsToBytes(e.bitlength)
            && e.dtype !in {0x09, 0x0A, 0x0B, 0x0260, 0x0261, 0x0262, 0x0263}
    ensures Four(0x06070010) == [0x10, 0x00, 0x07, 0x06]
  {
    hide DownloadSize, Right, InMapping, FirstValue, PaddedStore;
  }

  /** Requests for what is not there. */
  lemma DownloadOfNothing(d: Dictionary, s: Server, state: nat, dsize: nat)
    requires CanDownload(d, s, dsize)
    ensures var r := s.mbx.buf[0];
            var t := SdoDownload(d, s, state, dsize);
            var code := if NoSuchObject(d, r) then 0x06020000 else 0x06090011;
            NoSuchObject(d, r) || NoSuchEntry(d, r) ==>
              t == s.(mbx := t.mbx) && (FreeBuffer(s.mbx) > 0 ==> Answers(s.mbx, t.mbx, 10, AbortBody(r, code)))
  {
    MissingIsNotFound(d, s.mbx.buf[0]);
    AbortedBy(s, s, 0x06020000);
    AbortedBy(s, s, 0x06090011);
    hide Lookup, Serviceable, Released, Aborted, Answers, AbortBody, NoSuchObject, NoSuchEntry, WellFormed;
  }

  // Upload

  /** The abort code of a refused upload of an existing entry, or 0. */
  function UploadCode(e: Entry, state: nat): uint32 {
    if !Right(e.flags, 0, state) then 0x06010001 else 0 // write only
  }

  /** Byte i of an entry: of its variable, or of its constant, lowest first. */
  predicate ContentIs(e: Entry, st: Store, c: seq<byte>) {
    && |c| == BitsToBytes(e.bitlength)
    && match e.data
       case Some(x) => x < |st| && |c| <= |st[x]| && c == st[x][..|c|]
       case None => |c| <= 4 && c == Four(e.value)[..|c|]
  }

  /** Command and bytes of the initiate response to an upload of n bytes, of which k fit. */
  function UploadBody(r: Frame, c: seq<byte>, k: nat): seq<byte>
    requires IsRequest(r) && k <= |c|
  {
    if |c| <= 4 then ResponseBody(r, if |c| == 0 then 0x4F else 0x4F - 4 * (|c| - 1), c) else ResponseBody(r, 0x41, Four(|c|) + c[..k])
  }

  lemma UploadFrame(r: Frame, e: Entry, st: Store, s: Session, dsize: nat)
    requires IsRequest(r) && 11 <= dsize < 0x1_0000 && Backed(e, st)
    ensures var c := Content(e, st);
            var k := if |c| + 10 > dsize then dsize - 10 else |c|;
            var (u, f) := UploadReply(IndexOf(r), SubindexOf(r), e, c, s, dsize);
            && ContentIs(e, st, c)
            && f == Frame(if |c| <= 4 then 10 else 10 + k, 3, 0, UploadBody(r, c, if |c| <= 4 then |c| else k))
            && u == (if |c| <= 4 then s
                     else if k < |c| then
                       s.(frags := |c|, fragsleft := k, segmented := 0x40, data := Cell(e.data.value, 0), flags := e.flags)
                     else s.(frags := |c|, segmented := 0))
  {
    var c := Content(e, st);
    var k := if |c| + 10 > dsize then dsize - 10 else |c|;
    var command: byte := if |c| == 0 then 0x4F else if |c| <= 4 then 0x4F - 4 * (|c| - 1) else 0x41;
    FrameBytes(r, 10, 3, command, c);
    FrameBytes(r, 10 + k, 3, 0x41, Le32(|c|) + c[..k]);
    hide SdoFrame, Multiplexor;
  }

  /** Every upload of an existing entry: its bytes, as many as fit one message, or the abort code. */
  lemma UploadAnswered(d: Dictionary, s: Server, state: nat, dsize: nat, o: nat, n: nat)
    requires CanServe(d, s, dsize) && Names(d, s.mbx.buf[0], o, n) && FreeBuffer(s.mbx) > 0
    ensures var r, e := s.mbx.buf[0], d[o].entries[n];
            var t := SdoUpload(d, s, state, dsize);
            && Backed(e, s.st)
            && t == s.(mbx := t.mbx, sess := t.sess)
            && (if UploadCode(e, state) != 0 then
                  t.sess == s.sess && Answers(s.mbx, t.mbx, 10, AbortBody(r, UploadCode(e, state)))
                else
                  var c := Content(e, s.st);
                  var k := if |c| + 10 > dsize then dsize - 10 else |c|;
                  && ContentIs(e, s.st, c)
                  && Answers(s.mbx, t.mbx, if |c| <= 4 then 10 else 10 + k, UploadBody(r, c, if |c| <= 4 then |c| else k))
                  && t.sess == (if |c| <= 4 then s.sess
                                else if k < |c| then
                                  s.sess.(frags := |c|, fragsleft := k, segmented := 0x40, data := Cell(e.data.value, 0),
                                          flags := e.flags)
                                else s.sess.(frags := |c|, segmented := 0)))
  {
    var r, e := s.mbx.buf[0], d[o].entries[n];
    NamedIsFound(d, r, o, n);
    RightsAre(e.flags, state);
    assert Backed(e, s.st);
    hide Lookup, Serviceable, Answers, Released, Aborted, Replied, AbortBody, UploadBody, FreeBuffer, UploadReply, ContentIs, Right,
      ReadAccess, Names;
    AbortedBy(s, s, 0x06010001);
    UploadFrame(r, e, s.st, s.sess, dsize);
    var (u, f) := UploadReply(IndexOf(r), SubindexOf(r), e, Content(e, s.st), s.sess, dsize);
    AnsweredBy(s, s.(sess := u), f);
  }

  lemma UploadOfNothing(d: Dictionary, s: Server, state: nat, dsize: nat)
    requires CanServe(d, s, dsize)
    ensures var r := s.mbx.buf[0];
            var t := SdoUpload(d, s, state, dsize);
            var code := if NoSuchObject(d, r) then 0x06020000 else 0x06090011;
            NoSuchObject(d, r) || NoSuchEntry(d, r) ==>
              t == s.(mbx := t.mbx) && (FreeBuffer(s.mbx) > 0 ==> Answers(s.mbx, t.mbx, 10, AbortBody(r, code)))
  {
    MissingIsNotFound(d, s.mbx.buf[0]);
    AbortedBy(s, s, 0x06020000);
    AbortedBy(s, s, 0x06090011);
    hide Lookup, Serviceable, Released, Aborted, Answers, AbortBody, NoSuchObject, NoSuchEntry, WellFormed;
  }

  // Segments

  /** A segment of an upload: up to seven bytes are padded, and flagged so. */
  lemma UploadSegmentAnswered(s: Server, dsize: nat)
    requires Shaped(s.mbx) && IsRequest(s.mbx.buf[0]) && 11 <= dsize < 0x1_0000 && CanSend(s) && FreeBuffer(s.mbx) > 0
    ensures var left := s.sess.frags - s.sess.fragsleft;
            var n := if left + 3 > dsize then dsize - 3 else left;
            var toggle := s.mbx.buf[0].body[2] / 0x10 % 2 * 0x10;
            var src := Source(s.sess.data, s.st, s.block);
            var t := SdoUploadSegment(s, dsize);
            && s.sess.fragsleft + n <= |src| && t == s.(mbx := t.mbx, sess := t.sess)
            && Answers(s.mbx, t.mbx, if n < left || n >= 7 then 3 + n else 10,
                       [0, 0x30, if n < left then toggle else toggle + 1 + (if n < 7 then 2 * (7 - n) else 0)]
                       + src[s.sess.fragsleft..s.sess.fragsleft + n])
            && t.sess == if n < left then s.sess.(fragsleft := s.sess.fragsleft + n)
                         else s.sess.(segmented := 0, frags := 0, fragsleft := 0)
  {
    var (u, f) := SegmentReply(Command(s.mbx.buf[0]), s.sess, Source(s.sess.data, s.st, s.block), dsize);
    AnsweredBy(s, s.(sess := u), f);
    hide Answers, Released, Replied, FreeBuffer, Source;
  }
}
