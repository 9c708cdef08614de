/**
 The CoE request handlers: what each does to the mailbox buffers, the transfer
 variables and the application's storage.
 */
module CoeHandlers {
  import opened Words
  import opened Bytes
  import opened ObjectDictionary
  import opened Mailbox
  import opened SdoTransfer
  import opened CompleteAccess
  import opened ObjectList

  const ABORT_UNSUPPORTED: uint32 := 0x06010000
  const ABORT_WRITEONLY: uint32 := 0x06010001
  const ABORT_READONLY: uint32 := 0x06010002
  const ABORT_SUBINDEX0_NOT_ZERO: uint32 := 0x06010003
  const ABORT_NOOBJECT: uint32 := 0x06020000
  const ABORT_TYPEMISMATCH: uint32 := 0x06070010
  const ABORT_NOSUBINDEX: uint32 := 0x06090011
  const ABORT_NOTINTHISSTATE: uint32 := 0x08000022

  const PREALLOC_FACTOR: nat := 3

  /** Everything the handlers work on; block is the buffer for complete access. */
  datatype Server = Server(mbx: Mbx, st: Store, block: seq<byte>, sess: Session, entries: nat)

  /** Every object of the dictionary can be loaded and counted. */
  ghost predicate Serviceable(d: Dictionary, st: Store) {
    && WellFormed(d)
    && forall i | 0 <= i < |d| - 1 :: Loadable(d[i], st) && CanFetch(d[i].entries[0], st, 1)
  }

  /** The request in the inbox fits the mailbox. */
  ghost predicate CanRead(d: Dictionary, s: Server, dsize: nat) {
    && Serviceable(d, s.st) && Shaped(s.mbx) && 11 <= dsize < 0x1_0000
    && |s.mbx.buf[0].body| == dsize && s.mbx.buf[0].length <= dsize
  }

  /** It names an object, not the end marker, which has no entries to look at. */
  ghost predicate CanServe(d: Dictionary, s: Server, dsize: nat) {
    CanRead(d, s, dsize) && IndexOf(s.mbx.buf[0]) != LIST_END
  }

  // Answers

  function Replied(s: Server, f: Frame): (r: Server)
    requires Shaped(s.mbx)
    ensures r == s.(mbx := r.mbx) && LikeShaped(r.mbx, s.mbx)
  {
    s.(mbx := Sent(s.mbx, f))
  }

  /** The inbox is free for the next request. */
  function Released(s: Server): (r: Server)
    requires Shaped(s.mbx)
    ensures r == s.(mbx := r.mbx) && LikeShaped(r.mbx, s.mbx)
  {
    s.(mbx := InboxDropped(s.mbx).(xoe := 0))
  }

  function AbortFrame(index: uint16, subindex: byte, code: uint32): Frame {
    SdoFrame(COE_HEADERSIZE, COE_SDOREQUEST, COE_COMMAND_SDOABORT, index, subindex, Le32(code))
  }

  function Aborted(s: Server, code: uint32): (r: Server)
    requires Shaped(s.mbx) && IsRequest(s.mbx.buf[0])
    ensures r == s.(mbx := r.mbx) && LikeShaped(r.mbx, s.mbx)
  {
    Replied(s, AbortFrame(IndexOf(s.mbx.buf[0]), SubindexOf(s.mbx.buf[0]), code))
  }

  // Finding the entry

  datatype Found = NoObject | NoSubindex | Found(o: nat, n: nat)

  function Lookup(d: Dictionary, index: nat, subindex: nat): (f: Found)
    ensures f.Found? ==> f.o < |d| && d[f.o].index == index && f.n < |d[f.o].entries|
  {
    var o := ObjectNo(d, index);
    if o < 0 then NoObject
    else
      var n := EntryNo(d[o], subindex);
      if n < 0 then NoSubindex else Found(o, n)
  }

  // Upload of one entry

  function EntryUploaded(e: Entry, s: Server, state: nat, dsize: nat): (r: Server)
    requires Shaped(s.mbx) && IsRequest(s.mbx.buf[0]) && 11 <= dsize < 0x1_0000 && Backed(e, s.st)
    ensures r == s.(mbx := r.mbx, sess := r.sess) && LikeShaped(r.mbx, s.mbx)
  {
    if !ReadAccess(e.flags, state) then Aborted(s, ABORT_WRITEONLY)
    else if FreeBuffer(s.mbx) == 0 then s
    else
      var r := s.mbx.buf[0];
      var (t, f) := UploadReply(IndexOf(r), SubindexOf(r), e, Content(e, s.st), s.sess, dsize);
      Replied(s.(sess := t), f)
  }

  ghost function UploadTried(d: Dictionary, s: Server, state: nat, dsize: nat): (r: Server)
    requires CanServe(d, s, dsize)
    ensures LikeShaped(r.mbx, s.mbx)
  {
    var r := s.mbx.buf[0];
    match Lookup(d, IndexOf(r), SubindexOf(r))
    case NoObject => Aborted(s, ABORT_NOOBJECT)
    case NoSubindex => Aborted(s, ABORT_NOSUBINDEX)
    case Found(o, n) => EntryUploaded(d[o].entries[n], s, state, dsize)
  }

  ghost function SdoUpload(d: Dictionary, s: Server, state: nat, dsize: nat): (r: Server)
    requires CanServe(d, s, dsize)
    ensures LikeShaped(r.mbx, s.mbx)
  {
    Released(UploadTried(d, s, state, dsize))
  }

  /** The bytes from the transfer's pointer on. */
  predicate PointsInto(p: Pointer, st: Store, block: seq<byte>) {
    match p
    case Cell(c, at) => c < |st| && at <= |st[c]|
    case Scratch(at) => at <= |block|
  }

  function Source(p: Pointer, st: Store, block: seq<byte>): seq<byte>
    requires PointsInto(p, st, block)
  {
    match p
    case Cell(c, at) => st[c][at..]
    case Scratch(at) => block[at..]
  }

  /** An upload was started and its next segment lies inside the source. */
  predicate CanSend(s: Server) {
    PointsInto(s.sess.data, s.st, s.block) && Sending(s.sess, Source(s.sess.data, s.st, s.block))
  }

  function SdoUploadSegment(s: Server, dsize: nat): (r: Server)
    requires Shaped(s.mbx) && IsRequest(s.mbx.buf[0]) && 11 <= dsize < 0x1_0000 && CanSend(s)
    ensures LikeShaped(r.mbx, s.mbx)
  {
    if FreeBuffer(s.mbx) == 0 then Released(s)
    else
      var (t, f) := SegmentReply(Command(s.mbx.buf[0]), s.sess, Source(s.sess.data, s.st, s.block), dsize);
      Released(Replied(s.(sess := t), f))
  }

  // Download of one entry

  predicate IsMappingIndex(index: nat) {
    0x1600 <= index < 0x1800 || 0x1A00 <= index < 0x1C00 || index in {0x1C12, 0x1C13}
  }

  /** Entries of mapping and assign objects can be written only while their subindex 0 is zero. */
  predicate MappingLocked(o: Object, subindex: nat, flags: nat, st: Store)
    requires |o.entries| > 0 && CanFetch(o.entries[0], st, 1)
  {
    && IsMappingIndex(o.index)
    && subindex > (if flags / COMPLETE_ACCESS_FLAG % 2 == 0 then 0 else 1)
    && Value8(o.entries[0], st) != 0
  }

  /** Data types whose entries may be written with fewer bytes. */
  predicate FlexibleLength(dtype: nat) {
    dtype in {0x000A, 0x000B, 0x0260, 0x0261, 0x0262, 0x0263}
  }

  predicate LengthAccepted(e: Entry, size: nat) {
    size == BitsToBytes(e.bitlength) || e.dtype == DTYPE_VISIBLE_STRING || FlexibleLength(e.dtype)
  }

  /** No more bytes are announced than the entry has, and they are in the mailbox. */
  predicate DownloadFits(e: Entry, r: Frame) {
    DownloadInside(r) && (LengthAccepted(e, DownloadSize(r)) ==> DownloadSize(r) <= BitsToBytes(e.bitlength))
  }

  /** A shorter string is padded with zeroes before it is stored. */
  function Padded(e: Entry, size: nat, st: Store): (r: Store)
    requires Backed(e, st) && e.data.Some? && size <= BitsToBytes(e.bitlength)
    ensures SameSizes(st, r)
  {
    if size != BitsToBytes(e.bitlength) && e.dtype == DTYPE_VISIBLE_STRING then
      var c := e.data.value;
      st[c := Over(st[c], size, Zeros(BitsToBytes(e.bitlength) - size))]
    else st
  }

  function DownloadResponse(index: uint16, subindex: byte, command: byte): Frame {
    SdoFrame(COE_HEADERSIZE, COE_SDORESPONSE, command, index, subindex, Le32(0))
  }

  function EntryDownloaded(o: Object, n: nat, s: Server, state: nat): (r: Server)
    requires Shaped(s.mbx) && Loadable(o, s.st) && n < |o.entries| && CanFetch(o.entries[0], s.st, 1)
    requires DownloadFits(o.entries[n], s.mbx.buf[0])
    ensures LikeShaped(r.mbx, s.mbx) && SameSizes(s.st, r.st) && r.block == s.block
  {
    var r := s.mbx.buf[0];
    var e := o.entries[n];
    if !WriteAccess(e.flags, state) then
      Aborted(s, if e.flags % 0x40 == 0x07 then ABORT_READONLY else ABORT_NOTINTHISSTATE)
    else if !LengthAccepted(e, DownloadSize(r)) then Aborted(s, ABORT_TYPEMISMATCH)
    else
      var c := e.data.value;
      var st1 := Padded(e, DownloadSize(r), s.st);
      if MappingLocked(o, SubindexOf(r), e.flags, st1) then Aborted(s.(st := st1), ABORT_SUBINDEX0_NOT_ZERO)
      else
        Replied(s.(st := st1[c := Over(st1[c], 0, DownloadData(r))], sess := DownloadStarted(r, e, s.sess)),
                DownloadResponse(IndexOf(r), SubindexOf(r), COE_COMMAND_DOWNLOADRESPONSE))
  }

  ghost predicate CanDownload(d: Dictionary, s: Server, dsize: nat) {
    && CanServe(d, s, dsize)
    && var r := s.mbx.buf[0];
       var f := Lookup(d, IndexOf(r), SubindexOf(r));
       f.Found? ==> DownloadFits(d[f.o].entries[f.n], r)
  }

  ghost function DownloadTried(d: Dictionary, s: Server, state: nat, dsize: nat): (r: Server)
    requires CanDownload(d, s, dsize)
    ensures LikeShaped(r.mbx, s.mbx)
  {
    var r := s.mbx.buf[0];
    match Lookup(d, IndexOf(r), SubindexOf(r))
    case NoObject => Aborted(s, ABORT_NOOBJECT)
    case NoSubindex => Aborted(s, ABORT_NOSUBINDEX)
    case Found(o, n) => EntryDownloaded(d[o], n, s, state)
  }

  ghost function SdoDownload(d: Dictionary, s: Server, state: nat, dsize: nat): (r: Server)
    requires CanDownload(d, s, dsize)
    ensures LikeShaped(r.mbx, s.mbx)
  {
    Released(DownloadTried(d, s, state, dsize))
  }

  // Segments of a download

  /** A download was started, and the segment fits what it writes to. */
  predicate CanTake(s: Server) {
    && Shaped(s.mbx) && SegmentInside(s.mbx.buf[0])
    && PointsInto(s.sess.data, s.st, s.block)
    && SegmentSize(s.mbx.buf[0]) <= |Source(s.sess.data, s.st, s.block)|
  }

  /** The segment's bytes are put where the transfer points. */
  function SegmentStored(s: Server): (r: Server)
    requires CanTake(s)
    ensures r == s.(st := r.st, block := r.block) && SameSizes(s.st, r.st) && |r.block| == |s.block|
  {
    var data := SegmentData(s.mbx.buf[0]);
    match s.sess.data
    case Cell(c, at) => s.(st := s.st[c := Over(s.st[c], at, data)])
    case Scratch(at) => s.(block := Over(s.block, at, data))
  }

  function SegmentResponse(command: byte): Frame {
    SdoFrame(COE_HEADERSIZE, COE_SDORESPONSE, COE_COMMAND_DOWNLOADSEGRESP + Toggle(command), 0, 0, [])
  }

  /** The segment completes a complete access. */
  predicate Completes(s: Server)
    requires Shaped(s.mbx) && IsRequest(s.mbx.buf[0])
  {
    LastSegment(Command(s.mbx.buf[0])) && s.sess.flags == COMPLETE_ACCESS_FLAG
  }

  /** Why the last segment of a complete access is refused: too few bytes, or the entry is gone; 0 if it is not. */
  function SpreadRefused(d: Dictionary, s: Server): uint32
    requires Shaped(s.mbx) && SegmentInside(s.mbx.buf[0])
  {
    if !Completes(s) then 0
    else if s.sess.frags > s.sess.fragsleft + SegmentSize(s.mbx.buf[0]) then ABORT_TYPEMISMATCH
    else if !Lookup(d, s.sess.index, s.sess.subindex).Found? then ABORT_NOOBJECT
    else 0
  }

  /** The collected block can be spread over the entries. */
  ghost predicate CanSpread(d: Dictionary, s: Server)
    requires Shaped(s.mbx) && SegmentInside(s.mbx.buf[0])
  {
    Completes(s) && SpreadRefused(d, s) == 0 ==>
      var f := Lookup(d, s.sess.index, s.sess.subindex);
      CanLoad(d[f.o], f.n, Download(s.block), s.sess.frags, Work(s.block, s.st))
  }

  ghost function Spread(d: Dictionary, s: Server, state: nat): (r: Server)
    requires Shaped(s.mbx) && SegmentInside(s.mbx.buf[0]) && SpreadRefused(d, s) == 0 && CanSpread(d, s)
    ensures r == s.(st := r.st)
  {
    if Completes(s) then
      var f := Lookup(d, s.sess.index, s.sess.subindex);
      s.(st := LoopResult(d[f.o], state, f.n, Download(s.block), s.sess.frags, Work(s.block, s.st)).st)
    else s
  }

  ghost predicate CanSegment(d: Dictionary, s: Server) {
    WellFormed(d) && s.sess.index != LIST_END && CanTake(s) && CanSpread(d, SegmentStored(s))
  }

  /** What a segment does once buffer n is claimed for its answer; a refusal is sent in another buffer. */
  ghost function SegmentAnswered(d: Dictionary, s: Server, state: nat, n: nat): (r: Server)
    requires CanSegment(d, s) && n < |s.mbx.control|
    ensures LikeShaped(r.mbx, s.mbx)
  {
    var r := s.mbx.buf[0];
    var s1 := SegmentStored(s);
    var code := SpreadRefused(d, s1);
    if code != 0 then Replied(s1, AbortFrame(s.sess.index, s.sess.subindex, code))
    else
      var s2 := Spread(d, s1, state).(sess := SegmentTaken(r, s.sess));
      s2.(mbx := Queued(s2.mbx, n, SegmentResponse(Command(r))))
  }

  /** A claimed buffer changes nothing that a segment needs. */
  lemma ClaimedCanSegment(d: Dictionary, s: Server)
    requires CanSegment(d, s)
    ensures CanSegment(d, s.(mbx := Claimed(s.mbx))) && Claimed(s.mbx).buf[0] == s.mbx.buf[0]
  {
    hide Highest, CanLoad;
  }

  /**
   A download segment. When the last one of a complete access is refused, the
   buffer claimed for the answer is not given back.
   */
  ghost function SdoDownloadSegment(d: Dictionary, s: Server, state: nat): (r: Server)
    requires CanSegment(d, s)
    ensures LikeShaped(r.mbx, s.mbx)
  {
    ClaimedCanSegment(d, s);
    if FreeBuffer(s.mbx) == 0 then Released(s)
    else Released(SegmentAnswered(d, s.(mbx := Claimed(s.mbx)), state, FreeBuffer(s.mbx)))
  }

  // Complete access

  /** Why a complete access is refused before anything is done; 0 if it is not. */
  function CompleteRefused(d: Dictionary, index: nat, subindex: nat): uint32 {
    if subindex > 1 then ABORT_UNSUPPORTED
    else
      match Lookup(d, index, subindex)
      case NoObject => ABORT_NOOBJECT
      case NoSubindex => ABORT_NOSUBINDEX
      case Found(_, _) => 0
  }

  /** The bits that count the unused bytes of an expedited complete access; an empty object counts none. */
  function CompleteDss(bits: nat): byte {
    if bits == 0 || bits > 24 then 0 else 4 * (3 - (bits - 1) / 8)
  }

  /** The response carrying the first part of a block of bytes. */
  function BlockReply(index: uint16, subindex: byte, bits: nat, block: seq<byte>, s: Session, dsize: nat): (Session, Frame)
    requires 11 <= dsize < 0x1_0000 && BitsToBytes(bits) <= |block| && BitsToBytes(bits) < 0x1_0000
  {
    var n := BitsToBytes(bits);
    var command := COE_COMMAND_UPLOADRESPONSE + COE_COMPLETEACCESS + COE_SIZE_INDICATOR;
    if n <= 4 then
      (s.(segmented := 0),
       SdoFrame(COE_HEADERSIZE, COE_SDORESPONSE, command + COE_EXPEDITED_INDICATOR + CompleteDss(bits), index, subindex, block[..n]))
    else
      var k := if n + COE_HEADERSIZE > dsize then dsize - COE_HEADERSIZE else n;
      (if k < n then s.(frags := n, fragsleft := k, segmented := MBXSEU, data := Scratch(0), flags := COMPLETE_ACCESS_FLAG)
       else s.(segmented := 0),
       SdoFrame(COE_HEADERSIZE + k, COE_SDORESPONSE, command, index, subindex, Le32(n) + block[..k]))
  }

  /** Objects too big for the block, or of dynamic length, are refused. */
  predicate BlockTooBig(bytes: nat, s: Server) {
    bytes + PREALLOC_FACTOR * COE_HEADERSIZE > |s.block|
  }

  /** The object's entries are copied into the block, whose first part goes into buffer n. */
  ghost function BlockSent(o: Object, nsub: nat, s: Server, n: nat, bits: nat, state: nat, dsize: nat): (r: Server)
    requires Shaped(s.mbx) && IsRequest(s.mbx.buf[0]) && 11 <= dsize < 0x1_0000 && n < |s.mbx.control|
    requires CanLoad(o, nsub, Upload, 0, Work(s.block, s.st))
    requires BitsToBytes(bits) <= |s.block| && BitsToBytes(bits) < 0x1_0000
    ensures LikeShaped(r.mbx, s.mbx)
  {
    var r := s.mbx.buf[0];
    var w := LoopResult(o, state, nsub, Upload, 0, Work(s.block, s.st));
    var (t, f) := BlockReply(IndexOf(r), SubindexOf(r), bits, w.block, s.sess, dsize);
    s.(block := w.block, sess := t, mbx := Queued(s.mbx, n, f))
  }

  /**
   The size of an object of dynamic length is an abort code. It is sent after
   being converted from bits to bytes.
   */
  ghost function ObjectUploaded(o: Object, nsub: nat, s: Server, state: nat, dsize: nat): (r: Server)
    requires Shaped(s.mbx) && IsRequest(s.mbx.buf[0]) && 11 <= dsize < 0x1_0000
    requires Loadable(o, s.st) && nsub < |o.entries|
    ensures LikeShaped(r.mbx, s.mbx)
  {
    var n := FreeBuffer(s.mbx);
    var bits := LoopSize(o, nsub, 0);
    var bytes := BitsToBytes(bits);
    if n == 0 then s
    else if bytes > 0xFFFF then Aborted(s, bytes % 0x1_0000_0000)
    else if BlockTooBig(bytes, s) then Aborted(s, ABORT_CA_NOT_SUPPORTED)
    else BlockSent(o, nsub, s.(mbx := Claimed(s.mbx)), n, bits, state, dsize)
  }

  ghost function UploadAllTried(d: Dictionary, s: Server, state: nat, dsize: nat): (r: Server)
    requires CanServe(d, s, dsize)
    ensures LikeShaped(r.mbx, s.mbx)
  {
    var r := s.mbx.buf[0];
    var code := CompleteRefused(d, IndexOf(r), SubindexOf(r));
    if code != 0 then Aborted(s, code)
    else
      var f := Lookup(d, IndexOf(r), SubindexOf(r));
      ObjectUploaded(d[f.o], f.n, s, state, dsize)
  }

  ghost function SdoUploadComplete(d: Dictionary, s: Server, state: nat, dsize: nat): (r: Server)
    requires CanServe(d, s, dsize)
    ensures LikeShaped(r.mbx, s.mbx)
  {
    Released(UploadAllTried(d, s, state, dsize))
  }

  /** More bytes than one mailbox holds are collected in the block first. */
  predicate Collects(r: Frame, dsize: nat)
    requires IsRequest(r)
  {
    DownloadSize(r) + COE_HEADERSIZE > dsize
  }

  function CollectStarted(r: Frame, s: Session, dsize: nat): Session
    requires IsRequest(r) && dsize >= 11
  {
    s.(frags := DownloadSize(r), fragsleft := dsize - COE_HEADERSIZE, segmented := MBXSED,
       data := Scratch(dsize - COE_HEADERSIZE), index := IndexOf(r), subindex := SubindexOf(r), flags := COMPLETE_ACCESS_FLAG)
  }

  function ObjectBytes(o: Object, nsub: nat): nat
    requires nsub < |o.entries|
  {
    BitsToBytes(LoopSize(o, nsub, 0))
  }

  /** The entries to be written lie inside the mailbox. */
  ghost predicate CanDownloadObject(o: Object, nsub: nat, s: Server, dsize: nat) {
    && Shaped(s.mbx) && IsRequest(s.mbx.buf[0]) && 11 <= dsize < 0x1_0000 && |s.mbx.buf[0].body| == dsize
    && nsub < |o.entries| && Loadable(o, s.st)
    && var r := s.mbx.buf[0];
       (!Collects(r, dsize) && DownloadSize(r) <= ObjectBytes(o, nsub) <= 0xFFFF ==>
          CanLoad(o, nsub, Download(r.body[DownloadAt(r)..]), DownloadSize(r), Work(s.block, s.st)))
  }

  /** The downloaded bytes are collected in the block, or spread over the entries at once. */
  ghost function ObjectStored(o: Object, nsub: nat, s: Server, state: nat, dsize: nat): (r: Server)
    requires CanDownloadObject(o, nsub, s, dsize)
    requires DownloadSize(s.mbx.buf[0]) <= ObjectBytes(o, nsub) <= 0xFFFF
    requires Collects(s.mbx.buf[0], dsize) ==> !BlockTooBig(DownloadSize(s.mbx.buf[0]), s)
    ensures r.mbx == s.mbx
  {
    var r := s.mbx.buf[0];
    var data := r.body[DownloadAt(r)..];
    if Collects(r, dsize) then
      s.(block := Over(s.block, 0, data[..dsize - COE_HEADERSIZE]), sess := CollectStarted(r, s.sess, dsize))
    else
      s.(st := LoopResult(o, state, nsub, Download(data), DownloadSize(r), Work(s.block, s.st)).st,
         sess := s.sess.(segmented := 0))
  }

  ghost function ObjectDownloaded(o: Object, nsub: nat, s: Server, state: nat, dsize: nat): (r: Server)
    requires CanDownloadObject(o, nsub, s, dsize)
    ensures LikeShaped(r.mbx, s.mbx)
  {
    var r := s.mbx.buf[0];
    var bytes := DownloadSize(r);
    var size := ObjectBytes(o, nsub);
    if size > 0xFFFF then Aborted(s, size % 0x1_0000_0000)
    else if bytes > size then Aborted(s, ABORT_TYPEMISMATCH)
    else if Collects(r, dsize) && BlockTooBig(bytes, s) then Aborted(s, ABORT_CA_NOT_SUPPORTED)
    else
      Replied(ObjectStored(o, nsub, s, state, dsize),
              DownloadResponse(IndexOf(r), SubindexOf(r), COE_COMMAND_DOWNLOADRESPONSE + COE_COMPLETEACCESS))
  }

  ghost predicate CanDownloadComplete(d: Dictionary, s: Server, dsize: nat) {
    && CanServe(d, s, dsize)
    && var r := s.mbx.buf[0];
       (CompleteRefused(d, IndexOf(r), SubindexOf(r)) == 0 ==>
          var f := Lookup(d, IndexOf(r), SubindexOf(r));
          CanDownloadObject(d[f.o], f.n, s, dsize))
  }

  ghost function DownloadAllTried(d: Dictionary, s: Server, state: nat, dsize: nat): (r: Server)
    requires CanDownloadComplete(d, s, dsize)
    ensures LikeShaped(r.mbx, s.mbx)
  {
    var r := s.mbx.buf[0];
    var code := CompleteRefused(d, IndexOf(r), SubindexOf(r));
    if code != 0 then Aborted(s, code)
    else
      var f := Lookup(d, IndexOf(r), SubindexOf(r));
      ObjectDownloaded(d[f.o], f.n, s, state, dsize)
  }

  ghost function SdoDownloadComplete(d: Dictionary, s: Server, state: nat, dsize: nat): (r: Server)
    requires CanDownloadComplete(d, s, dsize)
    ensures LikeShaped(r.mbx, s.mbx)
  {
    Released(DownloadAllTried(d, s, state, dsize))
  }

  // Object list and descriptions

  function InfoError(code: uint32): Frame {
    Frame(COE_HEADERSIZE, MBXCOE, 0, [0, COE_SDOINFORMATION * 0x10, 0x07, 0, 0, 0] + Le32(code))
  }

  /** An answer that needs a buffer: without one the request stays in the inbox. */
  function Answered(s: Server, f: Frame): (r: Server)
    requires Shaped(s.mbx)
    ensures LikeShaped(r.mbx, s.mbx)
  {
    if FreeBuffer(s.mbx) == 0 then s else Released(Replied(s, f))
  }

  function CountFrame(entries: uint16): Frame {
    Frame(18, MBXCOE, 0, ListHeader(false, 0) + Le16(0) + Le16(entries) + Zeros(8))
  }

  /** The first fragment of the list of all objects, in buffer n; the inbox is held while more follow. */
  function ListStarted(d: Dictionary, s: Server, n: nat, dsize: nat): (r: Server)
    requires Shaped(s.mbx) && 11 <= dsize < 0x1_0000 && 1 < |d| && n < |s.mbx.control|
    ensures LikeShaped(r.mbx, s.mbx)
  {
    FragmentCount(Entries(d), dsize);
    FirstBounds(Entries(d), dsize);
    var frags := Fragments(Entries(d), dsize);
    var m := Queued(s.mbx, n, FirstFragment(Listed(d, 0, FirstCount(Entries(d), dsize)), frags));
    if frags > 1 then s.(mbx := m.(xoe := MBXCOE + MBXODL)) else Released(s.(mbx := m))
  }

  /** List type 0 asks for the number of objects, 1 for all of them. */
  function SdoGetOdList(d: Dictionary, s: Server, dsize: nat): (r: Server)
    requires Shaped(s.mbx) && IsRequest(s.mbx.buf[0]) && 11 <= dsize < 0x1_0000 && 1 < |d| <= 0x1_0000
    ensures LikeShaped(r.mbx, s.mbx)
  {
    var s1 := s.(entries := Entries(d));
    var frags := Fragments(Entries(d), dsize);
    FragmentCount(Entries(d), dsize);
    var n := FreeBuffer(s.mbx);
    var s2 := s1.(sess := s1.sess.(frags := frags, fragsleft := frags - 1), mbx := Claimed(s1.mbx));
    if SizeField(s.mbx.buf[0]) > 1 then Answered(s1, InfoError(ABORT_UNSUPPORTED))
    else if n == 0 then s1
    else if SizeField(s.mbx.buf[0]) == 0 then Released(s2.(mbx := Queued(s2.mbx, n, CountFrame(Entries(d)))))
    else ListStarted(d, s2, n, dsize)
  }

  /** A list is being sent: the transfer variables count its fragments. */
  predicate Listing(d: Dictionary, s: Server, dsize: nat) {
    && |d| > 1 && dsize >= 11 && s.entries == Entries(d)
    && s.sess.frags == Fragments(Entries(d), dsize) && 1 <= s.sess.fragsleft < s.sess.frags
  }

  function SdoGetOdListCont(d: Dictionary, s: Server, dsize: nat): (r: Server)
    requires Shaped(s.mbx) && 11 <= dsize < 0x1_0000 && Listing(d, s, dsize)
    ensures LikeShaped(r.mbx, s.mbx)
  {
    if FreeBuffer(s.mbx) == 0 then s
    else
      NextBounds(s.entries, s.sess.frags, s.sess.fragsleft, dsize);
      var l := Listed(d, NextFrom(s.sess.frags, s.sess.fragsleft, dsize),
                      NextTo(s.entries, s.sess.frags, s.sess.fragsleft, dsize));
      var s1 := Replied(s.(sess := s.sess.(fragsleft := s.sess.fragsleft - 1)), NextFragment(l, s.sess.fragsleft));
      if s.sess.fragsleft > 1 then s1 else Released(s1)
  }

  // The dispatcher

  datatype Kind = UploadOne | UploadAll | UploadSeg | DownloadOne | DownloadAll | DownloadSeg | Unmatched
                | ObjectListing | Description | NoService | Unknown

  function SdoKind(r: Frame, segmented: nat): Kind
    requires IsRequest(r)
  {
    var c := Command(r);
    if c / 0x20 * 0x20 == COE_COMMAND_UPLOADREQUEST && r.length == COE_HEADERSIZE then
      if IsComplete(c) then UploadAll else UploadOne
    else if c in {0x60, 0x70} && r.length == COE_HEADERSIZE && segmented == MBXSEU then UploadSeg
    else if c / 0x20 * 0x20 == COE_COMMAND_DOWNLOADREQUEST then
      if IsComplete(c) then DownloadAll else DownloadOne
    else if c / 0x20 * 0x20 == COE_COMMAND_DOWNLOADSEGREQ then DownloadSeg
    else Unmatched
  }

  function KindOf(r: Frame, segmented: nat): Kind
    requires IsRequest(r)
  {
    if Service(r) == COE_SDOREQUEST then SdoKind(r, segmented)
    else if Service(r) == COE_SDOINFORMATION && Command(r) % 0x80 == 1 then ObjectListing
    else if Service(r) == COE_SDOINFORMATION && Command(r) % 0x80 in {3, 5} then Description
    else if Service(r) == 0 then NoService
    else Unknown
  }

  /** What the handler for this request needs. */
  ghost predicate CanHandle(d: Dictionary, s: Server, dsize: nat) {
    && CanRead(d, s, dsize) && 1 < |d| <= 0x1_0000
    && match KindOf(s.mbx.buf[0], s.sess.segmented)
       case UploadOne => CanServe(d, s, dsize)
       case UploadAll => CanServe(d, s, dsize)
       case UploadSeg => CanSend(s)
       case DownloadOne => CanDownload(d, s, dsize)
       case DownloadAll => CanDownloadComplete(d, s, dsize)
       case DownloadSeg => CanSegment(d, s)
       case _ => true
  }

  /** One request, answered; text is the answer to a request for a description. */
  ghost function Handled(d: Dictionary, s: Server, state: nat, dsize: nat, text: Frame): (r: Server)
    requires CanHandle(d, s, dsize)
    ensures LikeShaped(r.mbx, s.mbx)
  {
    match KindOf(s.mbx.buf[0], s.sess.segmented)
    case UploadOne => SdoUpload(d, s, state, dsize)
    case UploadAll => SdoUploadComplete(d, s, state, dsize)
    case UploadSeg => SdoUploadSegment(s, dsize)
    case DownloadOne => SdoDownload(d, s, state, dsize)
    case DownloadAll => SdoDownloadComplete(d, s, state, dsize)
    case DownloadSeg => SdoDownloadSegment(d, s, state)
    case Unmatched => s
    case ObjectListing => SdoGetOdList(d, s, dsize)
    case Description => Answered(s, text)
    case NoService => Released(Replied(s, ErrorFrame(MBXERR_INVALIDHEADER)))
    case Unknown => Released(Aborted(s, ABORT_UNSUPPORTED))
  }

  /** A CoE message in the inbox is taken on, unless it is too short. */
  function TakenOn(s: Server): (r: Server)
    requires Shaped(s.mbx)
    ensures LikeShaped(r.mbx, s.mbx)
  {
    if s.mbx.xoe == 0 && s.mbx.control[0] == Inclaim && s.mbx.buf[0].mtype == MBXCOE then
      if s.mbx.buf[0].length < COE_MINIMUM_LENGTH then Replied(s, ErrorFrame(MBXERR_INVALIDSIZE))
      else s.(mbx := s.mbx.(xoe := MBXCOE))
    else s
  }

  predicate ContinuesList(s: Server) {
    s.mbx.xoe == MBXCOE + MBXODL && s.mbx.outpost == 0
  }

  ghost predicate CanProcess(d: Dictionary, s: Server, dsize: nat) {
    && Shaped(s.mbx) && 11 <= dsize < 0x1_0000
    && (s.mbx.run && ContinuesList(s) ==> Listing(d, s, dsize))
    && (s.mbx.run && TakenOn(s).mbx.xoe == MBXCOE ==> CanHandle(d, TakenOn(s), dsize))
  }

  /** One call of ESC_coeprocess. */
  ghost function CoeProcess(d: Dictionary, s: Server, state: nat, dsize: nat, text: Frame): (r: Server)
    requires CanProcess(d, s, dsize)
    ensures LikeShaped(r.mbx, s.mbx)
  {
    if !s.mbx.run then s
    else
      var s1 := TakenOn(s);
      if ContinuesList(s1) then SdoGetOdListCont(d, s1, dsize)
      else if s1.mbx.xoe == MBXCOE then Handled(d, s1, state, dsize, text)
      else s1
  }

  /** What one round of ecat_slv_poll's mailbox part needs. */
  ghost predicate CanRound(d: Dictionary, s: Server, i: Input, dsize: nat) {
    Shaped(s.mbx) && (HasWork(s.mbx, i) ==> CanProcess(d, s.(mbx := Processed(s.mbx, i, dsize)), dsize))
  }

  /** One round: the buffers, then the CoE server, then what nobody has taken. */
  ghost function Round(d: Dictionary, s: Server, i: Input, state: nat, dsize: nat, text: Frame): (r: Server)
    requires CanRound(d, s, i, dsize)
    ensures LikeShaped(r.mbx, s.mbx)
  {
    var s1 := s.(mbx := Processed(s.mbx, i, dsize));
    if !HasWork(s.mbx, i) then s1
    else
      var t := CoeProcess(d, s1, state, dsize, text);
      t.(mbx := Rejected(t.mbx))
  }

  /** Taking on a message does not disturb a list being sent. */
  lemma ContinuedAsTaken(d: Dictionary, s: Server, dsize: nat)
    requires CanProcess(d, s, dsize) && s.mbx.run
    ensures ContinuesList(TakenOn(s)) ==> TakenOn(s) == s && Listing(d, s, dsize)
  {
    hide CanHandle, Listing, Sent;
    SentKeepsTransfer(s.mbx, ErrorFrame(MBXERR_INVALIDSIZE));
  }

  lemma SentKeepsTransfer(m: Mbx, f: Frame)
    requires Shaped(m)
    ensures var r := Sent(m, f);
            r.xoe == m.xoe && r.outpost == m.outpost && r.run == m.run && r.buf[0] == m.buf[0]
            && r.control[0] == m.control[0]
  {
    hide Highest;
  }
}
