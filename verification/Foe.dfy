/**
 File access over EtherCAT: receiving a file in numbered packets and writing it
 through a buffer of fixed size.

 The application's write function is a callback: its calls are recorded, and
 whether call number n fails is an input.
 */
module Foe {
  import opened Words
  import opened Bytes
  import opened Mailbox

  const MBXFOE: nat := 4
  const ESC_FOEHSIZE: nat := 6
  const FOE_FN_MAX: nat := 31

  const FOE_OP_WRQ: byte := 2
  const FOE_OP_DATA: byte := 3
  const FOE_OP_ACK: byte := 4
  const FOE_OP_ERR: byte := 5

  const FOE_READY: nat := 0
  const FOE_WAIT_FOR_DATA: nat := 3

  const FOE_ERR_NOTFOUND: uint32 := 0x8001
  const FOE_ERR_DISKFULL: uint32 := 0x8003
  const FOE_ERR_ILLEGAL: uint32 := 0x8004
  const FOE_ERR_PACKETNO: uint32 := 0x8005
  const FOE_ERR_NOTINBOOTSTRAP: uint32 := 0x8009
  const FOE_ERR_NORIGHTS: uint32 := 0x800A
  const FOE_ERR_PROGERROR: uint32 := 0x800B

  datatype FileConfig = FileConfig(name: seq<byte>, maxData: uint32, password: uint32, onlyInBoot: bool)

  /** One call of the write function: the file, its address offset at the time, and the bytes. */
  datatype Flush = Flush(file: nat, offset: nat, bytes: seq<byte>)

  datatype FoeState = FoeState(
    mbx: Mbx, state: nat, packet: uint32, position: nat, prevPosition: nat, end: nat,
    bufPosition: nat, buffer: seq<byte>, file: nat, offset: nat, total: nat, flushes: seq<Flush>)

  predicate FoeValid(s: FoeState) {
    Shaped(s.mbx) && |s.buffer| > 0 && s.bufPosition < |s.buffer| && s.position <= s.end < 0x1_0000_0000
  }

  predicate IsFoe(f: Frame) { ESC_FOEHSIZE <= f.length <= |f.body| }

  /** Password, packet number or error code. */
  function Number(f: Frame): uint32
    requires IsFoe(f)
  {
    var b0: nat, b1: nat, b2: nat, b3: nat := f.body[2], f.body[3], f.body[4], f.body[5];
    b0 + 0x100 * b1 + 0x1_0000 * b2 + 0x100_0000 * b3
  }

  function Payload(f: Frame): (bs: seq<byte>)
    requires IsFoe(f)
    ensures |bs| == f.length - ESC_FOEHSIZE
  {
    f.body[ESC_FOEHSIZE..f.length]
  }

  function FoeFrame(op: byte, number: uint32): Frame {
    Frame(ESC_FOEHSIZE, MBXFOE, 0, [op, 0] + Le32(number))
  }

  // Elementary actions

  function Initial(s: FoeState): (r: FoeState)
    ensures r == s.(packet := 0, state := FOE_READY, position := 0, prevPosition := 0, bufPosition := 0)
  {
    s.(packet := 0, state := FOE_READY, position := 0, prevPosition := 0, bufPosition := 0)
  }

  /** An error is reported if there is a buffer, and the transfer is over. */
  function FoeAborted(s: FoeState, code: uint32): FoeState
    requires Shaped(s.mbx)
  {
    Initial(if code != 0 then s.(mbx := Sent(s.mbx, FoeFrame(FOE_OP_ERR, code))) else s)
  }

  /** An acknowledgement carries the current packet number, and the next one is expected. */
  function Acked(s: FoeState): FoeState
    requires Shaped(s.mbx)
  {
    if FreeBuffer(s.mbx) == 0 then s
    else s.(mbx := Sent(s.mbx, FoeFrame(FOE_OP_ACK, s.packet)), packet := (s.packet + 1) % 0x1_0000_0000)
  }

  // Opening

  /** The first n characters agree, up to a terminating zero (strncmp). */
  predicate SameName(a: seq<byte>, b: seq<byte>, i: nat)
    decreases |a| - i
  {
    i >= |a| || (a[i] == CharAt(b, i) && (a[i] == 0 || SameName(a, b, i + 1)))
  }

  function CharAt(s: seq<byte>, i: nat): byte { if i < |s| then s[i] else 0 }

  /** Result of looking for a file: its number, or why it cannot be written. */
  datatype Opened = Opened(file: nat) | Refused(code: uint32)

  function Open(files: seq<FileConfig>, name: seq<byte>, password: uint32, boot: bool, from: nat): (r: Opened)
    ensures r.Opened? ==> r.file < |files|
    decreases |files| - from
  {
    if from >= |files| then Refused(FOE_ERR_NOTFOUND)
    else if !SameName(name, files[from].name, 0) then Open(files, name, password, boot, from + 1)
    else if password != files[from].password then Refused(FOE_ERR_NORIGHTS)
    else if files[from].onlyInBoot && !boot then Refused(FOE_ERR_NOTINBOOTSTRAP)
    else Opened(from)
  }

  /** The name in a write request: at most 31 characters, counted modulo 256. */
  function RequestedName(f: Frame): seq<byte>
    requires IsFoe(f)
  {
    var n := (f.length - ESC_FOEHSIZE) % 0x100;
    Payload(f)[..if n > FOE_FN_MAX then FOE_FN_MAX else n]
  }

  /** A write request (FOE_write). */
  function WriteRequested(s: FoeState, files: seq<FileConfig>, boot: bool, f: Frame): FoeState
    requires Shaped(s.mbx) && IsFoe(f)
  {
    if s.state != FOE_READY then FoeAborted(s, FOE_ERR_ILLEGAL)
    else
      var s0 := Initial(s);
      match Open(files, RequestedName(f), Number(f), boot, 0)
      case Refused(code) => FoeAborted(s0, code)
      case Opened(i) =>
        var s1 := s0.(file := i, offset := 0, total := 0, end := files[i].maxData);
        if FreeBuffer(s1.mbx) == 0 then FoeAborted(s1, FOE_ERR_PROGERROR)
        else Acked(s1).(state := FOE_WAIT_FOR_DATA)
  }

  // Writing through the buffer

  /** The write function is called with the first n bytes of the buffer; the file's offset moves by step. */
  function Flushed(s: FoeState, n: nat, step: nat): FoeState
    requires n <= |s.buffer|
  {
    s.(flushes := s.flushes + [Flush(s.file, s.offset, s.buffer[..n])], offset := s.offset + step, bufPosition := 0)
  }

  /** One byte goes into the buffer; a full buffer is flushed. */
  function PutByte(s: FoeState, b: byte): FoeState
    requires FoeValid(s)
  {
    var s1 := s.(buffer := s.buffer[s.bufPosition := b], bufPosition := s.bufPosition + 1, position := s.position + 1);
    if s1.bufPosition >= |s.buffer| then Flushed(s1, s1.bufPosition, |s.buffer|) else s1
  }

  /** The byte did not get through: it filled the buffer and the write function failed. */
  predicate PutFails(s: FoeState, fails: nat -> bool) {
    s.bufPosition + 1 >= |s.buffer| && fails(|s.flushes|)
  }

  /** State after writing data from position i on, and how far it got (FOE_fwrite without its bookkeeping). */
  function PutBytes(s: FoeState, data: seq<byte>, i: nat, fails: nat -> bool): (r: (FoeState, nat))
    requires FoeValid(s) && i <= |data|
    ensures FoeValid(r.0) && r.1 <= |data|
    decreases |data| - i
  {
    if i == |data| || s.position == s.end then (s, i)
    else if PutFails(s, fails) then (PutByte(s, data[i]), i)
    else PutBytes(PutByte(s, data[i]), data, i + 1, fails)
  }

  function FileWritten(s: FoeState, data: seq<byte>, fails: nat -> bool): (FoeState, nat)
    requires FoeValid(s)
  {
    var (t, n) := PutBytes(s.(prevPosition := s.position), data, 0, fails);
    (t.(total := t.total + n), n)
  }

  function FileClosed(s: FoeState): FoeState
    requires FoeValid(s)
  {
    Flushed(s, s.bufPosition, s.bufPosition)
  }

  /** Data accepted in order; packets of full size are followed by another one. */
  function DataTaken(s: FoeState, data: seq<byte>, fullSize: nat, fails: nat -> bool): FoeState
    requires FoeValid(s)
  {
    var (t, n) := FileWritten(s, data, fails);
    if n == 0 then FoeAborted(t, FOE_ERR_PROGERROR)
    else if |data| == fullSize then
      var t1 := if n != |data| then FoeAborted(t, FOE_ERR_PROGERROR) else t;
      if FreeBuffer(t1.mbx) == 0 then FoeAborted(t1, FOE_ERR_PROGERROR) else Acked(t1)
    else if n != |data| then FoeAborted(t, FOE_ERR_PROGERROR)
    else
      var t1 := FileClosed(t);
      if fails(|t.flushes|) then FoeAborted(t1, FOE_ERR_PROGERROR) else Initial(Acked(t1))
  }

  /** A data packet (FOE_data). */
  function DataReceived(s: FoeState, f: Frame, fullSize: nat, fails: nat -> bool): FoeState
    requires FoeValid(s) && IsFoe(f)
  {
    var data := Payload(f);
    if s.state != FOE_WAIT_FOR_DATA then FoeAborted(s, FOE_ERR_ILLEGAL)
    else if Number(f) != s.packet then FoeAborted(s, FOE_ERR_PACKETNO)
    else if data == [] then Initial(Acked(FileClosed(s)))
    else if (s.position + |data|) % 0x1_0000_0000 > s.end then FoeAborted(s, FOE_ERR_DISKFULL)
    else DataTaken(s, data, fullSize, fails)
  }

  class FoeWriter {
    const mbx: Mailboxes
    const files: seq<FileConfig>
    const fails: nat -> bool
    const fbuffer: array<byte>
    var foestate: nat
    var foepacket: uint32
    var fposition: nat
    var fprevposition: nat
    var fend: nat
    var fbufposition: nat
    var file: nat
    var addressOffset: nat
    var totalSize: nat
    var flushes: seq<Flush>

    ghost function View(): FoeState
      reads this, mbx, mbx.control, mbx.buf, fbuffer
    {
      FoeState(mbx.View(), foestate, foepacket, fposition, fprevposition, fend, fbufposition, fbuffer[..], file,
               addressOffset, totalSize, flushes)
    }

    constructor (mbx: Mailboxes, files: seq<FileConfig>, fails: nat -> bool, bufferSize: nat)
      requires mbx.Valid() && 0 < bufferSize < 0x1_0000
      ensures this.mbx == mbx && this.files == files && fresh(fbuffer) && FoeValid(View())
      ensures View() == Initial(View()) && flushes == []
    {
      this.mbx, this.files, this.fails := mbx, files, fails;
      fbuffer := new byte[bufferSize](_ => 0);
      foestate, foepacket, fposition, fprevposition, fend, fbufposition := FOE_READY, 0, 0, 0, 0, 0;
      file, addressOffset, totalSize, flushes := 0, 0, 0, [];
    }

    method Init()
      modifies this`foestate, this`foepacket, this`fposition, this`fprevposition, this`fbufposition
      ensures View() == Initial(old(View()))
    {
      foepacket, foestate, fposition, fprevposition, fbufposition := 0, FOE_READY, 0, 0, 0;
    }

    method Send(f: Frame)
      requires mbx.Valid()
      modifies mbx`cnt, mbx`txcue, mbx.control, mbx.buf
      ensures mbx.Valid() && View() == old(View()).(mbx := Sent(old(mbx.View()), f))
    {
      hide Highest;
      var n := mbx.ClaimBuffer();
      if n > 0 {
        mbx.Queue(n, f);
      }
    }

    method Abort(code: uint32)
      requires mbx.Valid()
      modifies this`foestate, this`foepacket, this`fposition, this`fprevposition, this`fbufposition
      modifies mbx`cnt, mbx`txcue, mbx.control, mbx.buf
      ensures mbx.Valid() && View() == FoeAborted(old(View()), code)
    {
      hide Sent, FoeFrame;
      if code != 0 {
        Send(FoeFrame(FOE_OP_ERR, code));
      }
      Init();
    }

    /** Returns 0, or an error number when there is no buffer. */
    method SendAck() returns (res: uint32)
      requires mbx.Valid()
      modifies this`foepacket, mbx`cnt, mbx`txcue, mbx.control, mbx.buf
      ensures mbx.Valid() && View() == Acked(old(View()))
      ensures res == if FreeBuffer(old(mbx.View())) == 0 then FOE_ERR_PROGERROR else 0
      ensures res != 0 ==> View() == old(View())
    {
      hide Highest, FoeFrame;
      var n := mbx.ClaimBuffer();
      if n == 0 {
        return FOE_ERR_PROGERROR;
      }
      mbx.Queue(n, FoeFrame(FOE_OP_ACK, foepacket));
      foepacket := (foepacket + 1) % 0x1_0000_0000;
      return 0;
    }

    method OpenFile(name: seq<byte>, password: uint32, boot: bool) returns (res: uint32)
      modifies this`file, this`addressOffset, this`totalSize, this`fposition, this`fend
      ensures var r := Open(files, name, password, boot, 0);
              match r
              case Refused(code) => res == code != 0 && View() == old(View())
              case Opened(i) => res == 0 && View() == old(View()).(file := i, offset := 0, total := 0, position := 0,
                                                                   end := files[i].maxData)
    {
      var i := 0;
      while i < |files|
        invariant i <= |files| && View() == old(View())
        invariant Open(files, name, password, boot, 0) == Open(files, name, password, boot, i)
      {
        if SameName(name, files[i].name, 0) {
          if password != files[i].password {
            return FOE_ERR_NORIGHTS;
          }
          if files[i].onlyInBoot && !boot {
            return FOE_ERR_NOTINBOOTSTRAP;
          }
          file, addressOffset, totalSize, fposition, fend := i, 0, 0, 0, files[i].maxData;
          return 0;
        }
        i := i + 1;
      }
      return FOE_ERR_NOTFOUND;
    }

    method WriteRequest(f: Frame, boot: bool)
      requires mbx.Valid() && IsFoe(f)
      modifies this, mbx`cnt, mbx`txcue, mbx.control, mbx.buf
      ensures mbx.Valid() && View() == WriteRequested(old(View()), files, boot, f)
    {
      hide FoeAborted, Acked, Open, RequestedName, Number;
      if foestate != FOE_READY {
        Abort(FOE_ERR_ILLEGAL);
        return;
      }
      Init();
      var res := OpenFile(RequestedName(f), Number(f), boot);
      if res != 0 {
        Abort(res);
        return;
      }
      res := SendAck();
      if res != 0 {
        Abort(res);
      } else {
        foestate := FOE_WAIT_FOR_DATA;
      }
    }

    /** One call of the write function; the buffer is empty afterwards. */
    method CallWrite(n: nat, step: nat) returns (failed: bool)
      requires n <= fbuffer.Length
      modifies this`flushes, this`addressOffset, this`fbufposition
      ensures View() == Flushed(old(View()), n, step) && failed == fails(old(|flushes|))
    {
      failed := fails(|flushes|);
      flushes := flushes + [Flush(file, addressOffset, fbuffer[..n])];
      fbufposition, addressOffset := 0, addressOffset + step;
    }

    method WriteByte(b: byte) returns (failed: bool)
      requires mbx.Valid() && FoeValid(View())
      modifies this`flushes, this`addressOffset, this`fbufposition, this`fposition, fbuffer
      ensures View() == PutByte(old(View()), b) && failed == old(PutFails(View(), fails))
    {
      fbuffer[fbufposition] := b;
      fbufposition := fbufposition + 1;
      failed := false;
      if fbufposition >= fbuffer.Length {
        failed := CallWrite(fbufposition, fbuffer.Length);
      }
      fposition := fposition + 1;
    }

    method FWrite(data: seq<byte>) returns (ncopied: nat)
      requires mbx.Valid() && FoeValid(View())
      modifies this, fbuffer
      ensures mbx.Valid() && FoeValid(View()) && (View(), ncopied) == FileWritten(old(View()), data, fails)
    {
      ncopied := 0;
      fprevposition := fposition;
      ghost var start := View();
      ghost var s := start;
      var i, failed := 0, false;
      while i < |data| && fend - fposition > 0 && !failed
        invariant i <= |data| && s == View() && FoeValid(s) && mbx.Valid()
        invariant !failed ==> ncopied == i && PutBytes(start, data, 0, fails) == PutBytes(s, data, i, fails)
        invariant failed ==> PutBytes(start, data, 0, fails) == (s, ncopied)
      {
        PutStep(s, data, i, fails);
        failed := WriteByte(data[i]);
        s := PutByte(s, data[i]);
        i := i + 1;
        if !failed {
          ncopied := ncopied + 1;
        }
      }
      totalSize := totalSize + ncopied;
    }

    method FClose() returns (failed: bool)
      requires mbx.Valid() && FoeValid(View())
      modifies this`flushes, this`addressOffset, this`fbufposition
      ensures View() == FileClosed(old(View())) && failed == fails(old(|flushes|))
    {
      failed := CallWrite(fbufposition, fbufposition);
    }

    /** The last packet: what is left in the buffer is written, and the transfer is over. */
    method Finish()
      requires mbx.Valid()
      modifies this, mbx`cnt, mbx`txcue, mbx.control, mbx.buf
      ensures mbx.Valid() && View() == Initial(Acked(old(View())))
    {
      hide Acked;
      var _ := SendAck();
      Init();
    }

    /** Data accepted in order: written to the file and acknowledged. */
    method TakeData(data: seq<byte>)
      requires mbx.Valid() && FoeValid(View()) && mbx.size > ESC_FOEHSIZE
      modifies this, fbuffer, mbx`cnt, mbx`txcue, mbx.control, mbx.buf
      ensures mbx.Valid() && View() == DataTaken(old(View()), data, mbx.size - ESC_FOEHSIZE, fails)
    {
      hide FoeAborted, Acked, FileWritten, FileClosed, FoeValid;
      var n := FWrite(data);
      if n == 0 {
        Abort(FOE_ERR_PROGERROR);
      } else if |data| == mbx.size - ESC_FOEHSIZE {
        if n != |data| {
          Abort(FOE_ERR_PROGERROR);
        }
        var res := SendAck();
        if res != 0 {
          Abort(res);
        }
      } else if n != |data| {
        Abort(FOE_ERR_PROGERROR);
      } else {
        var failed := FClose();
        if failed {
          Abort(FOE_ERR_PROGERROR);
        } else {
          Finish();
        }
      }
    }

    method DataPacket(f: Frame)
      requires mbx.Valid() && FoeValid(View()) && IsFoe(f) && mbx.size > ESC_FOEHSIZE
      modifies this, fbuffer, mbx`cnt, mbx`txcue, mbx.control, mbx.buf
      ensures mbx.Valid() && View() == DataReceived(old(View()), f, mbx.size - ESC_FOEHSIZE, fails)
    {
      hide FoeAborted, Acked, DataTaken, FileClosed, Number, Payload, Initial;
      var data := Payload(f);
      if foestate != FOE_WAIT_FOR_DATA {
        Abort(FOE_ERR_ILLEGAL);
      } else if Number(f) != foepacket {
        Abort(FOE_ERR_PACKETNO);
      } else if |data| == 0 {
        var _ := FClose();
        Finish();
      } else if (fposition + |data|) % 0x1_0000_0000 > fend {
        Abort(FOE_ERR_DISKFULL);
      } else {
        TakeData(data);
      }
    }
  }

  /** One byte of the data, seen from the result. */
  lemma PutStep(s: FoeState, data: seq<byte>, i: nat, fails: nat -> bool)
    requires FoeValid(s) && i < |data| && s.position < s.end
    ensures FoeValid(PutByte(s, data[i]))
    ensures PutBytes(s, data, i, fails) ==
            if PutFails(s, fails) then (PutByte(s, data[i]), i) else PutBytes(PutByte(s, data[i]), data, i + 1, fails)
  {
  }
}
