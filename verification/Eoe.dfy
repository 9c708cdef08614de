/**
 Ethernet over EtherCAT: cutting a frame into fragments that fit the mailbox,
 and putting received fragments together.

 Buffers come from and go to the network stack through callbacks: whether a
 receive buffer could be fetched, and the frame to be sent next, are inputs.
 */
module Eoe {
  import opened Words
  import opened Bytes
  import opened ObjectDictionary
  import opened Mailbox

  const MBXEOE: nat := 2
  const ESC_EOEHSIZE: nat := 4

  /** The largest frame the 6-bit size field can announce, in 32-byte blocks. */
  const MAX_FRAME: nat := 2016

  // The two header words

  function Info1(last: bool): uint16 { if last then 0x100 else 0 }

  function Info2(fragno: nat, offset: nat, frameno: nat): uint16 {
    fragno % 0x40 + offset % 0x40 * 0x40 + frameno % 0x10 * 0x1000
  }

  predicate IsFragment(f: Frame) { ESC_EOEHSIZE <= f.length <= |f.body| }

  function Word1(f: Frame): uint16 requires IsFragment(f) { Word(f.body[0], f.body[1]) }
  function Word2(f: Frame): uint16 requires IsFragment(f) { Word(f.body[2], f.body[3]) }
  function Port(f: Frame): nat requires IsFragment(f) { Word1(f) / 0x10 % 0x10 }
  predicate IsLast(f: Frame) requires IsFragment(f) { Word1(f) / 0x100 % 2 == 1 }
  predicate TimeAppended(f: Frame) requires IsFragment(f) { Word1(f) / 0x200 % 2 == 1 }
  function FragNo(f: Frame): nat requires IsFragment(f) { Word2(f) % 0x40 }
  function FrameOffset(f: Frame): nat requires IsFragment(f) { Word2(f) / 0x40 % 0x40 * 32 }
  function FrameNo(f: Frame): nat requires IsFragment(f) { Word2(f) / 0x1000 % 0x10 }
  function Data(f: Frame): seq<byte> requires IsFragment(f) { f.body[ESC_EOEHSIZE..f.length] }

  function FragmentFrame(last: bool, fragno: nat, offset: nat, frameno: nat, data: seq<byte>): Frame
    requires ESC_EOEHSIZE + |data| < 0x1_0000
  {
    Frame(ESC_EOEHSIZE + |data|, MBXEOE, 0, Le16(Info1(last)) + Le16(Info2(fragno, offset, frameno)) + data)
  }

  // Receiving

  datatype Delivery = Delivery(port: nat, bytes: seq<byte>)

  /** ready says that there is a buffer; delivered is everything handed to the network stack. */
  datatype Rx = Rx(fragmentno: nat, framesize: nat, offset: int, frameno: nat, ready: bool, buf: seq<byte>,
                   delivered: seq<Delivery>)

  predicate RxValid(r: Rx) {
    |r.buf| >= MAX_FRAME && r.framesize <= MAX_FRAME && 0 <= r.offset <= r.framesize && r.fragmentno <= 0x40
  }

  /** EOE_init_rx; supplied says whether a buffer can be fetched when there is none. */
  function RxReset(r: Rx, supplied: bool): Rx {
    r.(fragmentno := 0, framesize := 0, offset := 0, frameno := 0, ready := r.ready || supplied)
  }

  /** The first fragment announces the size of the frame. */
  function RxStart(r: Rx, f: Frame): Rx
    requires IsFragment(f)
  {
    r.(framesize := FrameOffset(f), offset := 0, frameno := FrameNo(f))
  }

  predicate Continues(r: Rx, f: Frame)
    requires IsFragment(f)
  {
    r.frameno == FrameNo(f) && r.offset == FrameOffset(f)
  }

  /** The data are put behind what is there, if the announced size allows; a last fragment completes the frame. */
  function RxStore(r: Rx, f: Frame, supplied: bool): Rx
    requires IsFragment(f) && RxValid(r)
  {
    var n := |Data(f)|;
    if r.offset + n > r.framesize then RxReset(r, supplied)
    else
      var r1 := r.(buf := Over(r.buf, r.offset, Data(f)), offset := r.offset + n, fragmentno := r.fragmentno + 1);
      if IsLast(f) then RxDeliver(r1, f, supplied) else r1
  }

  /** A time stamp of 4 bytes behind the data is cut off. */
  function RxDeliver(r: Rx, f: Frame, supplied: bool): Rx
    requires IsFragment(f) && 0 <= r.offset <= |r.buf|
  {
    var end := if TimeAppended(f) then r.offset - 4 else r.offset;
    var bytes := if end < 0 then [] else r.buf[..end];
    RxReset(r.(delivered := r.delivered + [Delivery(Port(f), bytes)], ready := false), supplied)
  }

  /** One call of EOE_receive_fragment. */
  function RxReceive(r: Rx, f: Frame, supplied: bool): Rx
    requires IsFragment(f) && RxValid(r)
  {
    var r0 := if r.fragmentno != FragNo(f) && r.fragmentno != 0 then RxReset(r, supplied) else r;
    if r.fragmentno != FragNo(f) && FragNo(f) > 0 then r0
    else if r0.fragmentno == 0 then
      if r0.ready then RxStore(RxStart(r0, f), f, supplied) else RxReset(r0, supplied)
    else if !Continues(r0, f) then RxReset(r0, supplied)
    else RxStore(r0, f, supplied)
  }

  // Sending

  datatype Tx = Tx(payload: Option<seq<byte>>, fragmentno: nat, framesize: nat, offset: nat, frameno: nat)

  predicate TxValid(t: Tx) {
    match t.payload
    case Some(p) => t.framesize == |p| && t.offset < |p|
    case None => t.fragmentno == 0 && t.offset == 0
  }

  /** Number of data bytes in the next fragment: all that is left, or as many 32-byte blocks as fit. */
  function SendLength(t: Tx, room: nat): nat
    requires t.offset <= t.framesize
  {
    if t.framesize - t.offset > room then room / 32 * 32 else t.framesize - t.offset
  }

  /** The next fragment of the frame being sent. */
  function TxFragment(t: Tx, room: nat): (Tx, Frame)
    requires TxValid(t) && t.payload.Some? && 32 <= room < 0x1_0000 - ESC_EOEHSIZE
  {
    var n := SendLength(t, room);
    var data := t.payload.value[t.offset..t.offset + n];
    var last := n == t.framesize - t.offset;
    var frameno := if t.fragmentno > 0 then t.frameno else (t.frameno + 1) % 0x100;
    var f := FragmentFrame(last, t.fragmentno, if t.fragmentno > 0 then t.offset / 32 else (t.framesize + 31) / 32,
                           frameno, data);
    (if last then Tx(None, 0, 0, 0, frameno)
     else t.(offset := t.offset + n, fragmentno := (t.fragmentno + 1) % 0x100, frameno := frameno), f)
  }

  /** A new frame is fetched when there is none. */
  function TxFetched(t: Tx, next: Option<seq<byte>>): Tx {
    if t.payload.None? && next.Some? && |next.value| > 0 then t.(payload := next, framesize := |next.value|) else t
  }

  class EoeLink {
    const mbx: Mailboxes
    const rxbuf: array<byte>
    var rxready: bool
    var rxfragmentno: nat
    var rxframesize: nat
    var rxframeoffset: int
    var rxframeno: nat
    ghost var delivered: seq<Delivery>

    var txpayload: Option<seq<byte>>
    var txfragmentno: nat
    var txframesize: nat
    var txframeoffset: nat
    var frameno: nat

    ghost function RxView(): Rx
      reads this, rxbuf
    {
      Rx(rxfragmentno, rxframesize, rxframeoffset, rxframeno, rxready, rxbuf[..], delivered)
    }

    function TxView(): Tx
      reads this
    {
      Tx(txpayload, txfragmentno, txframesize, txframeoffset, frameno)
    }

    constructor (mbx: Mailboxes, supplied: bool)
      ensures this.mbx == mbx && fresh(rxbuf)
      ensures RxValid(RxView()) && TxValid(TxView())
      ensures rxready == supplied && delivered == []
    {
      this.mbx := mbx;
      rxbuf := new byte[MAX_FRAME](_ => 0);
      rxready, rxfragmentno, rxframesize, rxframeoffset, rxframeno, delivered := supplied, 0, 0, 0, 0, [];
      txpayload, txfragmentno, txframesize, txframeoffset, frameno := None, 0, 0, 0, 0;
    }

    method InitRx(supplied: bool)
      modifies this`rxfragmentno, this`rxframesize, this`rxframeoffset, this`rxframeno, this`rxready
      ensures RxView() == RxReset(old(RxView()), supplied)
    {
      rxfragmentno, rxframesize, rxframeoffset, rxframeno := 0, 0, 0, 0;
      if !rxready {
        rxready := supplied;
      }
    }

    method StoreFragment(f: Frame, supplied: bool)
      requires IsFragment(f) && RxValid(RxView())
      modifies this`rxfragmentno, this`rxframesize, this`rxframeoffset, this`rxframeno, this`rxready, this`delivered, rxbuf
      ensures RxView() == RxStore(old(RxView()), f, supplied)
    {
      var data := Data(f);
      if rxframeoffset + |data| > rxframesize {
        InitRx(supplied);
        return;
      }
      CopyInto(rxbuf, rxframeoffset, data);
      rxframeoffset := rxframeoffset + |data|;
      rxfragmentno := rxfragmentno + 1;
      if IsLast(f) {
        if TimeAppended(f) {
          rxframeoffset := rxframeoffset - 4;
        }
        delivered := delivered + [Delivery(Port(f), if rxframeoffset < 0 then [] else rxbuf[..rxframeoffset])];
        rxready := false;
        InitRx(supplied);
      }
    }

    method ReceiveFragment(f: Frame, supplied: bool)
      requires IsFragment(f) && RxValid(RxView())
      modifies this`rxfragmentno, this`rxframesize, this`rxframeoffset, this`rxframeno, this`rxready, this`delivered, rxbuf
      ensures RxView() == RxReceive(old(RxView()), f, supplied)
    {
      hide RxStore;
      if rxfragmentno != FragNo(f) {
        if rxfragmentno != 0 {
          InitRx(supplied);
        }
        if FragNo(f) > 0 {
          return;
        }
      }
      if rxfragmentno == 0 {
        rxframesize := FrameOffset(f);
        if !rxready {
          InitRx(supplied);
          return;
        }
        rxframeoffset, rxframeno := 0, FrameNo(f);
      } else if rxframeno != FrameNo(f) || rxframeoffset != FrameOffset(f) {
        InitRx(supplied);
        return;
      }
      StoreFragment(f, supplied);
    }

    /** The next fragment is cut off the frame being sent. */
    method CutFragment(room: nat) returns (f: Frame)
      requires TxValid(TxView()) && txpayload.Some? && 32 <= room < 0x1_0000 - ESC_EOEHSIZE
      modifies this`txpayload, this`txfragmentno, this`txframesize, this`txframeoffset, this`frameno
      ensures TxValid(TxView())
      ensures (TxView(), f) == TxFragment(old(TxView()), room)
    {
      hide FragmentFrame;
      var len := txframesize - txframeoffset;
      if len > room {
        len := room / 32 * 32;
      }
      var offset := txframeoffset / 32;
      if txfragmentno == 0 {
        offset := (txframesize + 31) / 32;
        frameno := (frameno + 1) % 0x100;
      }
      var last := len == txframesize - txframeoffset;
      f := FragmentFrame(last, txfragmentno, offset, frameno, txpayload.value[txframeoffset..txframeoffset + len]);
      if last {
        txpayload, txfragmentno, txframesize, txframeoffset := None, 0, 0, 0;
      } else {
        txframeoffset, txfragmentno := txframeoffset + len, (txfragmentno + 1) % 0x100;
      }
    }

    method SendFragment(next: Option<seq<byte>>)
      requires mbx.Valid() && TxValid(TxView()) && ESC_EOEHSIZE + 32 <= mbx.size < 0x1_0000
      modifies this`txpayload, this`txfragmentno, this`txframesize, this`txframeoffset, this`frameno
      modifies mbx`cnt, mbx`txcue, mbx.control, mbx.buf
      ensures mbx.Valid() && TxValid(TxView())
      ensures var t := TxFetched(old(TxView()), next);
              if t.payload.None? || FreeBuffer(old(mbx.View())) == 0 then TxView() == t && mbx.View() == old(mbx.View())
              else
                var (t', f) := TxFragment(t, mbx.size - ESC_EOEHSIZE);
                TxView() == t' && mbx.View() == Sent(old(mbx.View()), f)
    {
      if txpayload.None? {
        if next.None? || |next.value| == 0 {
          return;
        }
        txpayload, txframesize := next, |next.value|;
      }
      hide Highest, TxFragment;
      var n := mbx.ClaimBuffer();
      if n > 0 {
        var f := CutFragment(mbx.size - ESC_EOEHSIZE);
        mbx.Queue(n, f);
      }
    }
  }
}
