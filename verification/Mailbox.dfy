/**
 The mailbox buffers of the slave: which buffer is free, claimed, queued,
 posted or kept as backup, and what ESC_mbxprocess does with them.

 Buffer 0 receives; buffers 1 and up send. Register contents are inputs.
 */
module Mailbox {
  import opened Words

  datatype BufferState = Idle | Inclaim | Outclaim | Outreq | Outpost | Backup | Again

  /** Header and data of one message; channel, priority and address are always zero here. */
  datatype Frame = Frame(length: uint16, mtype: nat, cnt: nat, body: seq<byte>)

  const MBXERR: nat := 0
  const MBXERR_UNSUPPORTEDPROTOCOL: uint16 := 2
  const MBXERR_INVALIDHEADER: uint16 := 5
  const MBXERR_INVALIDSIZE: uint16 := 8

  /** The mailbox part of the slave's variables; wire is everything written to the outgoing mailbox. */
  datatype Mbx = Mbx(
    run: bool, control: seq<BufferState>, buf: seq<Frame>,
    outpost: nat, backup: nat, xoe: nat, txcue: nat, cnt: nat, incnt: nat,
    free: bool, toggle: bool, repeat: bool, full0: bool, full1: bool,
    wire: seq<Frame>)

  /** What the registers show during one call of ESC_mbxprocess, and the message waiting in the incoming mailbox. */
  datatype Input = Input(event0: bool, event1: bool, full0: bool, full1: bool, fullAfterPost: bool, message: Frame)

  // Specification

  /** The highest buffer above 0, up to n, in state s; 0 if there is none. */
  function Highest(c: seq<BufferState>, s: BufferState, n: nat): (r: nat)
    requires n < |c|
    ensures r <= n
    ensures r > 0 ==> c[r] == s
    ensures forall k | r < k <= n :: c[k] != s
  {
    if n == 0 || c[n] == s then n else Highest(c, s, n - 1)
  }

  predicate Shaped(m: Mbx) {
    1 <= |m.control| == |m.buf| <= 256 && m.outpost < |m.control| && m.backup < |m.control|
  }

  /** r is shaped like m: same number of buffers, positions in range. */
  predicate LikeShaped(r: Mbx, m: Mbx) {
    Shaped(r) && |r.control| == |m.control|
  }

  function FreeBuffer(m: Mbx): (n: nat)
    requires Shaped(m)
    ensures n < |m.control|
  {
    Highest(m.control, Idle, |m.control| - 1)
  }

  /** Message counters run 1 to 7. */
  function NextCnt(cnt: nat): nat {
    if (cnt + 1) % 8 == 0 then 1 else (cnt + 1) % 8
  }

  function Claimed(m: Mbx): (r: Mbx)
    requires Shaped(m)
    ensures LikeShaped(r, m)
  {
    var n := FreeBuffer(m);
    if n == 0 then m
    else
      var c := NextCnt(m.cnt);
      m.(control := m.control[n := Outclaim], buf := m.buf[n := m.buf[n].(cnt := c)], cnt := c, txcue := m.txcue + 1)
  }

  /** The claimed buffer is filled and queued; its counter stays. */
  function Queued(m: Mbx, n: nat, f: Frame): (r: Mbx)
    requires Shaped(m) && n < |m.control|
    ensures LikeShaped(r, m)
  {
    m.(control := m.control[n := Outreq], buf := m.buf[n := f.(cnt := m.buf[n].cnt)])
  }

  /** Claiming a buffer and sending f in it; nothing happens if no buffer is free. */
  function Sent(m: Mbx, f: Frame): (r: Mbx)
    requires Shaped(m)
    ensures LikeShaped(r, m)
  {
    var n := FreeBuffer(m);
    if n == 0 then m else Queued(Claimed(m), n, f)
  }

  function ErrorFrame(error: uint16): Frame {
    Frame(4, MBXERR, 0, [1, 0, error % 256, error / 256])
  }

  function Written(m: Mbx, n: nat): (r: Mbx)
    requires Shaped(m) && n < |m.control|
    ensures LikeShaped(r, m)
  {
    m.(free := false, wire := m.wire + [m.buf[n]])
  }

  function InboxDropped(m: Mbx): (r: Mbx)
    requires Shaped(m)
    ensures LikeShaped(r, m)
  {
    m.(control := m.control[0 := Idle])
  }

  /** Data bytes moved for a message: no more than the mailbox holds. */
  function Clipped(length: nat, size: nat): nat {
    if length > size then size else length
  }

  /** A buffer after a message was read into it: behind the message's data it keeps what it held. */
  function ReadOver(before: Frame, f: Frame, size: nat): (r: Frame)
    ensures r == f.(body := r.body)
  {
    var n := Clipped(f.length, size);
    if n <= |f.body| && n <= |before.body| then f.(body := f.body[..n] + before.body[n..]) else f
  }

  function Filled(m: Mbx, f: Frame, size: nat): (r: Mbx)
    requires Shaped(m)
    ensures LikeShaped(r, m)
  {
    m.(buf := m.buf[0 := ReadOver(m.buf[0], f, size)], control := m.control[0 := Inclaim])
  }

  /** A bad header is answered with an error, and the message is dropped. */
  function HeaderChecked(m: Mbx, size: nat): (r: Mbx)
    requires Shaped(m)
    ensures LikeShaped(r, m)
  {
    var f := m.buf[0];
    if f.length == 0 || f.length > size then InboxDropped(Sent(m, ErrorFrame(MBXERR_INVALIDHEADER))) else m
  }

  /** A message with the counter of the one before it is dropped. */
  function CounterChecked(m: Mbx, cnt: nat): (r: Mbx)
    requires Shaped(m)
    ensures LikeShaped(r, m)
  {
    (if cnt != 0 && cnt == m.incnt then InboxDropped(m) else m).(incnt := cnt)
  }

  function Received(m: Mbx, f: Frame, size: nat): (r: Mbx)
    requires Shaped(m)
    ensures LikeShaped(r, m)
  {
    CounterChecked(HeaderChecked(Filled(m, f, size).(full0 := false), size), f.cnt)
  }

  /** The master has fetched the posted message: it becomes the backup. */
  function Acknowledged(m: Mbx): (r: Mbx)
    requires Shaped(m)
    ensures LikeShaped(r, m)
  {
    var m1 := m.(free := true);
    var m2 := if m.backup == 0 then m1 else m1.(control := m1.control[m.backup := Idle]);
    var m3 := if m2.control[m.outpost] == Again then Written(m2, m.outpost) else m2;
    m3.(control := m3.control[m.outpost := Backup], backup := m.outpost, outpost := 0)
  }

  /** The master asks for the last message again. */
  function Repeated(m: Mbx): (r: Mbx)
    requires Shaped(m)
    ensures LikeShaped(r, m)
  {
    if m.outpost == 0 && m.backup == 0 then m
    else
      var m1 := if m.outpost == 0 then m else m.(control := m.control[m.outpost := Again]);
      Written(m1, m.backup).(toggle := m.repeat)
  }

  /** The buffer that is posted next: the highest queued one, if the outgoing mailbox is free; else 0. */
  function NextToPost(m: Mbx): (n: nat)
    requires Shaped(m)
    ensures n < |m.control| && (n > 0 ==> m.control[n] == Outreq)
  {
    if m.txcue > 0 && (m.free || !m.full1) then Highest(m.control, Outreq, |m.control| - 1) else 0
  }

  function Posted(m: Mbx, fullAfterPost: bool): (r: Mbx)
    requires Shaped(m)
    ensures LikeShaped(r, m)
  {
    var n := NextToPost(m);
    if n == 0 then m
    else Written(m, n).(full1 := fullAfterPost, control := m.control[n := Outpost], outpost := n, txcue := m.txcue - 1)
  }

  function Refreshed(m: Mbx, i: Input): (r: Mbx)
    requires Shaped(m)
    ensures LikeShaped(r, m)
  {
    if i.event0 || i.event1 then m.(full0 := i.full0, full1 := i.full1) else m
  }

  /** One call of ESC_mbxprocess. */
  function Processed(m: Mbx, i: Input, size: nat): (r: Mbx)
    requires Shaped(m)
    ensures LikeShaped(r, m)
  {
    var r := Refreshed(m, i);
    if !m.run then m
    else if m.outpost != 0 && i.event1 then Acknowledged(r)
    else if m.repeat != m.toggle then Repeated(r)
    else
      var p := Posted(r, i.fullAfterPost);
      if Receives(p) then Received(p, i.message, size) else p
  }

  predicate Receives(p: Mbx)
    requires Shaped(p)
  {
    p.full0 && p.control[0] == Idle && p.outpost == 0 && p.xoe == 0
  }

  /** The value ESC_mbxprocess returns. */
  predicate HasWork(m: Mbx, i: Input)
    requires Shaped(m)
  {
    var r := Refreshed(m, i);
    m.run &&
    if m.outpost != 0 && i.event1 then m.xoe > 0
    else m.repeat == m.toggle && Receives(Posted(r, i.fullAfterPost))
  }

  function Stopped(m: Mbx): (r: Mbx)
    requires Shaped(m)
    ensures LikeShaped(r, m)
  {
    m.(run := false, control := seq(|m.control|, _ => Idle), outpost := 0, backup := 0, xoe := 0, free := true,
       toggle := false, incnt := 0, txcue := 0)
  }

  function Started(m: Mbx): (r: Mbx)
    requires Shaped(m)
    ensures LikeShaped(r, m)
  {
    m.(toggle := m.repeat, run := true)
  }

  /** A full read of the SyncManager 0 and 1 registers. */
  function Loaded(m: Mbx, full0: bool, full1: bool, repeat: bool): (r: Mbx)
    requires Shaped(m)
    ensures LikeShaped(r, m)
  {
    m.(full0 := full0, full1 := full1, repeat := repeat)
  }

  /** A message no protocol has taken is answered with an error and dropped (ESC_xoeprocess). */
  function Rejected(m: Mbx): (r: Mbx)
    requires Shaped(m)
    ensures LikeShaped(r, m)
  {
    if m.run && m.xoe == 0 && m.control[0] == Inclaim then
      var f := m.buf[0];
      InboxDropped(Sent(m, ErrorFrame(if f.mtype == 0 || f.length == 0 then MBXERR_INVALIDHEADER
                                      else MBXERR_UNSUPPORTEDPROTOCOL)))
    else m
  }

  // The buffers themselves

  class Mailboxes {
    const size: nat            // data bytes of a mailbox
    const control: array<BufferState>
    const buf: array<Frame>
    var run: bool
    var outpost: nat
    var backup: nat
    var xoe: nat
    var txcue: nat
    var cnt: nat
    var incnt: nat
    var free: bool
    var toggle: bool
    var repeat: bool
    var full0: bool
    var full1: bool
    ghost var wire: seq<Frame>
    ghost var lengths: seq<nat>   // data bytes written for each message on the wire

    ghost predicate Valid()
      reads this, control, buf
    {
      && 1 <= control.Length == buf.Length <= 256
      && outpost < control.Length && backup < control.Length
    }

    ghost function View(): Mbx
      reads this, control, buf
    {
      Mbx(run, control[..], buf[..], outpost, backup, xoe, txcue, cnt, incnt, free, toggle, repeat, full0, full1, wire)
    }

    constructor (buffers: nat, size: nat, blank: Frame)
      requires 1 <= buffers <= 256
      ensures Valid() && fresh(control) && fresh(buf)
      ensures this.size == size && control.Length == buffers
      ensures View() == Stopped(View()).(cnt := 0, repeat := false, full0 := false, full1 := false, wire := [])
    {
      this.size := size;
      control := new BufferState[buffers](_ => Idle);
      buf := new Frame[buffers](_ => blank);
      run, outpost, backup, xoe, txcue, cnt, incnt := false, 0, 0, 0, 0, 0, 0;
      free, toggle, repeat, full0, full1 := true, false, false, false, false;
      wire, lengths := [], [];
    }

    method ClaimBuffer() returns (n: nat)
      requires Valid()
      modifies this`cnt, this`txcue, control, buf
      ensures Valid()
      ensures n == old(FreeBuffer(View()))
      ensures View() == Claimed(old(View()))
    {
      n := control.Length - 1;
      while n > 0 && control[n] != Idle
        invariant n < control.Length
        invariant Highest(control[..], Idle, control.Length - 1) == Highest(control[..], Idle, n)
      {
        n := n - 1;
      }
      if n > 0 {
        control[n] := Outclaim;
        cnt := (cnt + 1) % 8;
        if cnt == 0 {
          cnt := 1;
        }
        buf[n] := buf[n].(cnt := cnt);
        txcue := txcue + 1;
      }
    }

    method OutreqBuffer() returns (n: nat)
      requires Valid()
      ensures n == Highest(control[..], Outreq, control.Length - 1)
    {
      n := control.Length - 1;
      while n > 0 && control[n] != Outreq
        invariant n < control.Length
        invariant Highest(control[..], Outreq, control.Length - 1) == Highest(control[..], Outreq, n)
      {
        n := n - 1;
      }
    }

    method Queue(n: nat, f: Frame)
      requires Valid() && n < control.Length
      modifies control, buf
      ensures Valid()
      ensures View() == Queued(old(View()), n, f)
    {
      buf[n] := f.(cnt := buf[n].cnt);
      control[n] := Outreq;
    }

    method MbxError(error: uint16)
      requires Valid()
      modifies this`cnt, this`txcue, control, buf
      ensures Valid()
      ensures View() == Sent(old(View()), ErrorFrame(error))
      ensures buf[0] == old(buf[0])
    {
      var n := ClaimBuffer();
      if n > 0 {
        Queue(n, ErrorFrame(error));
      }
    }

    method WriteMbx(n: nat)
      requires Valid() && n < buf.Length
      modifies this`free, this`wire, this`lengths
      ensures Valid()
      ensures View() == Written(old(View()), n)
      ensures lengths == old(lengths) + [if buf[n].length > size then size else buf[n].length]
    {
      wire := wire + [buf[n]];
      var length := buf[n].length;
      if length > size {
        length := size;
      }
      lengths := lengths + [length];
      free := false;
    }

    method ReadMbx(message: Frame)
      requires Valid()
      modifies control, buf
      ensures Valid() && buf[0] == ReadOver(old(buf[0]), message, size)
      ensures View() == Filled(old(View()), message, size)
    {
      var length := message.length;
      if length > size {
        length := size;
      }
      buf[0] := if length <= |message.body| && length <= |buf[0].body|
                then message.(body := message.body[..length] + buf[0].body[length..]) else message;
      control[0] := Inclaim;
    }

    method CheckHeader()
      requires Valid()
      modifies control, buf, this`cnt, this`txcue
      ensures Valid() && buf[0] == old(buf[0])
      ensures View() == HeaderChecked(old(View()), size)
    {
      hide Sent;
      if buf[0].length == 0 || buf[0].length > size {
        MbxError(MBXERR_INVALIDHEADER);
        control[0] := Idle;
      }
    }

    method TakeMessage(message: Frame)
      requires Valid()
      modifies control, buf, this`full0, this`incnt, this`cnt, this`txcue
      ensures Valid()
      ensures View() == Received(old(View()), message, size)
    {
      hide Filled, HeaderChecked, ReadOver;
      ReadMbx(message);
      full0 := false;
      CheckHeader();
      if buf[0].cnt != 0 && buf[0].cnt == incnt {
        control[0] := Idle;
      }
      incnt := buf[0].cnt;
    }

    method MessageFetched()
      requires Valid()
      modifies this, control
      ensures Valid()
      ensures View() == Acknowledged(old(View())) && xoe == old(xoe)
    {
      free := true;
      if backup != 0 {
        control[backup] := Idle;
      }
      if control[outpost] == Again {
        WriteMbx(outpost);
      }
      control[outpost] := Backup;
      backup := outpost;
      outpost := 0;
    }

    method RepeatRequest()
      requires Valid()
      modifies this, control
      ensures Valid()
      ensures View() == Repeated(old(View()))
    {
      if outpost != 0 || backup != 0 {
        if outpost == 0 {
          WriteMbx(backup);
        } else {
          control[outpost] := Again;
          WriteMbx(backup);
        }
        toggle := repeat;
      }
    }

    method PostNext(fullAfterPost: bool)
      requires Valid()
      modifies this, control
      ensures Valid()
      ensures View() == Posted(old(View()), fullAfterPost)
    {
      hide Highest, Written;
      if txcue > 0 && (free || !full1) {
        var n := OutreqBuffer();
        if n > 0 {
          WriteMbx(n);
          MarkPosted(n, fullAfterPost);
        }
      }
    }

    method MarkPosted(n: nat, fullAfterPost: bool)
      requires Valid() && n < control.Length && txcue > 0
      modifies this`full1, this`outpost, this`txcue, control
      ensures Valid()
      ensures View() == old(View()).(full1 := fullAfterPost, control := old(control[..])[n := Outpost], outpost := n,
                                     txcue := old(txcue) - 1)
    {
      full1 := fullAfterPost;
      control[n] := Outpost;
      outpost := n;
      if txcue > 0 {
        txcue := txcue - 1;
      }
    }

    method Refresh(i: Input)
      requires Valid()
      modifies this`full0, this`full1
      ensures Valid()
      ensures View() == Refreshed(old(View()), i)
    {
      if i.event0 || i.event1 {
        full0, full1 := i.full0, i.full1;
      }
    }

    method MbxProcess(i: Input) returns (handled: bool)
      requires Valid()
      modifies this, control, buf
      ensures Valid()
      ensures View() == Processed(old(View()), i, size)
      ensures handled == old(HasWork(View(), i))
    {
      hide Acknowledged, Repeated, Posted, Received;
      if !run {
        return false;
      }
      Refresh(i);
      if outpost != 0 && i.event1 {
        MessageFetched();
        assert xoe == old(xoe);
        return xoe > 0;
      }
      if repeat != toggle {
        RepeatRequest();
        return false;
      }
      PostNext(i.fullAfterPost);
      if full0 && control[0] == Idle && outpost == 0 && xoe == 0 {
        TakeMessage(i.message);
        return true;
      }
      return false;
    }

    method XoeProcess()
      requires Valid()
      modifies this`cnt, this`txcue, control, buf
      ensures Valid()
      ensures View() == Rejected(old(View()))
    {
      if run && xoe == 0 && control[0] == Inclaim {
        if buf[0].mtype == 0 || buf[0].length == 0 {
          MbxError(MBXERR_INVALIDHEADER);
        } else {
          MbxError(MBXERR_UNSUPPORTEDPROTOCOL);
        }
        control[0] := Idle;
      }
    }

    method ReleaseAll()
      requires Valid()
      modifies control, this`outpost, this`backup, this`txcue
      ensures Valid()
      ensures View() == old(View()).(control := seq(control.Length, _ => Idle), outpost := 0, backup := 0, txcue := 0)
    {
      for n := 0 to control.Length
        modifies control
        invariant forall k | 0 <= k < n :: control[k] == Idle
      {
        control[n] := Idle;
      }
      outpost, backup, txcue := 0, 0, 0;
    }

    method StopMbx()
      requires Valid()
      modifies this, control
      ensures Valid()
      ensures View() == Stopped(old(View()))
    {
      run := false;
      ReleaseAll();
      xoe, free, toggle, incnt := 0, true, false, 0;
    }

    method StartMbx()
      requires Valid()
      modifies this`toggle, this`run
      ensures Valid()
      ensures View() == Started(old(View()))
    {
      toggle, run := repeat, true;
    }

    method LoadRegisters(full0: bool, full1: bool, repeat: bool)
      requires Valid()
      modifies this`full0, this`full1, this`repeat
      ensures Valid()
      ensures View() == Loaded(old(View()), full0, full1, repeat)
    {
      this.full0, this.full1, this.repeat := full0, full1, repeat;
    }
  }
}
