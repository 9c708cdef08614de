/** The CoE server: the mailboxes, the object dictionary and the transfer in progress. */
module CoeServer {
  import opened Words
  import opened Bytes
  import opened ObjectDictionary
  import opened Mailbox
  import opened SdoTransfer
  import opened CompleteAccess
  import opened ObjectList
  import opened CoeHandlers

  class CoeServer {
    const dict: Dictionary
    const mem: Memory
    const mbx: Mailboxes
    const block: array<byte>
    var frags: nat
    var fragsleft: nat
    var segmented: nat
    var data: Pointer
    var index: uint16
    var subindex: byte
    var flags: nat
    var entries: nat

    ghost predicate Valid()
      reads this, mbx, mbx.control, mbx.buf
    {
      mbx.Valid()
    }

    function Sess(): Session
      reads this
    {
      Session(frags, fragsleft, segmented, data, index, subindex, flags)
    }

    ghost function View(): (s: Server)
      requires Valid()
      reads this, mem, mbx, mbx.control, mbx.buf, block
      ensures Shaped(s.mbx)
    {
      Server(mbx.View(), mem.cells, block[..], Sess(), entries)
    }

    constructor (dict: Dictionary, mem: Memory, mbx: Mailboxes, blockSize: nat)
      requires mbx.Valid()
      ensures Valid() && this.dict == dict && this.mem == mem && this.mbx == mbx
      ensures block.Length == blockSize && segmented == 0 && fresh(block)
    {
      this.dict, this.mem, this.mbx := dict, mem, mbx;
      block := new byte[blockSize](_ => 0);
      frags, fragsleft, segmented, data, index, subindex, flags, entries := 0, 0, 0, Scratch(0), 0, 0, 0, 0;
    }

    method SetSession(s: Session)
      modifies this`frags, this`fragsleft, this`segmented, this`data, this`index, this`subindex, this`flags
      ensures Sess() == s
    {
      frags, fragsleft, segmented, data := s.frags, s.fragsleft, s.segmented, s.data;
      index, subindex, flags := s.index, s.subindex, s.flags;
    }

    method Reply(f: Frame)
      requires Valid()
      modifies mbx`cnt, mbx`txcue, mbx.control, mbx.buf
      ensures Valid() && mbx.buf[0] == old(mbx.buf[0])
      ensures View() == Replied(old(View()), f)
    {
      hide Highest;
      var n := mbx.ClaimBuffer();
      if n > 0 {
        mbx.Queue(n, f);
      }
    }

    method Release()
      requires Valid()
      modifies mbx`xoe, mbx.control
      ensures Valid()
      ensures View() == Released(old(View()))
    {
      mbx.control[0] := Idle;
      mbx.xoe := 0;
    }

    method Abort(code: uint32)
      requires Valid() && IsRequest(mbx.buf[0])
      modifies mbx`cnt, mbx`txcue, mbx.control, mbx.buf
      ensures Valid()
      ensures View() == Aborted(old(View()), code)
    {
      Reply(AbortFrame(IndexOf(mbx.buf[0]), SubindexOf(mbx.buf[0]), code));
    }

    method Find(index: uint16, subindex: byte) returns (f: Found)
      requires Serviceable(dict, mem.cells) && index != LIST_END
      ensures f == Lookup(dict, index, subindex)
      ensures f.Found? ==> f.o < |dict| - 1 && Loadable(dict[f.o], mem.cells)
                           && Backed(dict[f.o].entries[f.n], mem.cells) && CanFetch(dict[f.o].entries[0], mem.cells, 1)
    {
      var o := FindObject(dict, index);
      if o < 0 {
        return NoObject;
      }
      assert WellFormedObject(dict[o]);
      hide WellFormed, Serviceable, Loadable;
      var n := FindSubindex(dict[o], subindex);
      if n < 0 {
        return NoSubindex;
      }
      return Found(o, n);
    }

    method UploadEntry(e: Entry, state: nat)
      requires Valid() && IsRequest(mbx.buf[0]) && 11 <= mbx.size < 0x1_0000 && Backed(e, mem.cells)
      modifies this, mbx`cnt, mbx`txcue, mbx.control, mbx.buf
      ensures Valid()
      ensures View() == EntryUploaded(e, old(View()), state, mbx.size)
    {
      hide UploadReply, Highest;
      if !ReadAccess(e.flags, state) {
        Abort(ABORT_WRITEONLY);
        return;
      }
      var r := mbx.buf[0];
      var n := mbx.ClaimBuffer();
      if n > 0 {
        var (t, f) := UploadReply(IndexOf(r), SubindexOf(r), e, Content(e, mem.cells), Sess(), mbx.size);
        SetSession(t);
        mbx.Queue(n, f);
      }
    }

    method TryUpload(state: nat)
      requires Valid() && CanServe(dict, View(), mbx.size)
      modifies this, mbx, mbx.control, mbx.buf
      ensures Valid()
      ensures View() == old(UploadTried(dict, View(), state, mbx.size))
    {
      hide EntryUploaded, Aborted, Serviceable, Lookup;
      var f := Find(IndexOf(mbx.buf[0]), SubindexOf(mbx.buf[0]));
      match f
      case NoObject => Abort(ABORT_NOOBJECT);
      case NoSubindex => Abort(ABORT_NOSUBINDEX);
      case Found(o, n) => UploadEntry(dict[o].entries[n], state);
    }

    method Upload(state: nat)
      requires Valid() && CanServe(dict, View(), mbx.size)
      modifies this, mbx, mbx.control, mbx.buf
      ensures Valid()
      ensures View() == old(SdoUpload(dict, View(), state, mbx.size))
    {
      hide UploadTried, Released, CanServe;
      TryUpload(state);
      Release();
    }

    method UploadSegment()
      requires Valid() && IsRequest(mbx.buf[0]) && 11 <= mbx.size < 0x1_0000 && CanSend(View())
      modifies this, mbx, mbx.control, mbx.buf
      ensures Valid()
      ensures View() == old(SdoUploadSegment(View(), mbx.size))
    {
      assert PointsInto(data, mem.cells, block[..]) && Sending(Sess(), Source(data, mem.cells, block[..]));
      hide SegmentReply, Highest, CanSend, Sending, Source;
      var r := mbx.buf[0];
      var n := mbx.ClaimBuffer();
      if n > 0 {
        var (t, f) := SegmentReply(Command(r), Sess(), Source(data, mem.cells, block[..]), mbx.size);
        SetSession(t);
        mbx.Queue(n, f);
      }
      Release();
    }

    method Pad(e: Entry, size: nat)
      requires Backed(e, mem.cells) && e.data.Some? && size <= BitsToBytes(e.bitlength)
      modifies mem
      ensures mem.cells == Padded(e, size, old(mem.cells))
    {
      if size != BitsToBytes(e.bitlength) && e.dtype == DTYPE_VISIBLE_STRING {
        mem.Put(e.data.value, size, Zeros(BitsToBytes(e.bitlength) - size));
      }
    }

    /** A download that is allowed: the bytes are stored and the transfer is started or finished. */
    method AcceptDownload(e: Entry, r: Frame)
      requires Valid() && Backed(e, mem.cells) && e.data.Some? && DownloadInside(r)
      requires DownloadSize(r) <= BitsToBytes(e.bitlength)
      modifies this, mem, mbx`cnt, mbx`txcue, mbx.control, mbx.buf
      ensures Valid()
      ensures var s := old(View());
              var c := e.data.value;
              View() == Replied(s.(st := s.st[c := Over(s.st[c], 0, DownloadData(r))], sess := DownloadStarted(r, e, s.sess)),
                                DownloadResponse(IndexOf(r), SubindexOf(r), COE_COMMAND_DOWNLOADRESPONSE))
    {
      hide DownloadData, DownloadStarted, DownloadResponse, Sent;
      SetSession(DownloadStarted(r, e, Sess()));
      mem.Put(e.data.value, 0, DownloadData(r));
      Reply(DownloadResponse(IndexOf(r), SubindexOf(r), COE_COMMAND_DOWNLOADRESPONSE));
    }

    method DownloadEntry(o: Object, n: nat, state: nat)
      requires Valid() && Loadable(o, mem.cells) && n < |o.entries| && CanFetch(o.entries[0], mem.cells, 1)
      requires DownloadFits(o.entries[n], mbx.buf[0])
      modifies this, mem, mbx`cnt, mbx`txcue, mbx.control, mbx.buf
      ensures Valid()
      ensures View() == EntryDownloaded(o, n, old(View()), state)
    {
      var e := o.entries[n];
      var r := mbx.buf[0];
      if !WriteAccess(e.flags, state) {
        Abort(if e.flags % 0x40 == 0x07 then ABORT_READONLY else ABORT_NOTINTHISSTATE);
        return;
      }
      if !LengthAccepted(e, DownloadSize(r)) {
        Abort(ABORT_TYPEMISMATCH);
        return;
      }
      assert IsWritable(e) && Backed(e, mem.cells) && DownloadInside(r);
      hide Loadable, Aborted, Padded, MappingLocked, LengthAccepted, WriteAccess, DownloadSize, DownloadData, DownloadStarted,
        DownloadResponse, DownloadFits, DownloadInside;
      Pad(e, DownloadSize(r));
      if MappingLocked(o, SubindexOf(r), e.flags, mem.cells) {
        Abort(ABORT_SUBINDEX0_NOT_ZERO);
      } else {
        AcceptDownload(e, r);
      }
    }

    method TryDownload(state: nat)
      requires Valid() && CanDownload(dict, View(), mbx.size)
      modifies this, mem, mbx, mbx.control, mbx.buf
      ensures Valid()
      ensures View() == old(DownloadTried(dict, View(), state, mbx.size))
    {
      hide EntryDownloaded, Aborted, Serviceable, Lookup, DownloadFits, Loadable;
      var f := Find(IndexOf(mbx.buf[0]), SubindexOf(mbx.buf[0]));
      match f
      case NoObject => Abort(ABORT_NOOBJECT);
      case NoSubindex => Abort(ABORT_NOSUBINDEX);
      case Found(o, n) => DownloadEntry(dict[o], n, state);
    }

    method Download(state: nat)
      requires Valid() && CanDownload(dict, View(), mbx.size)
      modifies this, mem, mbx, mbx.control, mbx.buf
      ensures Valid()
      ensures View() == old(SdoDownload(dict, View(), state, mbx.size))
    {
      hide DownloadTried, Released, CanDownload;
      TryDownload(state);
      Release();
    }

    /** A transfer in progress ends when the mailboxes stop. */
    method ClearTransfer()
      modifies this`frags, this`fragsleft, this`segmented, this`index, this`subindex, this`flags
      ensures Sess() == Session(0, 0, 0, old(data), 0, 0, 0)
    {
      frags, fragsleft, segmented, index, subindex, flags := 0, 0, 0, 0, 0, 0;
    }

    // Segments of a download

    method StoreSegment(r: Frame)
      requires Valid() && r == mbx.buf[0] && CanTake(View())
      modifies mem, block
      ensures Valid()
      ensures View() == SegmentStored(old(View()))
    {
      hide SegmentData, SegmentInside;
      match data
      case Cell(c, at) => mem.Put(c, at, SegmentData(r));
      case Scratch(at) => CopyInto(block, at, SegmentData(r));
    }

    /** The entry's position is looked up again for the last segment of a complete access. */
    method RefuseSpread(r: Frame) returns (code: uint32)
      requires Valid() && r == mbx.buf[0] && SegmentInside(r) && WellFormed(dict) && index != LIST_END
      ensures code == SpreadRefused(dict, View())
    {
      if !LastSegment(Command(r)) || flags != COMPLETE_ACCESS_FLAG {
        return 0;
      }
      if frags > fragsleft + SegmentSize(r) {
        return ABORT_TYPEMISMATCH;
      }
      var o := FindObject(dict, index);
      if o < 0 {
        return ABORT_NOOBJECT;
      }
      var n := FindSubindex(dict[o], subindex);
      return if n < 0 then ABORT_NOOBJECT else 0;
    }

    method SpreadBlock(state: nat)
      requires Valid() && SegmentInside(mbx.buf[0]) && SpreadRefused(dict, View()) == 0 && CanSpread(dict, View())
      modifies mem, block
      ensures Valid()
      ensures View() == old(Spread(dict, View(), state))
    {
      hide LoopResult, CanLoad;
      var r := mbx.buf[0];
      if LastSegment(Command(r)) && flags == COMPLETE_ACCESS_FLAG {
        var f := Lookup(dict, index, subindex);
        DownloadKeepsBlock(dict[f.o], state, f.n, block[..], frags, Work(block[..], mem.cells));
        var _ := SubindexLoop(dict[f.o], f.n, Load.Download(block[..]), frags, state, mem, block);
      }
    }

    method TakeSegment(state: nat, n: nat)
      requires Valid() && CanSegment(dict, View())
      requires 0 < n < mbx.control.Length
      modifies this, mem, block, mbx`cnt, mbx`txcue, mbx.control, mbx.buf
      ensures Valid()
      ensures View() == old(SegmentAnswered(dict, View(), state, n))
    {
      var r := mbx.buf[0];
      assert SegmentInside(r) && CanTake(View()) && CanSpread(dict, SegmentStored(View()));
      hide SegmentStored, SpreadRefused, Spread, SegmentTaken, Aborted, CanTake, CanSpread;
      var i, sub := index, subindex;
      StoreSegment(r);
      var code := RefuseSpread(r);
      if code != 0 {
        Reply(AbortFrame(i, sub, code));
        return;
      }
      SpreadBlock(state);
      SetSession(SegmentTaken(r, Sess()));
      mbx.Queue(n, SegmentResponse(Command(r)));
    }

    method DownloadSegment(state: nat)
      requires Valid() && CanSegment(dict, View())
      modifies this, mem, block, mbx, mbx.control, mbx.buf
      ensures Valid()
      ensures View() == old(SdoDownloadSegment(dict, View(), state))
    {
      ClaimedCanSegment(dict, View());
      hide SegmentAnswered, Released, CanSegment, Highest, Claimed;
      var n := mbx.ClaimBuffer();
      if n > 0 {
        TakeSegment(state, n);
      }
      Release();
    }

    // Complete access

    method Measure(o: Object, nsub: nat, state: nat) returns (size: nat)
      requires Valid() && Loadable(o, mem.cells) && nsub < |o.entries|
      modifies mem, block
      ensures Valid() && View() == old(View())
      ensures size == LoopSize(o, nsub, 0)
    {
      LoopKeepsStore(o, state, nsub, Load.Measure, Work(block[..], mem.cells));
      hide LoopResult, LoopSize, Loadable;
      size := SubindexLoop(o, nsub, Load.Measure, 0, state, mem, block);
    }

    /** The object is copied into the block, and the block's first part is put into buffer n. */
    method SendBlock(o: Object, nsub: nat, n: nat, bits: nat, state: nat)
      requires Valid() && IsRequest(mbx.buf[0]) && 11 <= mbx.size < 0x1_0000 && 0 < n < mbx.control.Length
      requires CanLoad(o, nsub, Load.Upload, 0, Work(block[..], mem.cells))
      requires BitsToBytes(bits) <= block.Length && BitsToBytes(bits) < 0x1_0000
      modifies this, mem, block, mbx.control, mbx.buf
      ensures Valid()
      ensures View() == old(BlockSent(o, nsub, View(), n, bits, state, mbx.size))
    {
      LoopKeepsStore(o, state, nsub, Load.Upload, Work(block[..], mem.cells));
      hide LoopResult, LoopSize, CanLoad, BlockReply;
      var r := mbx.buf[0];
      var _ := SubindexLoop(o, nsub, Load.Upload, 0, state, mem, block);
      var (t, f) := BlockReply(IndexOf(r), SubindexOf(r), bits, block[..], Sess(), mbx.size);
      SetSession(t);
      mbx.Queue(n, f);
    }

    method UploadObject(o: Object, nsub: nat, state: nat)
      requires Valid() && IsRequest(mbx.buf[0]) && 11 <= mbx.size < 0x1_0000
      requires Loadable(o, mem.cells) && nsub < |o.entries|
      modifies this, mem, block, mbx`cnt, mbx`txcue, mbx.control, mbx.buf
      ensures Valid()
      ensures View() == old(ObjectUploaded(o, nsub, View(), state, mbx.size))
    {
      var r := mbx.buf[0];
      var n := mbx.ClaimBuffer();
      if n == 0 {
        return;
      }
      var bits := Measure(o, nsub, state);
      var bytes := BitsToBytes(bits);
      if bytes > 0xFFFF {
        mbx.Queue(n, AbortFrame(IndexOf(r), SubindexOf(r), bytes % 0x1_0000_0000));
      } else if bytes + PREALLOC_FACTOR * COE_HEADERSIZE > block.Length {
        mbx.Queue(n, AbortFrame(IndexOf(r), SubindexOf(r), ABORT_CA_NOT_SUPPORTED));
      } else {
        SendBlock(o, nsub, n, bits, state);
      }
    }

    method RefuseComplete(index: uint16, subindex: byte) returns (code: uint32, f: Found)
      requires Serviceable(dict, mem.cells) && index != LIST_END
      ensures code == CompleteRefused(dict, index, subindex)
      ensures code == 0 ==> f == Lookup(dict, index, subindex) && f.Found? && Loadable(dict[f.o], mem.cells)
    {
      hide Serviceable, Lookup, Loadable;
      if subindex > 1 {
        return ABORT_UNSUPPORTED, NoObject;
      }
      f := Find(index, subindex);
      code := if f.NoObject? then ABORT_NOOBJECT else if f.NoSubindex? then ABORT_NOSUBINDEX else 0;
    }

    method TryUploadAll(state: nat)
      requires Valid() && CanServe(dict, View(), mbx.size)
      modifies this, mem, block, mbx, mbx.control, mbx.buf
      ensures Valid()
      ensures View() == old(UploadAllTried(dict, View(), state, mbx.size))
    {
      hide ObjectUploaded, Aborted, Serviceable, CompleteRefused, Lookup, Loadable;
      var code, f := RefuseComplete(IndexOf(mbx.buf[0]), SubindexOf(mbx.buf[0]));
      if code != 0 {
        Abort(code);
      } else {
        UploadObject(dict[f.o], f.n, state);
      }
    }

    method UploadAll(state: nat)
      requires Valid() && CanServe(dict, View(), mbx.size)
      modifies this, mem, block, mbx, mbx.control, mbx.buf
      ensures Valid()
      ensures View() == old(SdoUploadComplete(dict, View(), state, mbx.size))
    {
      hide UploadAllTried, Released, CanServe;
      TryUploadAll(state);
      Release();
    }

    /** Data for more than one mailbox is collected in the block; otherwise it is spread over the entries at once. */
    method StoreObject(o: Object, nsub: nat, r: Frame, state: nat)
      requires Valid() && r == mbx.buf[0] && CanDownloadObject(o, nsub, View(), mbx.size)
      requires DownloadSize(r) <= ObjectBytes(o, nsub) <= 0xFFFF
      requires Collects(r, mbx.size) ==> !BlockTooBig(DownloadSize(r), View())
      modifies this, mem, block
      ensures Valid()
      ensures View() == old(ObjectStored(o, nsub, View(), state, mbx.size))
    {
      var body := r.body[DownloadAt(r)..];
      hide LoopResult, CanLoad, CollectStarted;
      if Collects(r, mbx.size) {
        SetSession(CollectStarted(r, Sess(), mbx.size));
        CopyInto(block, 0, body[..mbx.size - COE_HEADERSIZE]);
      } else {
        segmented := 0;
        DownloadKeepsBlock(o, state, nsub, body, DownloadSize(r), Work(block[..], mem.cells));
        var _ := SubindexLoop(o, nsub, Load.Download(body), DownloadSize(r), state, mem, block);
      }
    }

    method DownloadObject(o: Object, nsub: nat, state: nat)
      requires Valid() && CanDownloadObject(o, nsub, View(), mbx.size)
      modifies this, mem, block, mbx`cnt, mbx`txcue, mbx.control, mbx.buf
      ensures Valid()
      ensures View() == old(ObjectDownloaded(o, nsub, View(), state, mbx.size))
    {
      var r := mbx.buf[0];
      var bytes := DownloadSize(r);
      var bits := Measure(o, nsub, state);
      var size := BitsToBytes(bits);
      hide ObjectStored, Aborted, Sent, DownloadSize, LoopSize, CanDownloadObject, Collects;
      if size > 0xFFFF {
        Abort(size % 0x1_0000_0000);
      } else if bytes > size {
        Abort(ABORT_TYPEMISMATCH);
      } else if Collects(r, mbx.size) && bytes + PREALLOC_FACTOR * COE_HEADERSIZE > block.Length {
        Abort(ABORT_CA_NOT_SUPPORTED);
      } else {
        StoreObject(o, nsub, r, state);
        Reply(DownloadResponse(IndexOf(r), SubindexOf(r), COE_COMMAND_DOWNLOADRESPONSE + COE_COMPLETEACCESS));
      }
    }

    method TryDownloadAll(state: nat)
      requires Valid() && CanDownloadComplete(dict, View(), mbx.size)
      modifies this, mem, block, mbx, mbx.control, mbx.buf
      ensures Valid()
      ensures View() == old(DownloadAllTried(dict, View(), state, mbx.size))
    {
      hide ObjectDownloaded, Aborted, Serviceable, CompleteRefused, Lookup, Loadable, CanDownloadObject;
      var code, f := RefuseComplete(IndexOf(mbx.buf[0]), SubindexOf(mbx.buf[0]));
      if code != 0 {
        Abort(code);
      } else {
        DownloadObject(dict[f.o], f.n, state);
      }
    }

    method DownloadAll(state: nat)
      requires Valid() && CanDownloadComplete(dict, View(), mbx.size)
      modifies this, mem, block, mbx, mbx.control, mbx.buf
      ensures Valid()
      ensures View() == old(SdoDownloadComplete(dict, View(), state, mbx.size))
    {
      hide DownloadAllTried, Released, CanDownloadComplete;
      TryDownloadAll(state);
      Release();
    }

    // Object list and descriptions

    method CountEntries() returns (n: nat)
      requires WellFormed(dict)
      ensures n == Entries(dict)
    {
      n := 0;
      while dict[n].index != LIST_END
        invariant n < |dict|
      {
        n := n + 1;
      }
    }

    method IndexList(from: nat, to: nat) returns (l: seq<uint16>)
      requires from <= to <= |dict|
      ensures l == Listed(dict, from, to)
    {
      l := [];
      for i := from to to
        invariant l == Listed(dict, from, i)
      {
        l := l + [dict[i].index];
      }
    }

    method Answer(f: Frame)
      requires Valid()
      modifies mbx, mbx.control, mbx.buf
      ensures Valid()
      ensures View() == Answered(old(View()), f)
    {
      hide Highest;
      var n := mbx.ClaimBuffer();
      if n > 0 {
        mbx.Queue(n, f);
        Release();
      }
    }

    /** The first fragment of the list of all objects. */
    method SendList(frags: nat, n: nat)
      requires Valid() && 11 <= mbx.size < 0x1_0000 && 1 < |dict| && 0 < n < mbx.control.Length
      requires frags == Fragments(Entries(dict), mbx.size) && entries == Entries(dict)
      modifies mbx`xoe, mbx.control, mbx.buf
      ensures Valid()
      ensures View() == ListStarted(dict, old(View()), n, mbx.size)
    {
      FragmentCount(entries, mbx.size);
      FirstBounds(entries, mbx.size);
      hide Fragments, FirstFragment;
      var count := if frags > 1 then PerFragment(mbx.size) else entries;
      var l := IndexList(0, count);
      mbx.Queue(n, FirstFragment(l, frags));
      if frags > 1 {
        mbx.xoe := MBXCOE + MBXODL;
      } else {
        Release();
      }
    }

    method GetOdList()
      requires Valid() && IsRequest(mbx.buf[0]) && 11 <= mbx.size < 0x1_0000 && 1 < |dict| <= 0x1_0000 && WellFormed(dict)
      modifies this, mbx, mbx.control, mbx.buf
      ensures Valid()
      ensures View() == SdoGetOdList(dict, old(View()), mbx.size)
    {
      hide Highest, Fragments, InfoError, CountFrame, ListStarted, Answered, WellFormed;
      var r := mbx.buf[0];
      entries := CountEntries();
      FragmentCount(entries, mbx.size);
      var count := Fragments(entries, mbx.size);
      if SizeField(r) > 1 {
        Answer(InfoError(ABORT_UNSUPPORTED));
        return;
      }
      var n := mbx.ClaimBuffer();
      if n > 0 {
        frags, fragsleft := count, count - 1;
        if SizeField(r) == 0 {
          mbx.Queue(n, CountFrame(entries));
          Release();
        } else {
          SendList(count, n);
        }
      }
    }

    method GetOdListCont()
      requires Valid() && 11 <= mbx.size < 0x1_0000 && Listing(dict, View(), mbx.size)
      modifies this, mbx, mbx.control, mbx.buf
      ensures Valid()
      ensures View() == SdoGetOdListCont(dict, old(View()), mbx.size)
    {
      NextBounds(entries, frags, fragsleft, mbx.size);
      hide Highest, NextFragment, NextFrom, NextTo, Fragments;
      var n := mbx.ClaimBuffer();
      if n > 0 {
        var l := IndexList(NextFrom(frags, fragsleft, mbx.size), NextTo(entries, frags, fragsleft, mbx.size));
        mbx.Queue(n, NextFragment(l, fragsleft));
        if fragsleft <= 1 {
          Release();
        }
        fragsleft := fragsleft - 1;
      }
    }

    // The dispatcher

    method HandleSdo(state: nat, ghost text: Frame)
      requires Valid() && CanHandle(dict, View(), mbx.size) && Service(mbx.buf[0]) == COE_SDOREQUEST
      modifies this, mem, block, mbx, mbx.control, mbx.buf
      ensures Valid()
      ensures View() == old(Handled(dict, View(), state, mbx.size, text))
    {
      var r := mbx.buf[0];
      var kind := SdoKind(r, segmented);
      assert CanRead(dict, View(), mbx.size) && IsRequest(r) && KindOf(r, segmented) == kind;
      assert kind.UploadOne? || kind.UploadAll? ==> CanServe(dict, View(), mbx.size);
      assert kind.UploadSeg? ==> CanSend(View());
      assert kind.DownloadOne? ==> CanDownload(dict, View(), mbx.size);
      assert kind.DownloadAll? ==> CanDownloadComplete(dict, View(), mbx.size);
      assert kind.DownloadSeg? ==> CanSegment(dict, View());
      hide SdoKind, SdoUpload, SdoUploadComplete, SdoUploadSegment, SdoDownload, SdoDownloadComplete, SdoDownloadSegment,
        CanRead, CanServe, CanSend, CanDownload, CanDownloadComplete, CanSegment, CanHandle, SdoGetOdList, Answered, Released, Aborted,
        Replied, ErrorFrame;
      match kind
      case UploadOne => Upload(state);
      case UploadAll => UploadAll(state);
      case UploadSeg => UploadSegment();
      case DownloadOne => Download(state);
      case DownloadAll => DownloadAll(state);
      case DownloadSeg => DownloadSegment(state);
      case _ =>
    }

    /** Requests that are not SDO requests. */
    method HandleOther(ghost state: nat, text: Frame)
      requires Valid() && CanHandle(dict, View(), mbx.size) && Service(mbx.buf[0]) != COE_SDOREQUEST
      modifies this, mbx, mbx.control, mbx.buf
      ensures Valid()
      ensures View() == old(Handled(dict, View(), state, mbx.size, text))
    {
      hide SdoUpload, SdoUploadComplete, SdoUploadSegment, SdoDownload, SdoDownloadComplete, SdoDownloadSegment, CanRead, CanServe,
        CanSend, CanDownload, CanDownloadComplete, CanSegment, CanHandle, SdoGetOdList, Answered, Released, Aborted, ErrorFrame,
        Serviceable, WellFormed, SdoKind, Replied, Sent, Command, SdoGetOdListCont, IsComplete;
      HandlerNeeds(dict, View(), mbx.size);
      var r := mbx.buf[0];
      var kind := KindOf(r, segmented);
      if kind.ObjectListing? {
        GetOdList();
      } else if kind.Description? {
        Answer(text);
      } else {
        if kind.NoService? {
          Reply(ErrorFrame(MBXERR_INVALIDHEADER));
        } else {
          Abort(ABORT_UNSUPPORTED);
        }
        Release();
      }
    }

    method Handle(state: nat, text: Frame)
      requires Valid() && CanHandle(dict, View(), mbx.size)
      modifies this, mem, block, mbx, mbx.control, mbx.buf
      ensures Valid()
      ensures View() == old(Handled(dict, View(), state, mbx.size, text))
    {
      assert IsRequest(mbx.buf[0]);
      hide Handled, CanHandle, WellFormed;
      if Service(mbx.buf[0]) == COE_SDOREQUEST {
        HandleSdo(state, text);
      } else {
        HandleOther(state, text);
      }
    }

    method TakeOn()
      requires Valid()
      modifies mbx`xoe, mbx`cnt, mbx`txcue, mbx.control, mbx.buf
      ensures Valid()
      ensures View() == TakenOn(old(View()))
    {
      hide Replied, ErrorFrame;
      if mbx.xoe == 0 && mbx.control[0] == Inclaim && mbx.buf[0].mtype == MBXCOE {
        if mbx.buf[0].length < COE_MINIMUM_LENGTH {
          Reply(ErrorFrame(MBXERR_INVALIDSIZE));
        } else {
          mbx.xoe := MBXCOE;
        }
      }
    }

    method Process(state: nat, text: Frame)
      requires Valid() && CanProcess(dict, View(), mbx.size)
      modifies this, mem, block, mbx, mbx.control, mbx.buf
      ensures Valid()
      ensures View() == old(CoeProcess(dict, View(), state, mbx.size, text))
    {
      if !mbx.run {
        return;
      }
      ContinuedAsTaken(dict, View(), mbx.size);
      ghost var s1 := TakenOn(View());
      hide TakenOn, Handled, CanHandle, SdoGetOdListCont, Listing;
      TakeOn();
      if mbx.xoe == MBXCOE + MBXODL && mbx.outpost == 0 {
        GetOdListCont();
      }
      if mbx.xoe == MBXCOE {
        Handle(state, text);
      }
    }

    /** One round of ecat_slv_poll's mailbox part: the buffers, then the CoE server, then what nobody has taken. */
    method MailboxRound(i: Input, state: nat, text: Frame)
      requires Valid() && CanRound(dict, View(), i, mbx.size)
      modifies this, mem, block, mbx, mbx.control, mbx.buf
      ensures Valid()
      ensures View() == old(Round(dict, View(), i, state, mbx.size, text))
    {
      hide Processed, HasWork, CanProcess, CoeProcess, Rejected;
      var handled := mbx.MbxProcess(i);
      if handled {
        Process(state, text);
        mbx.XoeProcess();
      }
    }
  }

  lemma HandlerNeeds(d: Dictionary, s: Server, dsize: nat)
    requires CanHandle(d, s, dsize)
    ensures WellFormed(d) && Shaped(s.mbx) && IsRequest(s.mbx.buf[0]) && 11 <= dsize < 0x1_0000 && 1 < |d| <= 0x1_0000
  {
  }
}
