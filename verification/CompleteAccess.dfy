/**
 Complete access: all entries of an object moved as one block of bytes
 (complete_access_subindex_loop).
 */
module CompleteAccess {
  import opened Words
  import opened Bytes
  import opened ObjectDictionary
  import opened SdoTransfer

  const DTYPE_VISIBLE_STRING: nat := 0x0009
  const DTYPE_OCTET_STRING: nat := 0x000A
  const DTYPE_UNICODE_STRING: nat := 0x000B

  const ABORT_CA_NOT_SUPPORTED: nat := 0x06010004

  datatype Load = Measure | Upload | Download(data: seq<byte>)

  /** Objects of dynamic length have no complete access. */
  predicate IsDynamic(o: Object)
    requires |o.entries| > 0
  {
    o.entries[0].dtype in {DTYPE_VISIBLE_STRING, DTYPE_OCTET_STRING, DTYPE_UNICODE_STRING}
  }

  /** The entry may be written in some state. */
  predicate IsWritable(e: Entry) {
    Bit(e.flags, 3) || Bit(e.flags, 4) || Bit(e.flags, 5)
  }

  /**
   Lengths the loop can handle: bit fields fit the 32-bit mask, and subindex 0
   fits the 16 bits it is padded to. Every entry has storage, and writable ones
   are variables.
   */
  ghost predicate Loadable(o: Object, st: Store) {
    && |o.entries| == o.maxsub + 1
    && (o.objtype != OTYPE_VAR ==> o.entries[0].bitlength <= 16)
    && (forall k | 0 <= k < |o.entries| :: o.entries[k].bitlength % 8 == 0 || o.entries[k].bitlength < 32)
    && (forall k | 0 <= k < |o.entries| :: Backed(o.entries[k], st))
    && (forall k | 0 <= k < |o.entries| :: IsWritable(o.entries[k]) ==> o.entries[k].data.Some?)
  }

  // Layout

  /** Whole bytes start on a byte boundary. */
  function Aligned(size: nat, bits: nat): (at: nat)
    ensures size <= at < size + 8
  {
    if bits % 8 == 0 && size % 8 != 0 then size + (8 - size % 8) else size
  }

  /** Position after entry k; subindex 0 takes 16 bits unless the object is a variable. */
  function After(o: Object, k: nat, size: nat): (r: nat)
    requires k < |o.entries|
    ensures r >= size
  {
    Aligned(size, o.entries[k].bitlength) + (if k == 0 && o.objtype != OTYPE_VAR then 16 else o.entries[k].bitlength)
  }

  predicate Stops(size: nat, max: nat) {
    max > 0 && BitsToBytes(size) >= max
  }

  /** Bits taken up when entries from k on are placed after size bits; max > 0 limits the bytes. */
  function Extent(o: Object, k: nat, size: nat, max: nat): (r: nat)
    requires k <= |o.entries|
    ensures r >= size
    ensures k < |o.entries| ==> r >= After(o, k, size)
    decreases |o.entries| - k
  {
    if k == |o.entries| then size
    else if Stops(After(o, k, size), max) then After(o, k, size)
    else Extent(o, k + 1, After(o, k, size), max)
  }

  // One entry

  /** What the loop works on: the block of bytes and the application's storage. */
  datatype Work = Work(block: seq<byte>, st: Store)

  function Zeros(n: nat): (z: seq<byte>) ensures |z| == n { seq(n, _ => 0) }

  /** The bytes an upload shows for an entry: zeroes when it cannot be read in this state. */
  function Shown(e: Entry, st: Store, state: nat): (bs: seq<byte>)
    requires Backed(e, st)
    ensures |bs| == BitsToBytes(e.bitlength)
  {
    if ReadAccess(e.flags, state) then Content(e, st) else Zeros(BitsToBytes(e.bitlength))
  }

  function FirstByte(e: Entry, st: Store): byte
    requires Backed(e, st) && e.bitlength > 0
  {
    match e.data
    case Some(c) => st[c][0]
    case None => e.value % 0x100
  }

  /** The low n bits of v, at bit position off of a byte. */
  function Field(v: byte, n: nat, off: nat): byte {
    v % Pow2(n) * Pow2(off) % 0x100
  }

  /** The bits such a field takes. */
  function FieldMask(n: nat, off: nat): byte {
    (Pow2(n) - 1) * Pow2(off) % 0x100
  }

  /** The byte b with the bit field v of n bits at bit position off; a field that cannot be read is cleared. */
  function WithField(b: byte, v: byte, n: nat, off: nat, readable: bool): byte
    requires off < 8
  {
    assert Pow2(8) == 0x100;
    OrBound(if off == 0 then 0 else b, Field(v, n, off), 8);
    if readable then Or(if off == 0 then 0 else b, Field(v, n, off)) else And(b, 0xFF - FieldMask(n, off))
  }

  /** The entry's bytes lie inside the block, or inside the downloaded data. */
  predicate Inside(e: Entry, at: nat, load: Load, w: Work) {
    && Backed(e, w.st) && (IsWritable(e) ==> e.data.Some?)
    && (e.bitlength % 8 == 0 ==> at % 8 == 0)
    && (load.Upload? ==> BitsToBytes(at + e.bitlength) <= |w.block|)
    && (load.Download? ==> BitsToBytes(at + e.bitlength) <= |load.data|)
  }

  /** One entry moved; a download skips bit fields and entries not writable in this state. */
  function EntryLoaded(e: Entry, state: nat, at: nat, load: Load, w: Work): (r: Work)
    requires Inside(e, at, load, w)
    ensures |r.block| == |w.block| && SameSizes(w.st, r.st)
  {
    if e.bitlength % 8 == 0 then
      match load
      case Measure => w
      case Upload => w.(block := Over(w.block, at / 8, Shown(e, w.st, state)))
      case Download(data) =>
        if WriteAccess(e.flags, state) then
          var c := e.data.value;
          w.(st := w.st[c := Over(w.st[c], 0, data[at / 8..at / 8 + BitsToBytes(e.bitlength)])])
        else w
    else if load.Upload? then
      w.(block := w.block[at / 8 := WithField(w.block[at / 8], FirstByte(e, w.st), e.bitlength, at % 8,
                                               ReadAccess(e.flags, state))])
    else w
  }

  // All entries

  /** There is room for everything from entry k on. */
  ghost predicate Fits(o: Object, load: Load, k: nat, size: nat, max: nat, w: Work) {
    && Loadable(o, w.st) && k <= |o.entries|
    && (load.Upload? ==> BitsToBytes(Extent(o, k, size, max)) <= |w.block|)
    && (load.Download? ==> BitsToBytes(Extent(o, k, size, max)) <= |load.data|)
  }

  lemma FitsNext(o: Object, state: nat, load: Load, k: nat, size: nat, max: nat, w: Work)
    requires Fits(o, load, k, size, max, w) && k < |o.entries|
    ensures var e := o.entries[k];
            var at := Aligned(size, e.bitlength);
            Inside(e, at, load, w)
            && Loadable(o, EntryLoaded(e, state, at, load, w).st)
            && (!Stops(After(o, k, size), max) ==>
                  Fits(o, load, k + 1, After(o, k, size), max, EntryLoaded(e, state, at, load, w)))
  {
  }

  ghost function AllLoaded(o: Object, state: nat, load: Load, k: nat, size: nat, max: nat, w: Work): (r: Work)
    requires Fits(o, load, k, size, max, w)
    ensures |r.block| == |w.block| && SameSizes(w.st, r.st)
    decreases |o.entries| - k
  {
    if k == |o.entries| then w
    else
      FitsNext(o, state, load, k, size, max, w);
      var next := EntryLoaded(o.entries[k], state, Aligned(size, o.entries[k].bitlength), load, w);
      if Stops(After(o, k, size), max) then next
      else AllLoaded(o, state, load, k + 1, After(o, k, size), max, next)
  }

  /** Byte 1, the padding of subindex 0, is cleared before an upload. */
  function Prepared(load: Load, w: Work): Work
    requires load.Upload? ==> |w.block| >= 2
  {
    if load.Upload? then w.(block := w.block[1 := 0]) else w
  }

  ghost predicate CanLoad(o: Object, nsub: nat, load: Load, max: nat, w: Work) {
    nsub < |o.entries| && Fits(o, load, nsub, 0, max, w) && (load.Upload? ==> |w.block| >= 2)
  }

  /** What one call of the loop does. */
  ghost function LoopResult(o: Object, state: nat, nsub: nat, load: Load, max: nat, w: Work): Work
    requires CanLoad(o, nsub, load, max, w)
  {
    if IsDynamic(o) then w else AllLoaded(o, state, load, nsub, 0, max, Prepared(load, w))
  }

  function LoopSize(o: Object, nsub: nat, max: nat): nat
    requires nsub < |o.entries|
  {
    if IsDynamic(o) then ABORT_CA_NOT_SUPPORTED else Extent(o, nsub, 0, max)
  }

  method LoadEntry(e: Entry, state: nat, at: nat, load: Load, mem: Memory, block: array<byte>)
    requires Inside(e, at, load, Work(block[..], mem.cells))
    modifies mem, block
    ensures Work(block[..], mem.cells) == EntryLoaded(e, state, at, load, old(Work(block[..], mem.cells)))
  {
    if e.bitlength % 8 == 0 {
      if load.Upload? {
        CopyInto(block, at / 8, Shown(e, mem.cells, state));
      } else if load.Download? && WriteAccess(e.flags, state) {
        var c := e.data.value;
        mem.Put(c, 0, load.data[at / 8..at / 8 + BitsToBytes(e.bitlength)]);
      }
    } else if load.Upload? {
      block[at / 8] :=
        WithField(block[at / 8], FirstByte(e, mem.cells), e.bitlength, at % 8, ReadAccess(e.flags, state));
    }
  }

  /** One round of the loop, seen from its results. */
  lemma LoopRound(o: Object, state: nat, load: Load, k: nat, size: nat, max: nat, w: Work)
    requires Fits(o, load, k, size, max, w) && k < |o.entries|
    ensures Inside(o.entries[k], Aligned(size, o.entries[k].bitlength), load, w)
    ensures var next := EntryLoaded(o.entries[k], state, Aligned(size, o.entries[k].bitlength), load, w);
            var size' := After(o, k, size);
            if Stops(size', max) then
              Extent(o, k, size, max) == size' && AllLoaded(o, state, load, k, size, max, w) == next
            else
              && Fits(o, load, k + 1, size', max, next)
              && Extent(o, k, size, max) == Extent(o, k + 1, size', max)
              && AllLoaded(o, state, load, k, size, max, w) == AllLoaded(o, state, load, k + 1, size', max, next)
  {
    FitsNext(o, state, load, k, size, max, w);
    hide EntryLoaded, Inside;
  }

  method LoopFrom(o: Object, nsub: nat, load: Load, max: nat, state: nat, mem: Memory, block: array<byte>)
    returns (size: nat)
    requires nsub < |o.entries| && Fits(o, load, nsub, 0, max, Work(block[..], mem.cells))
    modifies mem, block
    ensures size == Extent(o, nsub, 0, max)
    ensures Work(block[..], mem.cells) == old(AllLoaded(o, state, load, nsub, 0, max, Work(block[..], mem.cells)))
  {
    hide Fits, AllLoaded, Extent, EntryLoaded, Inside, After, Stops, Aligned;
    ghost var w := Work(block[..], mem.cells);
    ghost var start := w;
    EntryCount(o, load, nsub, max, w);
    size := 0;
    var n := nsub;
    while n <= o.maxsub
      invariant n <= |o.entries| && w == Work(block[..], mem.cells)
      invariant Fits(o, load, n, size, max, w)
      invariant Extent(o, n, size, max) == Extent(o, nsub, 0, max)
      invariant AllLoaded(o, state, load, n, size, max, w) == AllLoaded(o, state, load, nsub, 0, max, start)
    {
      LoopRound(o, state, load, n, size, max, w);
      LoadEntry(o.entries[n], state, Aligned(size, o.entries[n].bitlength), load, mem, block);
      w := EntryLoaded(o.entries[n], state, Aligned(size, o.entries[n].bitlength), load, w);
      size := After(o, n, size);
      n := n + 1;
      if Stops(size, max) {
        return;
      }
    }
    LoopDone(o, state, load, size, max, w);
  }

  lemma EntryCount(o: Object, load: Load, k: nat, max: nat, w: Work)
    requires Fits(o, load, k, 0, max, w)
    ensures |o.entries| == o.maxsub + 1
  {
  }

  lemma LoopDone(o: Object, state: nat, load: Load, size: nat, max: nat, w: Work)
    requires Fits(o, load, |o.entries|, size, max, w)
    ensures Extent(o, |o.entries|, size, max) == size && AllLoaded(o, state, load, |o.entries|, size, max, w) == w
  {
  }

  method SubindexLoop(o: Object, nsub: nat, load: Load, max: nat, state: nat, mem: Memory, block: array<byte>)
    returns (size: nat)
    requires CanLoad(o, nsub, load, max, Work(block[..], mem.cells))
    modifies mem, block
    ensures size == LoopSize(o, nsub, max)
    ensures Work(block[..], mem.cells) == old(LoopResult(o, state, nsub, load, max, Work(block[..], mem.cells)))
  {
    if IsDynamic(o) {
      return ABORT_CA_NOT_SUPPORTED;
    }
    hide AllLoaded, Extent, Loadable;
    if load.Upload? {
      block[1] := 0;
    }
    size := LoopFrom(o, nsub, load, max, state, mem, block);
  }

  /** A download leaves the block of bytes alone. */
  lemma DownloadKeepsBlock(o: Object, state: nat, nsub: nat, data: seq<byte>, max: nat, w: Work)
    requires CanLoad(o, nsub, Download(data), max, w)
    ensures LoopResult(o, state, nsub, Download(data), max, w).block == w.block
  {
    if !IsDynamic(o) { LoadedKeepsBlock(o, state, nsub, 0, data, max, w); }
  }

  lemma {:induction false} LoadedKeepsBlock(o: Object, state: nat, k: nat, size: nat, data: seq<byte>, max: nat, w: Work)
    requires Fits(o, Download(data), k, size, max, w)
    ensures AllLoaded(o, state, Download(data), k, size, max, w).block == w.block
    decreases |o.entries| - k
  {
    if k < |o.entries| {
      LoopRound(o, state, Download(data), k, size, max, w);
      var next := EntryLoaded(o.entries[k], state, Aligned(size, o.entries[k].bitlength), Download(data), w);
      assert next.block == w.block;
      hide EntryLoaded, Inside, Fits, AllLoaded;
      if !Stops(After(o, k, size), max) {
        LoadedKeepsBlock(o, state, k + 1, After(o, k, size), data, max, next);
      }
    }
  }

  /** Measuring changes nothing, and an upload leaves the storage alone. */
  lemma {:induction false} LoadedKeepsStore(o: Object, state: nat, load: Load, k: nat, size: nat, max: nat, w: Work)
    requires Fits(o, load, k, size, max, w) && !load.Download?
    ensures AllLoaded(o, state, load, k, size, max, w).st == w.st
    ensures load.Measure? ==> AllLoaded(o, state, load, k, size, max, w) == w
    decreases |o.entries| - k
  {
    if k < |o.entries| {
      LoopRound(o, state, load, k, size, max, w);
      var next := EntryLoaded(o.entries[k], state, Aligned(size, o.entries[k].bitlength), load, w);
      assert next.st == w.st && (load.Measure? ==> next == w);
      hide EntryLoaded, Inside, Fits, AllLoaded;
      if !Stops(After(o, k, size), max) {
        LoadedKeepsStore(o, state, load, k + 1, After(o, k, size), max, next);
      }
    }
  }

  lemma LoopKeepsStore(o: Object, state: nat, nsub: nat, load: Load, w: Work)
    requires CanLoad(o, nsub, load, 0, w) && !load.Download?
    ensures LoopResult(o, state, nsub, load, 0, w).st == w.st
    ensures load.Measure? ==> LoopResult(o, state, nsub, load, 0, w) == w
  {
    if !IsDynamic(o) { LoadedKeepsStore(o, state, load, nsub, 0, 0, Prepared(load, w)); }
  }
}
