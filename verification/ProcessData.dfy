/**
 Moving values between the object dictionary's storage and the process image
 (COE_getValue, COE_setValue, COE_pdoPack, COE_pdoUnpack).

 The image is the array of 64-bit words the bit slices work on. Copying whole
 bytes to or from it is writing or reading 8-bit slices at byte positions.
 */
module ProcessData {
  import opened Words
  import opened Bytes
  import opened BitSlice
  import opened ObjectDictionary
  import opened PdoMapping

  /** Bytes accessed for a data type, or 0 for one that is not supported. */
  function Width(dtype: nat): nat {
    if dtype in {0x30, 0x31, 0x32, 0x33, 0x34, 0x35, 0x36, 0x37, 0x01, 0x05, 0x02, 0x2D} then 1
    else if dtype in {0x06, 0x03, 0x2E} then 2
    else if dtype in {0x08, 0x07, 0x04, 0x2F} then 4
    else if dtype in {0x11, 0x1B, 0x15} then 8
    else 0
  }

  /** Bit b of storage cell c. */
  predicate CellBit(st: Store, c: nat, b: nat)
    requires c < |st| && b < 8 * |st[c]|
  {
    Bit(st[c][b / 8], b % 8)
  }

  predicate InStore(e: Entry, st: Store, bytes: nat) {
    e.data.Some? && e.data.value < |st| && bytes <= |st[e.data.value]|
  }

  function GetValue(e: Entry, st: Store): (v: uint64)
    requires Width(e.dtype) > 0 && InStore(e, st, Width(e.dtype))
    ensures forall b: nat | b < 64 :: Bit(v, b) == (b < 8 * Width(e.dtype) && CellBit(st, e.data.value, b))
    ensures v < Pow2(8 * Width(e.dtype))
  {
    var bs := st[e.data.value][..Width(e.dtype)];
    NumberBits(bs);
    FromBytes(bs)
  }

  lemma NumberBits(bs: seq<byte>)
    requires |bs| <= 8
    ensures FromBytes(bs) < Pow2(8 * |bs|) && FromBytes(bs) <= UINT64_MAX
    ensures forall b: nat | b < 64 :: Bit(FromBytes(bs), b) == (b < 8 * |bs| && Bit(bs[b / 8], b % 8))
  {
    FromBytesBound(bs);
    Pow2At64();
    if |bs| < 8 { Pow2Less(8 * |bs|, 64); }
    forall b: nat | b < 64
      ensures Bit(FromBytes(bs), b) == (b < 8 * |bs| && Bit(bs[b / 8], b % 8))
    {
      if b < 8 * |bs| {
        BitOfBytes(bs, b / 8, b % 8);
      } else {
        NoHighBits(FromBytes(bs), 8 * |bs|, b);
      }
    }
  }

  /** The first n bytes of a cell are replaced by the low bits of value. */
  ghost predicate CellReplaced(before: Store, after: Store, c: nat, n: nat, value: nat)
    requires c < |before| && n <= |before[c]|
  {
    && |after| == |before| && |after[c]| == |before[c]|
    && (forall x | 0 <= x < |before| && x != c :: after[x] == before[x])
    && forall b: nat | b < 8 * |before[c]| ::
         CellBit(after, c, b) == if b < 8 * n then Bit(value, b) else CellBit(before, c, b)
  }

  method SetValue(mem: Memory, e: Entry, value: uint64)
    requires InStore(e, mem.cells, Width(e.dtype))
    modifies mem
    ensures Width(e.dtype) == 0 ==> mem.cells == old(mem.cells)
    ensures CellReplaced(old(mem.cells), mem.cells, e.data.value, Width(e.dtype), value)
  {
    var w := Width(e.dtype);
    if w > 0 {
      var bs := ToBytes(value, w);
      ToBytesBits(value, w);
      mem.Put(e.data.value, 0, bs);
    }
  }

  lemma {:induction false} ToBytesBits(v: nat, n: nat)
    ensures forall b: nat | b < 8 * n :: Bit(ToBytes(v, n)[b / 8], b % 8) == Bit(v, b)
  {
    if n > 0 {
      ToBytesBits(v / 256, n - 1);
      forall b: nat | b < 8 * n
        ensures Bit(ToBytes(v, n)[b / 8], b % 8) == Bit(v, b)
      {
        assert v == v % 256 + 256 * (v / 256);
        if b < 8 {
          LowByteBit(v % 256, v / 256, b);
        } else {
          HighByteBit(v % 256, v / 256, b - 8);
          assert ToBytes(v, n)[b / 8] == ToBytes(v / 256, n - 1)[(b - 8) / 8];
        }
      }
    }
  }

  // Slots: the bits of the image that a list line moves

  function SlotStart(m: SMmap): nat
    requires m.obj.Some?
  {
    if m.obj.value.bitlength > 64 then 8 * (m.offset / 8) else m.offset
  }

  function SlotLength(m: SMmap): nat
    requires m.obj.Some?
  {
    if m.obj.value.bitlength > 64 then 8 * BitsToBytes(m.obj.value.bitlength) else m.obj.value.bitlength
  }

  /** Bytes of the cell that the line reads, and overwrites. */
  function CellLength(m: SMmap): nat
    requires m.obj.Some?
  {
    if m.obj.value.bitlength > 64 then BitsToBytes(m.obj.value.bitlength) else Width(m.obj.value.dtype)
  }

  predicate Covers(m: SMmap, i: nat) {
    m.obj.Some? && SlotStart(m) <= i < SlotStart(m) + SlotLength(m)
  }

  predicate WritesTo(m: SMmap, c: nat, b: nat) {
    m.obj.Some? && m.obj.value.data == Some(c) && b < 8 * CellLength(m)
  }

  /** The line stays inside the image and inside its storage cell. */
  predicate Movable(m: SMmap, st: Store, words: nat) {
    m.obj.Some? ==>
      && InStore(m.obj.value, st, CellLength(m))
      && SlotStart(m) < 64 * words && SlotStart(m) + SlotLength(m) <= 64 * words
  }

  predicate AllMovable(ms: seq<SMmap>, st: Store, words: nat) {
    forall k | 0 <= k < |ms| :: Movable(ms[k], st, words)
  }

  /** Reading a value needs one of the supported data types. */
  predicate Packable(ms: seq<SMmap>) {
    forall k | 0 <= k < |ms| :: ms[k].obj.Some? ==> CellLength(ms[k]) > 0
  }

  /** Bit b of the value a line packs. */
  predicate SourceBit(m: SMmap, st: Store, b: nat)
    requires m.obj.Some? && InStore(m.obj.value, st, CellLength(m))
  {
    b < 8 * CellLength(m) && CellBit(st, m.obj.value.data.value, b)
  }

  /** Bit i of the image after packing the first n lines: the last line that covers it decides. */
  predicate PackedBit(ms: seq<SMmap>, n: nat, st: Store, image: seq<uint64>, i: nat)
    requires n <= |ms| && AllMovable(ms, st, |image|) && i < 64 * |image|
  {
    if n == 0 then FlatBit(image, i)
    else if Covers(ms[n - 1], i) then SourceBit(ms[n - 1], st, i - SlotStart(ms[n - 1]))
    else PackedBit(ms, n - 1, st, image, i)
  }

  /** Bit b of cell c after unpacking the first n lines: the last line that writes it decides. */
  predicate UnpackedBit(ms: seq<SMmap>, n: nat, st: Store, image: seq<uint64>, c: nat, b: nat)
    requires n <= |ms| && AllMovable(ms, st, |image|) && c < |st| && b < 8 * |st[c]|
  {
    if n == 0 then CellBit(st, c, b)
    else if WritesTo(ms[n - 1], c, b) then
      b < SlotLength(ms[n - 1]) && FlatBit(image, SlotStart(ms[n - 1]) + b)
    else UnpackedBit(ms, n - 1, st, image, c, b)
  }

  ghost predicate IsPacked(ms: seq<SMmap>, n: nat, st: Store, before: seq<uint64>, after: seq<uint64>)
    requires n <= |ms| && AllMovable(ms, st, |before|)
  {
    |after| == |before| &&
    forall i: nat | i < 64 * |before| :: FlatBit(after, i) == PackedBit(ms, n, st, before, i)
  }

  ghost predicate IsUnpacked(ms: seq<SMmap>, n: nat, image: seq<uint64>, before: Store, after: Store)
    requires n <= |ms| && AllMovable(ms, before, |image|)
  {
    SameSizes(before, after) &&
    forall c: nat, b: nat | c < |before| && b < 8 * |before[c]| ::
      CellBit(after, c, b) == UnpackedBit(ms, n, before, image, c, b)
  }

  method CopyToImage(image: array<uint64>, at: nat, bs: seq<byte>)
    requires 8 * (at + |bs|) <= 64 * image.Length
    modifies image
    ensures forall i: nat | i < 64 * image.Length ::
              FlatBit(image[..], i) ==
              if 8 * at <= i < 8 * (at + |bs|) then Bit(bs[(i - 8 * at) / 8], (i - 8 * at) % 8)
              else FlatBit(old(image[..]), i)
  {
    for j := 0 to |bs|
      invariant forall i: nat | i < 64 * image.Length ::
                  FlatBit(image[..], i) ==
                  if 8 * at <= i < 8 * (at + j) then Bit(bs[(i - 8 * at) / 8], (i - 8 * at) % 8)
                  else FlatBit(old(image[..]), i)
    {
      BitsliceSet(image, 8 * (at + j), 8, bs[j]);
    }
  }

  method CopyFromImage(image: array<uint64>, at: nat, n: nat) returns (bs: seq<byte>)
    requires 8 * (at + n) <= 64 * image.Length
    ensures |bs| == n
    ensures forall b: nat | b < 8 * n :: Bit(bs[b / 8], b % 8) == FlatBit(image[..], 8 * at + b)
  {
    bs := [];
    for j := 0 to n
      invariant |bs| == j
      invariant forall b: nat | b < 8 * j :: Bit(bs[b / 8], b % 8) == FlatBit(image[..], 8 * at + b)
    {
      var v := BitsliceGet(image, 8 * (at + j), 8);
      assert Pow2(8) == 256;
      bs := bs + [v];
    }
  }

  method PackLine(image: array<uint64>, m: SMmap, mem: Memory)
    requires m.obj.Some? && Movable(m, mem.cells, image.Length) && CellLength(m) > 0
    modifies image
    ensures forall i: nat | i < 64 * image.Length ::
              FlatBit(image[..], i) ==
              if Covers(m, i) then SourceBit(m, mem.cells, i - SlotStart(m)) else FlatBit(old(image[..]), i)
  {
    var e := m.obj.value;
    if e.bitlength > 64 {
      CopyToImage(image, m.offset / 8, mem.cells[e.data.value][..BitsToBytes(e.bitlength)]);
    } else {
      var value := GetValue(e, mem.cells);
      BitsliceSet(image, m.offset, e.bitlength, value);
    }
  }

  method PdoPack(image: array<uint64>, ms: seq<SMmap>, mem: Memory)
    requires AllMovable(ms, mem.cells, image.Length) && Packable(ms)
    modifies image
    ensures IsPacked(ms, |ms|, mem.cells, old(image[..]), image[..])
  {
    for ix := 0 to |ms|
      invariant IsPacked(ms, ix, mem.cells, old(image[..]), image[..])
    {
      if ms[ix].obj.Some? {
        PackLine(image, ms[ix], mem);
      }
    }
  }

  method UnpackLine(image: array<uint64>, m: SMmap, mem: Memory)
    requires m.obj.Some? && Movable(m, mem.cells, image.Length)
    modifies mem
    ensures SameSizes(old(mem.cells), mem.cells)
    ensures forall c: nat, b: nat | c < |mem.cells| && b < 8 * |mem.cells[c]| ::
              CellBit(mem.cells, c, b) ==
              if WritesTo(m, c, b) then b < SlotLength(m) && FlatBit(image[..], SlotStart(m) + b)
              else CellBit(old(mem.cells), c, b)
  {
    var e := m.obj.value;
    if e.bitlength > 64 {
      var bs := CopyFromImage(image, m.offset / 8, BitsToBytes(e.bitlength));
      mem.Put(e.data.value, 0, bs);
    } else {
      var value := BitsliceGet(image, m.offset, e.bitlength);
      SliceBits(image[..], m.offset, e.bitlength, value);
      SetValue(mem, e, value);
    }
  }

  method PdoUnpack(image: array<uint64>, ms: seq<SMmap>, mem: Memory)
    requires AllMovable(ms, mem.cells, image.Length)
    modifies mem
    ensures IsUnpacked(ms, |ms|, image[..], old(mem.cells), mem.cells)
  {
    for ix := 0 to |ms|
      invariant IsUnpacked(ms, ix, image[..], old(mem.cells), mem.cells)
    {
      var m := ms[ix];
      if m.obj.Some? {
        UnpackLine(image, m, mem);
      }
    }
  }

  lemma SliceBits(ws: seq<uint64>, offset: nat, length: nat, r: nat)
    requires SliceFits(|ws|, offset, length) && IsSlice(ws, offset, length, r)
    ensures forall k: nat :: Bit(r, k) == (k < length && FlatBit(ws, offset + k))
  {
    forall k: nat
      ensures Bit(r, k) == (k < length && FlatBit(ws, offset + k))
    {
      if k >= length { NoHighBits(r, length, k); }
    }
  }

  // What the two directions promise together

  /** No two lines move the same bits of the image. */
  ghost predicate DisjointSlots(ms: seq<SMmap>) {
    forall j, k, i | 0 <= j < k < |ms| :: !(Covers(ms[j], i) && Covers(ms[k], i))
  }

  /** Lines that share a storage cell agree on how much of it they move. */
  ghost predicate Compatible(ms: seq<SMmap>) {
    forall j, k | 0 <= j < |ms| && 0 <= k < |ms| && ms[j].obj.Some? && ms[k].obj.Some?
                  && ms[j].obj.value.data == ms[k].obj.value.data ::
      SlotLength(ms[j]) == SlotLength(ms[k]) && CellLength(ms[j]) == CellLength(ms[k])
  }

  /** With disjoint slots, each slot of the packed image holds its own line's value. */
  lemma {:induction false} PackedSlot(ms: seq<SMmap>, n: nat, st: Store, image: seq<uint64>, k: nat, i: nat)
    requires k < n <= |ms| && AllMovable(ms, st, |image|) && DisjointSlots(ms)
    requires i < 64 * |image| && Covers(ms[k], i)
    ensures PackedBit(ms, n, st, image, i) == SourceBit(ms[k], st, i - SlotStart(ms[k]))
  {
    if k < n - 1 {
      assert !Covers(ms[n - 1], i);
      PackedSlot(ms, n - 1, st, image, k, i);
    }
  }

  /** Bits outside every slot keep what they had. */
  lemma {:induction false} PackedPadding(ms: seq<SMmap>, n: nat, st: Store, image: seq<uint64>, i: nat)
    requires n <= |ms| && AllMovable(ms, st, |image|) && i < 64 * |image|
    requires forall k | 0 <= k < n :: !Covers(ms[k], i)
    ensures PackedBit(ms, n, st, image, i) == FlatBit(image, i)
  {
    if n > 0 { PackedPadding(ms, n - 1, st, image, i); }
  }

  /** Some line that writes to the bit decides it. */
  lemma {:induction false} UnpackedWriter(ms: seq<SMmap>, n: nat, st: Store, image: seq<uint64>, c: nat, b: nat)
    returns (k: nat)
    requires n <= |ms| && AllMovable(ms, st, |image|) && c < |st| && b < 8 * |st[c]|
    requires exists j | 0 <= j < n :: WritesTo(ms[j], c, b)
    ensures k < n && WritesTo(ms[k], c, b)
    ensures UnpackedBit(ms, n, st, image, c, b) ==
            (b < SlotLength(ms[k]) && FlatBit(image, SlotStart(ms[k]) + b))
  {
    k := n - 1;
    if !WritesTo(ms[k], c, b) {
      k := UnpackedWriter(ms, n - 1, st, image, c, b);
    }
  }

  lemma {:induction false} UnpackedUntouched(ms: seq<SMmap>, n: nat, st: Store, image: seq<uint64>, c: nat, b: nat)
    requires n <= |ms| && AllMovable(ms, st, |image|) && c < |st| && b < 8 * |st[c]|
    requires forall k | 0 <= k < n :: !WritesTo(ms[k], c, b)
    ensures UnpackedBit(ms, n, st, image, c, b) == CellBit(st, c, b)
  {
    if n > 0 { UnpackedUntouched(ms, n - 1, st, image, c, b); }
  }

  /**
   Packing st into an image and unpacking that image into any other store
   restores the mapped bits of every mapped cell, clears the rest of the bytes
   its data type covers, and leaves everything else of the other store alone.
   */
  lemma PackThenUnpack(ms: seq<SMmap>, st: Store, image: seq<uint64>, packed: seq<uint64>, other: Store, after: Store)
    requires AllMovable(ms, st, |image|) && AllMovable(ms, other, |image|)
    requires DisjointSlots(ms) && Compatible(ms)
    requires IsPacked(ms, |ms|, st, image, packed)
    requires IsUnpacked(ms, |ms|, packed, other, after)
    ensures forall k, b: nat | 0 <= k < |ms| && ms[k].obj.Some? && b < 8 * CellLength(ms[k]) ::
              CellBit(after, ms[k].obj.value.data.value, b) ==
              (b < SlotLength(ms[k]) && CellBit(st, ms[k].obj.value.data.value, b))
    ensures forall c: nat, b: nat | c < |other| && b < 8 * |other[c]|
                                    && (forall k | 0 <= k < |ms| :: !WritesTo(ms[k], c, b)) ::
              CellBit(after, c, b) == CellBit(other, c, b)
    ensures forall i: nat | i < 64 * |image| && (forall k | 0 <= k < |ms| :: !Covers(ms[k], i)) ::
              FlatBit(packed, i) == FlatBit(image, i)
  {
    forall k, b: nat | 0 <= k < |ms| && ms[k].obj.Some? && b < 8 * CellLength(ms[k])
      ensures CellBit(after, ms[k].obj.value.data.value, b) ==
              (b < SlotLength(ms[k]) && CellBit(st, ms[k].obj.value.data.value, b))
    {
      RestoredBit(ms, st, image, packed, other, after, k, b);
    }
    forall c: nat, b: nat | c < |other| && b < 8 * |other[c]|
                            && (forall k | 0 <= k < |ms| :: !WritesTo(ms[k], c, b))
      ensures CellBit(after, c, b) == CellBit(other, c, b)
    {
      UnpackedUntouched(ms, |ms|, other, packed, c, b);
    }
    forall i: nat | i < 64 * |image| && (forall k | 0 <= k < |ms| :: !Covers(ms[k], i))
      ensures FlatBit(packed, i) == FlatBit(image, i)
    {
      PackedPadding(ms, |ms|, st, image, i);
    }
  }

  lemma RestoredBit(ms: seq<SMmap>, st: Store, image: seq<uint64>, packed: seq<uint64>, other: Store, after: Store,
                    k: nat, b: nat)
    requires AllMovable(ms, st, |image|) && AllMovable(ms, other, |image|)
    requires DisjointSlots(ms) && Compatible(ms)
    requires IsPacked(ms, |ms|, st, image, packed)
    requires IsUnpacked(ms, |ms|, packed, other, after)
    requires k < |ms| && ms[k].obj.Some? && b < 8 * CellLength(ms[k])
    ensures CellBit(after, ms[k].obj.value.data.value, b) ==
            (b < SlotLength(ms[k]) && CellBit(st, ms[k].obj.value.data.value, b))
  {
    var c := ms[k].obj.value.data.value;
    assert Movable(ms[k], other, |image|) && Movable(ms[k], st, |image|);
    assert WritesTo(ms[k], c, b);
    var w := UnpackedWriter(ms, |ms|, other, packed, c, b);
    assert Movable(ms[w], other, |image|);
    assert SlotLength(ms[w]) == SlotLength(ms[k]);
    if b < SlotLength(ms[w]) {
      PackedSlot(ms, |ms|, st, image, w, SlotStart(ms[w]) + b);
    }
  }

  /** In terms of values: unpacking gives back the packed value modulo 2 to the mapped length. */
  lemma PackThenUnpackValue(ms: seq<SMmap>, st: Store, image: seq<uint64>, packed: seq<uint64>, other: Store,
                            after: Store, k: nat)
    requires AllMovable(ms, st, |image|) && AllMovable(ms, other, |image|) && Packable(ms)
    requires DisjointSlots(ms) && Compatible(ms)
    requires IsPacked(ms, |ms|, st, image, packed)
    requires IsUnpacked(ms, |ms|, packed, other, after)
    requires k < |ms| && ms[k].obj.Some? && ms[k].obj.value.bitlength <= 64
    ensures InStore(ms[k].obj.value, st, CellLength(ms[k])) && InStore(ms[k].obj.value, after, CellLength(ms[k]))
    ensures GetValue(ms[k].obj.value, after) == GetValue(ms[k].obj.value, st) % Pow2(ms[k].obj.value.bitlength)
  {
    var e := ms[k].obj.value;
    assert Movable(ms[k], st, |image|) && Movable(ms[k], other, |image|);
    PackThenUnpack(ms, st, image, packed, other, after);
    var v, r := GetValue(e, st), GetValue(e, after);
    Pow2At64();
    forall b: nat {:trigger Bit(r, b)} | b < 64
      ensures Bit(r, b) == Bit(v % Pow2(e.bitlength), b)
    {
      BitMod(v, e.bitlength, b);
      if b < 8 * CellLength(ms[k]) {
        assert CellBit(after, e.data.value, b) == (b < SlotLength(ms[k]) && CellBit(st, e.data.value, b));
      }
    }
    if e.bitlength < 64 { Pow2Less(e.bitlength, 64); }
    SameBits(r, v % Pow2(e.bitlength), 64);
  }

  /** Unpacking an image and packing the result back restores every mapped bit that its data type can hold. */
  lemma UnpackThenPack(ms: seq<SMmap>, image: seq<uint64>, st: Store, after: Store, other: seq<uint64>, packed: seq<uint64>,
                       k: nat, i: nat)
    requires |other| == |image| && AllMovable(ms, st, |image|) && AllMovable(ms, after, |image|)
    requires DisjointSlots(ms)
    requires forall j, l | 0 <= j < l < |ms| && ms[j].obj.Some? && ms[l].obj.Some? ::
               ms[j].obj.value.data != ms[l].obj.value.data
    requires IsUnpacked(ms, |ms|, image, st, after)
    requires IsPacked(ms, |ms|, after, other, packed)
    requires k < |ms| && i < 64 * |image| && Covers(ms[k], i)
    ensures FlatBit(packed, i) == (i - SlotStart(ms[k]) < 8 * CellLength(ms[k]) && FlatBit(image, i))
  {
    var b := i - SlotStart(ms[k]);
    PackedSlot(ms, |ms|, after, other, k, i);
    assert Movable(ms[k], st, |image|);
    if b < 8 * CellLength(ms[k]) {
      var c := ms[k].obj.value.data.value;
      assert WritesTo(ms[k], c, b);
      var w := UnpackedWriter(ms, |ms|, st, image, c, b);
      assert w == k;
    }
  }

  // Why the lists that sizeOfPDO builds are fit for this

  /** Every mapped entry is as long as its mapping says, and long entries sit on byte boundaries. */
  ghost predicate WellMapped(d: Dictionary, vals: seq<uint32>) {
    && (forall k | 0 <= k < |vals| :: Resolves(d, vals[k]))
    && (forall k | 0 <= k < |vals| && !IsPadding(vals[k]) :: MappedLengthFits(d, vals[k], BitOffset(vals, k)))
  }

  ghost predicate MappedLengthFits(d: Dictionary, v: uint32, offset: nat)
    requires Resolves(d, v) && !IsPadding(v)
  {
    var e := LineFor(d, v, offset).obj.value;
    && e.bitlength == MapBits(v) > 0
    && (e.bitlength > 64 ==> offset % 8 == 0 && e.bitlength % 8 == 0)
  }

  lemma LayoutIsDisjoint(d: Dictionary, vals: seq<uint32>, ms: seq<SMmap>)
    requires WellMapped(d, vals) && IsLayout(d, vals, ms)
    ensures DisjointSlots(ms)
    ensures forall k | 0 <= k < |ms| && ms[k].obj.Some? ::
              && SlotStart(ms[k]) == BitOffset(vals, k) && SlotLength(ms[k]) == MapBits(vals[k]) > 0
              && SlotStart(ms[k]) + SlotLength(ms[k]) <= BitOffset(vals, |vals|)
  {
    forall k | 0 <= k < |ms| && ms[k].obj.Some?
      ensures SlotStart(ms[k]) == BitOffset(vals, k) && SlotLength(ms[k]) == MapBits(vals[k]) > 0
      ensures SlotStart(ms[k]) + SlotLength(ms[k]) <= BitOffset(vals, |vals|)
    {
      LinePlace(d, vals[k], BitOffset(vals, k), ms[k]);
      OffsetsGrow(vals, k, |vals|);
    }
    forall j, k, i | 0 <= j < k < |ms|
      ensures !(Covers(ms[j], i) && Covers(ms[k], i))
    {
      OffsetsGrow(vals, j, k);
    }
  }

  /** A list whose total fits the image stays inside it. */
  lemma LayoutFits(d: Dictionary, vals: seq<uint32>, ms: seq<SMmap>, st: Store, words: nat)
    requires WellMapped(d, vals) && IsLayout(d, vals, ms) && BitOffset(vals, |vals|) <= 64 * words
    requires forall k | 0 <= k < |ms| && ms[k].obj.Some? :: InStore(ms[k].obj.value, st, CellLength(ms[k]))
    ensures AllMovable(ms, st, words)
  {
    hide WellMapped, IsLayout;
    LayoutIsDisjoint(d, vals, ms);
  }

  /**
   For the list that sizeOfPDO builds from a well-formed mapping: packing and
   unpacking it restores every mapped value modulo 2 to its mapped length, and
   leaves the bits of the image that no entry covers alone.
   */
  lemma MappedRoundTrip(d: Dictionary, vals: seq<uint32>, ms: seq<SMmap>, st: Store, image: seq<uint64>,
                        packed: seq<uint64>, other: Store, after: Store, k: nat)
    requires WellMapped(d, vals) && IsLayout(d, vals, ms)
    requires AllMovable(ms, st, |image|) && AllMovable(ms, other, |image|) && Packable(ms) && Compatible(ms)
    requires IsPacked(ms, |ms|, st, image, packed) && IsUnpacked(ms, |ms|, packed, other, after)
    requires k < |ms| && ms[k].obj.Some? && ms[k].obj.value.bitlength <= 64
    ensures InStore(ms[k].obj.value, st, CellLength(ms[k])) && InStore(ms[k].obj.value, after, CellLength(ms[k]))
    ensures GetValue(ms[k].obj.value, after) == GetValue(ms[k].obj.value, st) % Pow2(MapBits(vals[k]))
    ensures forall i: nat | i < 64 * |image| && (forall j | 0 <= j < |ms| :: !Covers(ms[j], i)) ::
              FlatBit(packed, i) == FlatBit(image, i)
  {
    hide WellMapped, IsPacked, IsUnpacked, AllMovable, Compatible, DisjointSlots, Packable;
    LayoutIsDisjoint(d, vals, ms);
    PackThenUnpackValue(ms, st, image, packed, other, after, k);
    PackThenUnpack(ms, st, image, packed, other, after);
  }

  lemma LinePlace(d: Dictionary, v: uint32, offset: nat, line: SMmap)
    requires IsLine(d, v, offset, line) && line.obj.Some?
    requires !IsPadding(v) ==> MappedLengthFits(d, v, offset)
    ensures SlotStart(line) == offset && SlotLength(line) == MapBits(v) > 0
  {
  }

  /** An entry longer than 64 bits is moved at its own place exactly when it starts and ends on a byte boundary. */
  lemma LongSlotPlace(m: SMmap)
    requires m.obj.Some? && m.obj.value.bitlength > 64
    ensures (SlotStart(m) == m.offset && SlotLength(m) == m.obj.value.bitlength) <==>
            (m.offset % 8 == 0 && m.obj.value.bitlength % 8 == 0)
  {
  }
}
