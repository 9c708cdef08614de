/**
 The data of the galvo controller in numbers: where each bit of the variables
 of 0x6000 and 0x7000 is in the images, and the identity object as one block.
 */
module GalvoData {
  import opened Words
  import opened Bytes
  import opened BitSlice
  import opened ObjectDictionary
  import opened PdoMapping
  import opened ProcessData
  import opened ProcessTypes
  import opened CompleteAccess
  import opened CompleteAccessRoundTrip
  import opened BlockLayout
  import opened Galvo

  /** The variables of the process data objects have at least the sizes of their declarations. */
  predicate Variables(st: Store) {
    |st| == 22 && |st[5]| >= 2 && |st[15]| >= 2 && |st[21]| >= 2
    && (forall c | 6 <= c <= 14 :: |st[c]| >= 4) && (forall c | 16 <= c <= 20 :: |st[c]| >= 4)
  }

  /** Bit position of entry k + 1: 16 bits for the first entry, 32 for each other one before it. */
  function BitAt(k: nat): nat { if k == 0 then 0 else 32 * k - 16 }

  ghost function RxLines(): (ms: seq<SMmap>)
    ensures |ms| == 7
  {
    RxWellMapped();
    LayoutOf(SDO_OBJECTS, RX_VALUES)
  }

  ghost function TxLines(): (ms: seq<SMmap>)
    ensures |ms| == 10
  {
    TxWellMapped();
    LayoutOf(SDO_OBJECTS, TX_VALUES)
  }

  lemma RxLine(k: nat)
    requires k < 7
    ensures RxLines()[k] == SMmap(Some(OBJ7000[k + 1]), Some(8), BitAt(k))
  {
    RxWellMapped();
    RxResolves(k);
    Positions();
    RxOffsets();
    hide ObjectNo, EntryNo, MapIndex, MapSub, MapBits, IsPadding, WellMapped, BitOffset, Resolves, RX_VALUES, WellFormed;
    assert IsLine(SDO_OBJECTS, RX_VALUES[k], BitOffset(RX_VALUES, k), RxLines()[k]);
  }

  lemma TxLine(k: nat)
    requires k < 10
    ensures TxLines()[k] == SMmap(Some(OBJ6000[k + 1]), Some(7), BitAt(k))
  {
    TxWellMapped();
    TxResolves(k);
    Positions();
    TxOffsets();
    hide ObjectNo, EntryNo, MapIndex, MapSub, MapBits, IsPadding, WellMapped, BitOffset, Resolves, TX_VALUES, WellFormed;
    assert IsLine(SDO_OBJECTS, TX_VALUES[k], BitOffset(TX_VALUES, k), TxLines()[k]);
  }

  lemma RxStandard(st: Store, words: nat)
    requires Variables(st) && 192 <= 64 * words
    ensures AllStandard(RxLines(), st, words) && Apart(RxLines())
  {
    hide RxLines, StandardBits;
    forall k | 0 <= k < 7 ensures Standard(RxLines()[k]) && Placed(RxLines()[k], st, words) {
      RxLine(k);
      StandardEntry(OBJ7000[k + 1]);
    }
    forall j, k | 0 <= j < k < 7
      ensures RxLines()[j].obj.Some? && RxLines()[k].obj.Some?
      ensures RxLines()[j].obj.value.data != RxLines()[k].obj.value.data
      ensures RxLines()[j].offset + RxLines()[j].obj.value.bitlength <= RxLines()[k].offset
    {
      RxLine(j);
      RxLine(k);
    }
  }

  lemma StandardEntry(e: Entry)
    requires (e.dtype == 0x04 && e.bitlength == 32) || (e.dtype == 0x06 && e.bitlength == 16) || (e.dtype == 0x07 && e.bitlength == 32)
    ensures StandardBits(e.dtype) == e.bitlength
  {
  }

  lemma TxStandard(st: Store, words: nat)
    requires Variables(st) && 304 <= 64 * words
    ensures AllStandard(TxLines(), st, words) && Apart(TxLines())
  {
    hide TxLines, StandardBits;
    forall k | 0 <= k < 10 ensures Standard(TxLines()[k]) && Placed(TxLines()[k], st, words) {
      TxLine(k);
      StandardEntry(OBJ6000[k + 1]);
    }
    forall j, k | 0 <= j < k < 10
      ensures TxLines()[j].obj.Some? && TxLines()[k].obj.Some?
      ensures TxLines()[j].obj.value.data != TxLines()[k].obj.value.data
      ensures TxLines()[j].offset + TxLines()[j].obj.value.bitlength <= TxLines()[k].offset
    {
      TxLine(j);
      TxLine(k);
    }
  }

  // Inputs: the variables of 0x6000

  function BitsOf(k: nat): nat { if k == 0 then 16 else 32 }

  /** All bits of variable k are in the packed image. */
  lemma InputsPacked(st: Store, image: seq<uint64>, packed: seq<uint64>, k: nat, b: nat)
    requires Variables(st) && 304 <= 64 * |image| && k < 10 && b < BitsOf(k)
    requires AllMovable(TxLines(), st, |image|) && IsPacked(TxLines(), 10, st, image, packed)
    ensures |packed| == |image| && FlatBit(packed, BitAt(k) + b) == CellBit(st, 5 + k, b)
  {
    hide TxLines, IsPacked;
    TxStandard(st, |image|);
    TxLine(k);
    VariableIsPacked(TxLines(), st, image, packed, k, b);
  }

  /** Unpacked, the image's bits are in the variable, and what lies behind them stays. */
  lemma InputsUnpacked(image: seq<uint64>, st: Store, after: Store, k: nat, b: nat)
    requires Variables(st) && 304 <= 64 * |image| && k < 10 && b < 8 * |st[5 + k]|
    requires AllMovable(TxLines(), st, |image|) && IsUnpacked(TxLines(), 10, image, st, after)
    ensures SameSizes(st, after)
    ensures CellBit(after, 5 + k, b) == if b < BitsOf(k) then FlatBit(image, BitAt(k) + b) else CellBit(st, 5 + k, b)
  {
    hide TxLines, IsUnpacked;
    TxStandard(st, |image|);
    TxLine(k);
    VariableIsUnpacked(TxLines(), image, st, after, k, b);
  }

  /** The bits of a quotient by a power of two. */
  lemma {:induction false} BitAbove(w: nat, q: nat, r: nat, b: nat, k: nat)
    requires w == q * Pow2(b) + r && r < Pow2(b)
    ensures Bit(q, k) == Bit(w, k + b)
  {
    if b > 0 {
      MulTwice(q, Pow2(b - 1));
      assert w == 2 * (q * Pow2(b - 1)) + r;
      assert w / 2 == q * Pow2(b - 1) + r / 2;
      BitAbove(w / 2, q, r / 2, b - 1, k);
    }
  }

  lemma FourBytes(bs: seq<byte>)
    requires |bs| == 4
    ensures FromBytes(bs) ==
            bs[0] + 0x100 * (bs[1] as nat) + 0x1_0000 * (bs[2] as nat) + 0x100_0000 * (bs[3] as nat)
  {
    assert FromBytes(bs[3..]) == bs[3] as nat;
    assert bs[1..][1..] == bs[2..] && bs[2..][1..] == bs[3..];
  }

  lemma Powers()
    ensures Pow2(16) == 0x1_0000 && Pow2(32) == 0x1_0000_0000
  {
    Pow2At8();
    Pow2Add(8, 8);
    Pow2Add(16, 16);
  }

  /** As a number: Start X, 0x6000:02, is the 32 bits of the first word behind the status word, lowest byte first. */
  lemma StartXPacked(st: Store, image: seq<uint64>, packed: seq<uint64>)
    requires Variables(st) && 304 <= 64 * |image|
    requires AllMovable(TxLines(), st, |image|) && IsPacked(TxLines(), 10, st, image, packed)
    ensures |packed| == |image|
    ensures var x := st[6];
            packed[0] / 0x1_0000 % 0x1_0000_0000 ==
            x[0] + 0x100 * (x[1] as nat) + 0x1_0000 * (x[2] as nat) + 0x100_0000 * (x[3] as nat)
  {
    hide TxLines, IsPacked, AllMovable, Pow2, Bit, FromBytes;
    InputsPacked(st, image, packed, 1, 0);
    Powers();
    var bs := st[6][..4];
    NumberBits(bs);
    FourBytes(bs);
    var v := packed[0] / 0x1_0000 % 0x1_0000_0000;
    forall k: nat {:trigger Bit(v, k)} | k < 32 ensures Bit(v, k) == Bit(FromBytes(bs), k) {
      BitMod(packed[0] / 0x1_0000, 32, k);
      BitAbove(packed[0], packed[0] / 0x1_0000, packed[0] % 0x1_0000, 16, k);
      InputsPacked(st, image, packed, 1, k);
    }
    SameBits(v, FromBytes(bs), 32);
  }

  // Outputs: the variables of 0x7000, of which the last one is short, too

  function OutputBits(k: nat): nat { if k in {0, 6} then 16 else 32 }

  lemma OutputsPacked(st: Store, image: seq<uint64>, packed: seq<uint64>, k: nat, b: nat)
    requires Variables(st) && 192 <= 64 * |image| && k < 7 && b < OutputBits(k)
    requires AllMovable(RxLines(), st, |image|) && IsPacked(RxLines(), 7, st, image, packed)
    ensures |packed| == |image| && FlatBit(packed, BitAt(k) + b) == CellBit(st, 15 + k, b)
  {
    hide RxLines, IsPacked;
    RxStandard(st, |image|);
    RxLine(k);
    VariableIsPacked(RxLines(), st, image, packed, k, b);
  }

  lemma OutputsUnpacked(image: seq<uint64>, st: Store, after: Store, k: nat, b: nat)
    requires Variables(st) && 192 <= 64 * |image| && k < 7 && b < 8 * |st[15 + k]|
    requires AllMovable(RxLines(), st, |image|) && IsUnpacked(RxLines(), 7, image, st, after)
    ensures SameSizes(st, after)
    ensures CellBit(after, 15 + k, b) ==
            if b < OutputBits(k) then FlatBit(image, BitAt(k) + b) else CellBit(st, 15 + k, b)
  {
    hide RxLines, IsUnpacked;
    RxStandard(st, |image|);
    RxLine(k);
    VariableIsUnpacked(RxLines(), image, st, after, k, b);
  }

  // Complete access to the identity object

  lemma IdentityStarts(j: nat)
    requires j <= 5
    ensures StartOf(SDO_OBJECTS[2], 0, j) == (if j == 0 then 0 else 32 * j - 16)
    ensures j >= 1 ==> StartOf(SDO_OBJECTS[2], 1, j) == 32 * j - 32
  {
    var o := SDO_OBJECTS[2];
    if j == 0 {
    } else if j == 1 {
      assert BitSum(o, 1, 1) == 0;
    } else {
      IdentityStarts(j - 1);
      assert BitSum(o, 1, j) == BitSum(o, 1, j - 1) + 32;
    }
  }

  /** 18 bytes with subindex 0, which takes two of them, and 16 without. */
  lemma IdentitySize()
    ensures ByteEntries(SDO_OBJECTS[2]) && Fixed(SDO_OBJECTS[2])
    ensures LoopSize(SDO_OBJECTS[2], 0, 0) == 8 * 18 && LoopSize(SDO_OBJECTS[2], 1, 0) == 8 * 16
  {
    IdentityStarts(5);
    LayoutIs(SDO_OBJECTS[2], 0, 0);
    LayoutIs(SDO_OBJECTS[2], 1, 1);
  }

  const IDENTITY: seq<byte> := [4, 0, 0, 0, 0, 0, 1, 0, 0, 0, 1, 0, 0, 0, 0, 0, 0, 0]

  lemma Readable(state: nat)
    requires state in {2, 4, 8}
    ensures ReadAccess(0x07, state)
  {
    assert Bit(0x07, 0) && Bit(0x07, 1) && Bit(0x07, 2);
  }

  lemma TheObject()
    ensures |SDO_OBJECTS| == 10 && SDO_OBJECTS[2].entries == OBJ1018 && |OBJ1018| == 5 && |IDENTITY| == 18
  {
  }

  lemma IdentityBytes(j: nat, i: nat)
    requires j < 5 && i < (if j == 0 then 1 else 4)
    ensures var e := OBJ1018[j];
            && e.flags == 0x07 && e.data.None? && i < BitsToBytes(e.bitlength)
            && [e.value % 0x100, e.value / 0x100 % 0x100, e.value / 0x1_0000 % 0x100, e.value / 0x100_0000 % 0x100][i]
               == IDENTITY[(if j == 0 then 0 else 4 * j - 2) + i]
  {
    match j
    case 0 =>
    case 1 =>
    case 2 =>
    case 3 =>
    case 4 =>
  }

  /** Entry j of the identity object, byte by byte. */
  lemma IdentityEntry(state: nat, w: Work, j: nat, i: nat)
    requires state in {2, 4, 8} && CanLoad(SDO_OBJECTS[2], 0, Upload, 0, w) && j < 5 && i < (if j == 0 then 1 else 4)
    ensures var at := if j == 0 then 0 else 4 * j - 2;
            at + i < |LoopResult(SDO_OBJECTS[2], state, 0, Upload, 0, w).block|
            && LoopResult(SDO_OBJECTS[2], state, 0, Upload, 0, w).block[at + i] == IDENTITY[at + i]
  {
    hide LoopResult, CanLoad, StartOf, ReadAccess, OBJ1018, SDO_OBJECTS, IDENTITY;
    TheObject();
    IdentitySize();
    UploadedBlock(SDO_OBJECTS[2], state, 0, w, j);
    IdentityStarts(j);
    Readable(state);
    IdentityBytes(j, i);
  }

  /** The block: number of entries, padding, vendor, product, revision and serial number. */
  lemma IdentityBlock(state: nat, w: Work)
    requires state in {2, 4, 8} && CanLoad(SDO_OBJECTS[2], 0, Upload, 0, w)
    ensures |LoopResult(SDO_OBJECTS[2], state, 0, Upload, 0, w).block| >= 18
    ensures LoopResult(SDO_OBJECTS[2], state, 0, Upload, 0, w).block[..18] == IDENTITY
  {
    hide LoopResult, CanLoad, SDO_OBJECTS, StartOf, IDENTITY;
    TheObject();
    IdentitySize();
    Padding(state, w);
    IdentityEntry(state, w, 4, 3);
    var block := LoopResult(SDO_OBJECTS[2], state, 0, Upload, 0, w).block;
    assert |block| >= 18;
    forall x | 0 <= x < 18 ensures block[x] == IDENTITY[x] {
      if x != 1 { IdentityEntry(state, w, (x + 2) / 4, if x == 0 then 0 else (x + 2) % 4); }
    }
  }

  lemma Padding(state: nat, w: Work)
    requires CanLoad(SDO_OBJECTS[2], 0, Upload, 0, w)
    ensures |LoopResult(SDO_OBJECTS[2], state, 0, Upload, 0, w).block| >= 2
    ensures |IDENTITY| == 18 && LoopResult(SDO_OBJECTS[2], state, 0, Upload, 0, w).block[1] == IDENTITY[1]
  {
    hide LoopResult, CanLoad, StartOf, ShowsEntry;
    IdentitySize();
    UploadedBlock(SDO_OBJECTS[2], state, 0, w, 0);
    IdentityStarts(5);
  }
}
