/**
 Process data by data type: every bit of a mapped variable is at its place in
 the image, for entries as long as the standard makes their data type.
 */
module ProcessTypes {
  import opened Words
  import opened BitSlice
  import opened ObjectDictionary
  import opened PdoMapping
  import opened ProcessData

  /** Length of a base data type in bits (base data types of ETG.1020), or 0 for any other type. */
  function StandardBits(dtype: nat): nat {
    match dtype
    case 0x01 => 1 // BOOLEAN
    case 0x02 => 8 // INTEGER8
    case 0x03 => 16 // INTEGER16
    case 0x04 => 32 // INTEGER32
    case 0x05 => 8 // UNSIGNED8
    case 0x06 => 16 // UNSIGNED16
    case 0x07 => 32 // UNSIGNED32
    case 0x08 => 32 // REAL32
    case 0x11 => 64 // REAL64
    case 0x15 => 64 // INTEGER64
    case 0x1B => 64 // UNSIGNED64
    case 0x2D => 8 // BITARR8
    case 0x2E => 16 // BITARR16
    case 0x2F => 32 // BITARR32
    case 0x30 => 1 // BIT1 to BIT8
    case 0x31 => 2
    case 0x32 => 3
    case 0x33 => 4
    case 0x34 => 5
    case 0x35 => 6
    case 0x36 => 7
    case 0x37 => 8
    case _ => 0
  }

  /** The entry has the length of its data type, or is a longer one on byte boundaries. */
  predicate Standard(m: SMmap) {
    m.obj.Some? ==>
      var e := m.obj.value;
      && (e.bitlength > 64 ==> e.bitlength % 8 == 0 && m.offset % 8 == 0)
      && (e.bitlength <= 64 ==> e.bitlength == StandardBits(e.dtype) > 0)
  }

  /** The mapped bits are in the image, and the variable has room for them. */
  predicate Placed(m: SMmap, st: Store, words: nat) {
    m.obj.Some? ==>
      var e := m.obj.value;
      && m.offset + e.bitlength <= 64 * words
      && e.data.Some? && e.data.value < |st| && e.bitlength <= 8 * |st[e.data.value]|
  }

  ghost predicate AllStandard(ms: seq<SMmap>, st: Store, words: nat) {
    forall k | 0 <= k < |ms| :: Standard(ms[k]) && Placed(ms[k], st, words)
  }

  /** No two lines share bits of the image, or a variable. */
  ghost predicate Apart(ms: seq<SMmap>) {
    forall j, k | 0 <= j < k < |ms| && ms[j].obj.Some? && ms[k].obj.Some? ::
      && ms[j].obj.value.data != ms[k].obj.value.data
      && (ms[j].offset + ms[j].obj.value.bitlength <= ms[k].offset
          || ms[k].offset + ms[k].obj.value.bitlength <= ms[j].offset)
  }

  /** The bytes that are read and written are those the data type needs. */
  lemma BytesOfType(m: SMmap)
    requires Standard(m) && m.obj.Some?
    ensures SlotStart(m) == m.offset && SlotLength(m) == m.obj.value.bitlength
    ensures CellLength(m) == BitsToBytes(m.obj.value.bitlength) > 0
  {
  }

  lemma StandardMoves(ms: seq<SMmap>, st: Store, words: nat)
    requires AllStandard(ms, st, words)
    ensures AllMovable(ms, st, words) && Packable(ms)
    ensures Apart(ms) ==> DisjointSlots(ms)
  {
    forall k | 0 <= k < |ms| && ms[k].obj.Some?
      ensures Movable(ms[k], st, words) && CellLength(ms[k]) > 0
      ensures SlotStart(ms[k]) == ms[k].offset && SlotLength(ms[k]) == ms[k].obj.value.bitlength
    {
      BytesOfType(ms[k]);
    }
  }

  /** Packing: every bit of every mapped variable is in the image, at the line's offset. */
  lemma VariableIsPacked(ms: seq<SMmap>, st: Store, image: seq<uint64>, packed: seq<uint64>, k: nat, b: nat)
    requires AllStandard(ms, st, |image|) && Apart(ms) && AllMovable(ms, st, |image|)
    requires IsPacked(ms, |ms|, st, image, packed)
    requires k < |ms| && ms[k].obj.Some? && b < ms[k].obj.value.bitlength
    ensures |packed| == |image|
    ensures FlatBit(packed, ms[k].offset + b) == CellBit(st, ms[k].obj.value.data.value, b)
  {
    hide StandardBits;
    StandardMoves(ms, st, |image|);
    BytesOfType(ms[k]);
    PackedSlot(ms, |ms|, st, image, k, ms[k].offset + b);
  }

  /**
   Unpacking: every bit of every mapped variable is the image's, the rest of the
   bytes of its data type is zero, and what lies behind them stays.
   */
  lemma VariableIsUnpacked(ms: seq<SMmap>, image: seq<uint64>, st: Store, after: Store, k: nat, b: nat)
    requires AllStandard(ms, st, |image|) && Apart(ms) && AllMovable(ms, st, |image|)
    requires IsUnpacked(ms, |ms|, image, st, after)
    requires k < |ms| && ms[k].obj.Some? && b < 8 * |st[ms[k].obj.value.data.value]|
    ensures var e := ms[k].obj.value;
            && SameSizes(st, after)
            && CellBit(after, e.data.value, b) ==
               if b < e.bitlength then FlatBit(image, ms[k].offset + b)
               else b >= 8 * BitsToBytes(e.bitlength) && CellBit(st, e.data.value, b)
  {
    hide StandardBits;
    BytesOfType(ms[k]);
    var c := ms[k].obj.value.data.value;
    if WritesTo(ms[k], c, b) {
      var w := UnpackedWriter(ms, |ms|, st, image, c, b);
      assert w == k;
    } else {
      UnpackedUntouched(ms, |ms|, st, image, c, b);
    }
  }
}
