/**
 Values of up to 64 bits stored in an array of 64-bit words, possibly across
 a word boundary (COE_bitsliceGet and COE_bitsliceSet).
 */
module BitSlice {
  import opened Words

  /** Bit i of the array read as one long sequence of bits. */
  predicate FlatBit(ws: seq<uint64>, i: nat)
    requires i < 64 * |ws|
  {
    Bit(ws[i / 64], i % 64)
  }

  /** The slice [offset, offset + length) starts and ends inside the array. */
  predicate SliceFits(words: nat, offset: nat, length: nat) {
    length <= 64 && offset < 64 * words && offset + length <= 64 * words
  }

  /** r holds exactly the bits of the slice. */
  ghost predicate IsSlice(ws: seq<uint64>, offset: nat, length: nat, r: nat)
    requires SliceFits(|ws|, offset, length)
  {
    r < Pow2(length) && forall k: nat | k < length :: Bit(r, k) == FlatBit(ws, offset + k)
  }

  /** after is before with the slice replaced by the low bits of value. */
  ghost predicate SliceReplaced(before: seq<uint64>, after: seq<uint64>, offset: nat, length: nat, value: nat)
    requires SliceFits(|before|, offset, length)
  {
    |after| == |before| &&
    forall i: nat | i < 64 * |before| ::
      FlatBit(after, i) == if offset <= i < offset + length then Bit(value, i - offset) else FlatBit(before, i)
  }

  method BitsliceGet(bitmap: array<uint64>, offset: nat, length: nat) returns (r: uint64)
    requires SliceFits(bitmap.Length, offset, length)
    ensures IsSlice(bitmap[..], offset, length, r)
  {
    var wordOffset := offset / 64;
    var bitOffset := offset % 64;
    var mask := Mask(length);
    var w0: uint64 := Shr(bitmap[wordOffset], bitOffset);
    var w1: uint64 := 0;
    if length + bitOffset > 64 {
      w1 := Shl(bitmap[wordOffset + 1], 64 - bitOffset);
    }
    Pow2At64();
    OrBound(w1, w0, 64);
    r := And(Or(w1, w0), mask);
    MaskIsMod(Or(w1, w0), length);
    forall k: nat | k < length
      ensures Bit(r, k) == FlatBit(bitmap[..], offset + k)
    {
      var next := if length + bitOffset > 64 then bitmap[wordOffset + 1] else 0;
      SliceBit(bitmap[wordOffset], next, w1, bitOffset, length, k);
      SliceIndex(offset, k);
    }
  }

  lemma SliceIndex(offset: nat, k: nat)
    requires k < 64
    ensures offset % 64 + k < 64 ==> (offset + k) / 64 == offset / 64 && (offset + k) % 64 == offset % 64 + k
    ensures offset % 64 + k >= 64 ==> (offset + k) / 64 == offset / 64 + 1 && (offset + k) % 64 == offset % 64 + k - 64
  {
  }

  /** Bit k of the word that BitsliceGet puts together from one or two words. */
  lemma SliceBit(word: uint64, next: uint64, w1: uint64, bitOffset: nat, length: nat, k: nat)
    requires bitOffset < 64 && k < length <= 64
    requires w1 == if length + bitOffset > 64 then Shl(next, 64 - bitOffset) else 0
    ensures Bit(And(Or(w1, Shr(word, bitOffset)), Mask(length)), k) ==
            if k + bitOffset < 64 then Bit(word, k + bitOffset) else Bit(next, k + bitOffset - 64)
  {
    BitAnd(Or(w1, Shr(word, bitOffset)), Mask(length), k);
    BitMask(length, k);
    BitOr(w1, Shr(word, bitOffset), k);
    BitShr(word, bitOffset, k);
    BitOfZero(k);
    if length + bitOffset > 64 {
      BitShl(next, 64 - bitOffset, k);
    }
    if k + bitOffset >= 64 {
      Pow2At64();
      NoHighBits(word, 64, k + bitOffset);
    }
  }

  method BitsliceSet(bitmap: array<uint64>, offset: nat, length: nat, value: uint64)
    requires SliceFits(bitmap.Length, offset, length)
    modifies bitmap
    ensures SliceReplaced(old(bitmap[..]), bitmap[..], offset, length, value)
  {
    var wordOffset := offset / 64;
    var bitOffset := offset % 64;
    var mask := Mask(length);
    var mask0 := Shl(mask, bitOffset);
    var v0 := Shl(value, bitOffset);
    var w0 := bitmap[wordOffset];
    bitmap[wordOffset] := Merge(w0, v0, mask0);
    forall k: nat | k < 64
      ensures Bit(Merge(w0, v0, mask0), k) ==
              if bitOffset <= k < bitOffset + length then Bit(value, k - bitOffset) else Bit(w0, k)
    {
      MergeBit(w0, v0, mask0, k);
      BitShl(mask, bitOffset, k);
      BitShl(value, bitOffset, k);
      if k >= bitOffset { BitMask(length, k - bitOffset); }
    }
    if length + bitOffset > 64 {
      var mask1: uint64 := Shr(mask, 64 - bitOffset);
      var v1: uint64 := Shr(value, 64 - bitOffset);
      var w1 := bitmap[wordOffset + 1];
      bitmap[wordOffset + 1] := Merge(w1, v1, mask1);
      forall k: nat | k < 64
        ensures Bit(Merge(w1, v1, mask1), k) ==
                if k < bitOffset + length - 64 then Bit(value, k + 64 - bitOffset) else Bit(w1, k)
      {
        MergeBit(w1, v1, mask1, k);
        BitShr(mask, 64 - bitOffset, k);
        BitShr(value, 64 - bitOffset, k);
        MaskBitAny(length, k + 64 - bitOffset);
      }
    }
  }

  /** The bits of v where mask is set, the bits of w elsewhere. */
  function Merge(w: uint64, v: uint64, mask: uint64): uint64 {
    Pow2At64();
    OrBound(And(w, Not(mask)), And(v, mask), 64);
    Or(And(w, Not(mask)), And(v, mask))
  }

  lemma MergeBit(w: uint64, v: uint64, mask: uint64, k: nat)
    requires k < 64
    ensures Bit(Merge(w, v, mask), k) == if Bit(mask, k) then Bit(v, k) else Bit(w, k)
  {
    BitOr(And(w, Not(mask)), And(v, mask), k);
    BitAnd(w, Not(mask), k);
    BitNot(mask, k);
    BitAnd(v, mask, k);
  }

  lemma MaskBitAny(n: nat, k: nat)
    requires n <= 64
    ensures Bit(Mask(n), k) == (k < n)
  {
    if k < 64 {
      BitMask(n, k);
    } else {
      Pow2At64();
      NoHighBits(Mask(n), 64, k);
    }
  }

  /** What was set is read back, reduced to the slice's length. */
  lemma GetAfterSet(before: seq<uint64>, after: seq<uint64>, offset: nat, length: nat, value: nat, r: nat)
    requires SliceFits(|before|, offset, length)
    requires SliceReplaced(before, after, offset, length, value)
    requires IsSlice(after, offset, length, r)
    ensures r == value % Pow2(length)
  {
    forall k: nat {:trigger Bit(r, k)} | k < length
      ensures Bit(r, k) == Bit(value % Pow2(length), k)
    {
      assert FlatBit(after, offset + k) == Bit(value, k);
      BitMod(value, length, k);
    }
    SameBits(r, value % Pow2(length), length);
  }

  /** Two arrays with the same flat bits are the same array. */
  lemma SameFlatBits(ws: seq<uint64>, vs: seq<uint64>)
    requires |ws| == |vs|
    requires forall i: nat | i < 64 * |ws| :: FlatBit(ws, i) == FlatBit(vs, i)
    ensures ws == vs
  {
    forall j: nat | j < |ws|
      ensures ws[j] == vs[j]
    {
      Pow2At64();
      forall k: nat {:trigger Bit(ws[j], k)} | k < 64
        ensures Bit(ws[j], k) == Bit(vs[j], k)
      {
        assert FlatBit(ws, 64 * j + k) == FlatBit(vs, 64 * j + k);
      }
      SameBits(ws[j], vs[j], 64);
    }
  }

  /** Writing two disjoint slices gives the same array in either order. */
  lemma DisjointSetsCommute(ws: seq<uint64>, o1: nat, l1: nat, v1: nat, o2: nat, l2: nat, v2: nat,
                            a: seq<uint64>, ab: seq<uint64>, b: seq<uint64>, ba: seq<uint64>)
    requires SliceFits(|ws|, o1, l1) && SliceFits(|ws|, o2, l2)
    requires o1 + l1 <= o2 || o2 + l2 <= o1
    requires SliceReplaced(ws, a, o1, l1, v1) && SliceReplaced(a, ab, o2, l2, v2)
    requires SliceReplaced(ws, b, o2, l2, v2) && SliceReplaced(b, ba, o1, l1, v1)
    ensures ab == ba
  {
    forall i: nat | i < 64 * |ws|
      ensures FlatBit(ab, i) == FlatBit(ba, i)
    {
      assert FlatBit(a, i) == if o1 <= i < o1 + l1 then Bit(v1, i - o1) else FlatBit(ws, i);
      assert FlatBit(b, i) == if o2 <= i < o2 + l2 then Bit(v2, i - o2) else FlatBit(ws, i);
    }
    SameFlatBits(ab, ba);
  }
}
