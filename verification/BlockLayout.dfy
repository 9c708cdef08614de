/**
 Where complete access puts each entry, in numbers: subindex 0 takes 16 bits
 unless the object is a variable, and the other entries follow one another.
 */
module BlockLayout {
  import opened Words
  import opened ObjectDictionary
  import opened SdoTransfer
  import opened CompleteAccess
  import opened CompleteAccessRoundTrip

  /** Sum of the bit lengths of entries i to j - 1. */
  function BitSum(o: Object, i: nat, j: nat): nat
    requires i <= j <= |o.entries|
  {
    if i == j then 0 else BitSum(o, i, j - 1) + o.entries[j - 1].bitlength
  }

  /** Bit position of entry j when the block starts with entry nsub; with j one past the last entry, its size. */
  function StartOf(o: Object, nsub: nat, j: nat): nat
    requires nsub <= j <= |o.entries|
  {
    if nsub == 0 && j > 0 && o.objtype != 0x0007 then 16 + BitSum(o, 1, j) else BitSum(o, nsub, j)
  }

  lemma {:induction false} StartStep(o: Object, nsub: nat, k: nat)
    requires nsub <= k < |o.entries|
    ensures StartOf(o, nsub, k + 1) ==
            StartOf(o, nsub, k) + (if k == 0 && o.objtype != 0x0007 then 16 else o.entries[k].bitlength)
  {
  }

  lemma EighthsAdd(a: nat, b: nat)
    requires a % 8 == 0 && b % 8 == 0
    ensures (a + b) % 8 == 0
  {
  }

  /** Whole bytes need no padding between entries. */
  lemma {:induction false} SumOfBytes(o: Object, i: nat, j: nat)
    requires ByteEntries(o) && i <= j <= |o.entries|
    ensures BitSum(o, i, j) % 8 == 0
  {
    if i < j {
      SumOfBytes(o, i, j - 1);
      EighthsAdd(BitSum(o, i, j - 1), o.entries[j - 1].bitlength);
    }
  }

  lemma WholeBytes(o: Object, nsub: nat, j: nat)
    requires ByteEntries(o) && nsub <= j <= |o.entries|
    ensures StartOf(o, nsub, j) % 8 == 0
  {
    SumOfBytes(o, nsub, j);
    if nsub == 0 && j > 0 { SumOfBytes(o, 1, j); }
  }

  lemma NextStart(o: Object, nsub: nat, k: nat)
    requires ByteEntries(o) && nsub <= k < |o.entries|
    ensures After(o, k, StartOf(o, nsub, k)) == StartOf(o, nsub, k + 1)
  {
    WholeBytes(o, nsub, k);
    StartStep(o, nsub, k);
  }

  lemma {:induction false} PlaceFrom(o: Object, nsub: nat, k: nat, j: nat)
    requires ByteEntries(o) && nsub <= k <= j < |o.entries|
    ensures Place(o, k, StartOf(o, nsub, k), j) == StartOf(o, nsub, j)
    decreases j - k
  {
    hide After, StartOf;
    if k < j {
      NextStart(o, nsub, k);
      PlaceFrom(o, nsub, k + 1, j);
    }
  }

  lemma {:induction false} ExtentFrom(o: Object, nsub: nat, k: nat)
    requires ByteEntries(o) && nsub <= k <= |o.entries|
    ensures Extent(o, k, StartOf(o, nsub, k), 0) == StartOf(o, nsub, |o.entries|)
    decreases |o.entries| - k
  {
    hide After, StartOf;
    if k < |o.entries| {
      NextStart(o, nsub, k);
      ExtentFrom(o, nsub, k + 1);
    }
  }

  /** Of fixed length: subindex 0 is neither a visible, nor an octet, nor a Unicode string. */
  predicate Fixed(o: Object) {
    |o.entries| > 0 && o.entries[0].dtype !in {0x09, 0x0A, 0x0B}
  }

  /** Size of the block and position of each entry, from the lengths alone. */
  lemma LayoutIs(o: Object, nsub: nat, j: nat)
    requires ByteEntries(o) && nsub <= j < |o.entries| && Fixed(o)
    ensures LoopSize(o, nsub, 0) == StartOf(o, nsub, |o.entries|)
    ensures Place(o, nsub, 0, j) == StartOf(o, nsub, j) && StartOf(o, nsub, j) % 8 == 0
  {
    ExtentFrom(o, nsub, nsub);
    PlaceFrom(o, nsub, nsub, j);
    WholeBytes(o, nsub, j);
  }

  /** The bytes of entry j: of its variable, or of its constant, lowest first; zeroes if it cannot be read now. */
  predicate ShowsEntry(bs: seq<byte>, at: nat, e: Entry, st: Store, state: nat) {
    var n := BitsToBytes(e.bitlength);
    && at + n <= |bs| && (e.data.Some? ==> e.data.value < |st| && n <= |st[e.data.value]|) && (e.data.None? ==> n <= 4)
    && forall i | 0 <= i < n ::
         bs[at + i] == (if !ReadAccess(e.flags, state) then 0
                        else match e.data
                             case Some(c) => st[c][i]
                             case None => [e.value % 0x100, e.value / 0x100 % 0x100, e.value / 0x1_0000 % 0x100,
                                           e.value / 0x100_0000 % 0x100][i])
  }

  lemma ShownBytes(bs: seq<byte>, at: nat, e: Entry, st: Store, state: nat)
    requires Backed(e, st) && at + BitsToBytes(e.bitlength) <= |bs|
    requires bs[at..at + BitsToBytes(e.bitlength)] == Shown(e, st, state)
    ensures ShowsEntry(bs, at, e, st, state)
  {
    var n := BitsToBytes(e.bitlength);
    forall i | 0 <= i < n ensures bs[at + i] == Shown(e, st, state)[i] {
      assert bs[at..at + n][i] == bs[at + i];
    }
  }

  /** An upload shows every entry there; byte 1, behind a subindex 0 of one byte, is zero. */
  lemma UploadedBlock(o: Object, state: nat, nsub: nat, w: Work, j: nat)
    requires CanLoad(o, nsub, Upload, 0, w) && ByteEntries(o) && Fixed(o) && nsub <= j < |o.entries|
    ensures var r := LoopResult(o, state, nsub, Upload, 0, w);
            && r.st == w.st && |r.block| == |w.block| && StartOf(o, nsub, |o.entries|) <= 8 * |r.block|
            && ShowsEntry(r.block, StartOf(o, nsub, j) / 8, o.entries[j], w.st, state)
            && (nsub == 0 && o.objtype != 0x0007 && o.entries[0].bitlength == 8 ==> r.block[1] == 0)
  {
    var w1 := Prepared(Upload, w);
    var r := AllLoaded(o, state, Upload, nsub, 0, 0, w1);
    LayoutIs(o, nsub, j);
    UploadShows(o, state, nsub, 0, w1, j);
    ShownBytes(r.block, StartOf(o, nsub, j) / 8, o.entries[j], w.st, state);
    UploadKeepsBelow(o, state, nsub, 0, w1);
    hide ShowsEntry, Loadable, Extent, AllLoaded, Place;
    WholeBytes(o, nsub, |o.entries|);
    if nsub == 0 && o.objtype != 0x0007 && o.entries[0].bitlength == 8 { SecondByte(o, state, w1); }
  }

  /** Nothing but the padding is at byte 1. */
  lemma SecondByte(o: Object, state: nat, w: Work)
    requires Fits(o, Upload, 0, 0, 0, w) && ByteEntries(o) && |o.entries| > 0 && o.objtype != 0x0007
    requires o.entries[0].bitlength == 8 && |w.block| >= 2
    ensures AllLoaded(o, state, Upload, 0, 0, 0, w).block[1] == w.block[1]
  {
    Round(o, state, Upload, 0, 0, w);
    var next := EntryLoaded(o.entries[0], state, 0, Upload, w);
    assert next.block[1] == w.block[1];
    assert After(o, 0, 0) == 16;
    hide ByteEntries, EntryLoaded, Fits, AllLoaded, Inside, After;
    UploadKeepsBelow(o, state, 1, 16, next);
    var r := AllLoaded(o, state, Upload, 0, 0, 0, w).block;
    assert r[1] == r[..2][1] == next.block[..2][1];
  }

  /** A download of the full length takes every writable entry from there; what its variable holds beyond stays. */
  lemma DownloadedBlock(o: Object, state: nat, nsub: nat, data: seq<byte>, w: Work, j: nat)
    requires CanLoad(o, nsub, Download(data), 0, w) && ByteEntries(o) && DistinctCells(o) && Fixed(o)
    requires nsub <= j < |o.entries| && WriteAccess(o.entries[j].flags, state)
    ensures o.entries[j].data.Some? && o.entries[j].data.value < |w.st|
    ensures var c := o.entries[j].data.value;
            var at := StartOf(o, nsub, j) / 8;
            var max := StartOf(o, nsub, |o.entries|) / 8;
            && CanLoad(o, nsub, Download(data), max, w) && at + LengthOf(o, j) <= |data| && LengthOf(o, j) <= |w.st[c]|
            && c < |LoopResult(o, state, nsub, Download(data), max, w).st|
            && LoopResult(o, state, nsub, Download(data), max, w).st[c] ==
               data[at..at + LengthOf(o, j)] + w.st[c][LengthOf(o, j)..]
  {
    LayoutIs(o, nsub, j);
    WholeBytes(o, nsub, |o.entries|);
    var max := StartOf(o, nsub, |o.entries|) / 8;
    FullLength(o, state, Download(data), nsub, 0, max, w);
    DownloadStores(o, state, nsub, 0, data, w, j);
    hide StartOf, Place, Extent, AllLoaded, Loadable, ByteEntries, DistinctCells, WriteAccess;
  }

  // A download that ends early

  lemma {:induction false} StartsGrow(o: Object, nsub: nat, i: nat, j: nat)
    requires nsub <= i <= j <= |o.entries|
    ensures StartOf(o, nsub, i) <= StartOf(o, nsub, j)
    decreases j - i
  {
    if i < j {
      StartStep(o, nsub, j - 1);
      StartsGrow(o, nsub, i, j - 1);
    }
  }

  lemma CutRound(o: Object, state: nat, nsub: nat, k: nat, data: seq<byte>, max: nat, w: Work)
    requires ByteEntries(o) && nsub <= k < |o.entries| && 0 < max && Fits(o, Download(data), k, StartOf(o, nsub, k), max, w)
    ensures Inside(o.entries[k], StartOf(o, nsub, k), Download(data), w)
    ensures StartOf(o, nsub, k) % 8 == 0 && o.entries[k].bitlength % 8 == 0
    ensures var size' := StartOf(o, nsub, k + 1);
            var next := EntryLoaded(o.entries[k], state, StartOf(o, nsub, k), Download(data), w);
            if size' / 8 >= max then AllLoaded(o, state, Download(data), k, StartOf(o, nsub, k), max, w) == next
            else
              && Fits(o, Download(data), k + 1, size', max, next)
              && AllLoaded(o, state, Download(data), k, StartOf(o, nsub, k), max, w) ==
                 AllLoaded(o, state, Download(data), k + 1, size', max, next)
  {
    LoopRound(o, state, Download(data), k, StartOf(o, nsub, k), max, w);
    NextStart(o, nsub, k);
    WholeBytes(o, nsub, k);
    WholeBytes(o, nsub, k + 1);
    hide EntryLoaded, Inside, Fits, AllLoaded, StartOf, After;
  }

  lemma {:induction false} CutKeeps(o: Object, state: nat, nsub: nat, k: nat, data: seq<byte>, max: nat, w: Work, c: nat)
    requires ByteEntries(o) && nsub <= k <= |o.entries| && 0 < max && Fits(o, Download(data), k, StartOf(o, nsub, k), max, w)
    requires c < |w.st| && !WrittenFrom(o, state, k, c)
    ensures AllLoaded(o, state, Download(data), k, StartOf(o, nsub, k), max, w).st[c] == w.st[c]
    decreases |o.entries| - k
  {
    hide StartOf;
    if k < |o.entries| {
      CutRound(o, state, nsub, k, data, max, w);
      DownloadedEntry(o.entries[k], state, StartOf(o, nsub, k), data, w);
      hide ByteEntries, EntryLoaded, Fits, AllLoaded, Inside, WriteAccess;
      if StartOf(o, nsub, k + 1) / 8 < max {
        CutKeeps(o, state, nsub, k + 1, data, max,
                 EntryLoaded(o.entries[k], state, StartOf(o, nsub, k), Download(data), w), c);
      }
    }
  }

  /**
   A download of fewer bytes writes the first entry, and each other one that
   starts before the bytes end; the rest keep what they hold.
   */
  lemma {:induction false} CutShort(o: Object, state: nat, nsub: nat, k: nat, data: seq<byte>, max: nat, w: Work, j: nat)
    requires ByteEntries(o) && DistinctCells(o) && nsub <= k <= j < |o.entries|
    requires 0 < max && Fits(o, Download(data), k, StartOf(o, nsub, k), max, w)
    requires WriteAccess(o.entries[j].flags, state)
    ensures o.entries[j].data.Some? && o.entries[j].data.value < |w.st|
    ensures var c, at := o.entries[j].data.value, StartOf(o, nsub, j) / 8;
            var after := AllLoaded(o, state, Download(data), k, StartOf(o, nsub, k), max, w).st;
            if j == k || at < max then
              at + LengthOf(o, j) <= |data| && LengthOf(o, j) <= |w.st[c]|
              && after[c] == data[at..at + LengthOf(o, j)] + w.st[c][LengthOf(o, j)..]
            else after[c] == w.st[c]
    decreases j - k
  {
    hide StartOf, ByteEntries, EntryLoaded, Fits, AllLoaded, Inside, WriteAccess, DistinctCells;
    var e := o.entries[j];
    EntryStorage(o, Download(data), k, StartOf(o, nsub, k), max, w, j, state);
    OwnCell(o, k, j);
    CutRound(o, state, nsub, k, data, max, w);
    DownloadedEntry(o.entries[k], state, StartOf(o, nsub, k), data, w);
    var next := EntryLoaded(o.entries[k], state, StartOf(o, nsub, k), Download(data), w);
    StartsGrow(o, nsub, k + 1, if j > k then j else k + 1);
    if j == k {
      assert !WrittenFrom(o, state, k + 1, e.data.value);
      if StartOf(o, nsub, k + 1) / 8 < max { CutKeeps(o, state, nsub, k + 1, data, max, next, e.data.value); }
    } else {
      if StartOf(o, nsub, k + 1) / 8 < max { CutShort(o, state, nsub, k + 1, data, max, next, j); }
    }
  }

  // Bit fields

  /** Bit position of entry j in any object: whole bytes start on the next byte boundary, bit fields right away. */
  function BitStart(o: Object, nsub: nat, j: nat): nat
    requires nsub <= j < |o.entries|
  {
    if j == nsub then 0
    else
      var end := BitStart(o, nsub, j - 1) + (if j == 1 && o.objtype != 0x0007 then 16 else o.entries[j - 1].bitlength);
      if o.entries[j].bitlength % 8 == 0 then (end + 7) / 8 * 8 else end
  }

  lemma {:induction false} AlignedPlace(o: Object, nsub: nat, k: nat, size: nat, j: nat)
    requires nsub <= k <= j < |o.entries| && Aligned(size, o.entries[k].bitlength) == BitStart(o, nsub, k)
    ensures Aligned(Place(o, k, size, j), o.entries[j].bitlength) == BitStart(o, nsub, j)
    decreases j - k
  {
    if k < j {
      var end := After(o, k, size);
      assert Aligned(end, o.entries[k + 1].bitlength) == BitStart(o, nsub, k + 1);
      AlignedPlace(o, nsub, k + 1, end, j);
    }
  }

  /** Every entry starts there, and the block ends where the last one does. */
  lemma MixedLayout(o: Object, nsub: nat, j: nat)
    requires nsub <= j < |o.entries|
    ensures Aligned(Place(o, nsub, 0, j), o.entries[j].bitlength) == BitStart(o, nsub, j)
    ensures Fixed(o) ==>
              var last := |o.entries| - 1;
              LoopSize(o, nsub, 0) ==
              BitStart(o, nsub, last) + (if last == 0 && o.objtype != 0x0007 then 16 else o.entries[last].bitlength)
  {
    AlignedPlace(o, nsub, nsub, 0, j);
    AlignedPlace(o, nsub, nsub, 0, |o.entries| - 1);
    LastPlace(o, nsub, 0);
  }

  lemma {:induction false} LastPlace(o: Object, k: nat, size: nat)
    requires k < |o.entries|
    ensures Extent(o, k, size, 0) == After(o, |o.entries| - 1, Place(o, k, size, |o.entries| - 1))
    decreases |o.entries| - k
  {
    if k + 1 < |o.entries| {
      LastPlace(o, k + 1, After(o, k, size));
    } else {
      assert Extent(o, k + 1, After(o, k, size), 0) == After(o, k, size);
    }
  }

  lemma {:induction false} BitTimes(x: nat, off: nat, k: nat)
    ensures Bit(x * Pow2(off), k) == (k >= off && Bit(x, k - off))
  {
    if off > 0 {
      Times2(x, Pow2(off - 1));
      if k > 0 { BitTimes(x, off - 1, k - 1); }
    } else {
      assert x * Pow2(0) == x;
    }
  }

  lemma Times2(x: nat, p: nat)
    ensures x * (2 * p) == 2 * (x * p) && (x * (2 * p)) / 2 == x * p && (x * (2 * p)) % 2 == 0
  {
    assert x * (2 * p) == 2 * (x * p);
  }

  lemma EightBits()
    ensures Pow2(8) == 0x100
  {
  }

  lemma FieldBit(v: byte, n: nat, off: nat, k: nat)
    requires off < 8 && k < 8
    ensures Bit(Field(v, n, off), k) == (off <= k < off + n && Bit(v, k - off))
  {
    hide Pow2, Bit;
    EightBits();
    BitMod(v % Pow2(n) * Pow2(off), 8, k);
    BitTimes(v % Pow2(n), off, k);
    if k >= off { BitMod(v, n, k - off); }
  }

  lemma MaskBit(n: nat, off: nat, k: nat)
    requires off < 8 && k < 8 && n < 32
    ensures Bit(FieldMask(n, off), k) == (off <= k < off + n)
  {
    hide Pow2, Bit, Mask;
    MaskIs(n);
    EightBits();
    BitMod((Pow2(n) - 1) * Pow2(off), 8, k);
    BitTimes(Pow2(n) - 1, off, k);
    if k >= off { BitMask(n, k - off); }
  }

  /**
   A bit field in its byte of the block. A readable one is or-ed to what the byte
   held before, which is cleared only if the field starts the byte; one that
   cannot be read is zero, and clears nothing beside it.
   */
  lemma FieldInByte(b: byte, v: byte, n: nat, off: nat, readable: bool, k: nat)
    requires off < 8 && k < 8 && 0 < n < 32
    ensures Bit(WithField(b, v, n, off, readable), k) ==
            if readable then (off <= k < off + n && Bit(v, k - off)) || (off > 0 && Bit(b, k))
            else Bit(b, k) && !(off <= k < off + n)
  {
    hide Pow2, Bit, Or, And, Field, FieldMask;
    EightBits();
    FieldBit(v, n, off, k);
    MaskBit(n, off, k);
    BitComplement(FieldMask(n, off), 8, k);
    BitOr(if off == 0 then 0 else b, Field(v, n, off), k);
    BitAnd(b, 0xFF - FieldMask(n, off), k);
    BitOfZero(k);
  }

  /** An upload puts a bit field's bits at its position. */
  lemma FieldShown(e: Entry, state: nat, at: nat, w: Work, k: nat)
    requires e.bitlength % 8 != 0 && e.bitlength < 32 && Inside(e, at, Upload, w) && k < 8
    ensures var r := EntryLoaded(e, state, at, Upload, w);
            var off := at % 8;
            && r.st == w.st && |r.block| == |w.block|
            && (forall i | 0 <= i < |w.block| && i != at / 8 :: r.block[i] == w.block[i])
            && Bit(r.block[at / 8], k) ==
               if ReadAccess(e.flags, state) then
                 || (off <= k < off + e.bitlength
                     && Bit(if e.data.Some? then w.st[e.data.value][0] else e.value % 0x100, k - off))
                 || (off > 0 && Bit(w.block[at / 8], k))
               else Bit(w.block[at / 8], k) && !(off <= k < off + e.bitlength)
  {
    FieldInByte(w.block[at / 8], FirstByte(e, w.st), e.bitlength, at % 8, ReadAccess(e.flags, state), k);
    hide WithField, Bit, ReadAccess;
  }

  /** A download skips bit fields, and entries that cannot be written now. */
  lemma DownloadSkips(e: Entry, state: nat, at: nat, data: seq<byte>, w: Work)
    requires Inside(e, at, Download(data), w) && (e.bitlength % 8 != 0 || !WriteAccess(e.flags, state))
    ensures EntryLoaded(e, state, at, Download(data), w) == w
  {
  }

  /** So a readable field behind an unreadable one may show a bit of an older block: here the second of two one-bit fields. */
  lemma OlderBitShows(b: byte, v: byte)
    requires Bit(b, 1) && !Bit(v, 0)
    ensures Bit(WithField(WithField(b, v, 1, 0, false), v, 1, 1, true), 1)
  {
    hide WithField, Bit;
    FieldInByte(b, v, 1, 0, false, 1);
    FieldInByte(WithField(b, v, 1, 0, false), v, 1, 1, true, 1);
  }
}
