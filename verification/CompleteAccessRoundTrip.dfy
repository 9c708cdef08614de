/**
 Complete access of objects made of whole bytes: where each entry lies in the
 block, and that an upload followed by a full-length download restores it.
 */
module CompleteAccessRoundTrip {
  import opened Words
  import opened ObjectDictionary
  import opened SdoTransfer
  import opened CompleteAccess

  /** All entries are a positive number of whole bytes. */
  ghost predicate ByteEntries(o: Object) {
    forall k | 0 <= k < |o.entries| :: o.entries[k].bitlength % 8 == 0 < o.entries[k].bitlength
  }

  /** Every entry has a variable of its own. */
  ghost predicate DistinctCells(o: Object) {
    forall i, j | 0 <= i < j < |o.entries| && o.entries[i].data.Some? :: o.entries[i].data != o.entries[j].data
  }

  /** Bit position of entry j when the entries from k on are placed after size bits. */
  function Place(o: Object, k: nat, size: nat, j: nat): nat
    requires k <= j < |o.entries|
    decreases j - k
  {
    if j == k then size else Place(o, k + 1, After(o, k, size), j)
  }

  function LengthOf(o: Object, j: nat): nat
    requires j < |o.entries|
  {
    BitsToBytes(o.entries[j].bitlength)
  }

  /** Entries start on byte boundaries and end inside the block. */
  lemma {:induction false} PlaceInside(o: Object, st: Store, k: nat, size: nat, j: nat)
    requires Loadable(o, st) && ByteEntries(o) && k <= j < |o.entries| && size % 8 == 0
    ensures var p := Place(o, k, size, j);
            p % 8 == 0 && size <= p && p + o.entries[j].bitlength <= Extent(o, k, size, 0)
    ensures EndOf(o, k, size, j) <= Extent(o, k, size, 0) / 8 && Extent(o, k, size, 0) % 8 == 0
    decreases j - k
  {
    if k < j {
      PlaceInside(o, st, k + 1, After(o, k, size), j);
    } else {
      ExtentBytes(o, st, k, size);
    }
  }

  function EndOf(o: Object, k: nat, size: nat, j: nat): nat
    requires k <= j < |o.entries|
  {
    Place(o, k, size, j) / 8 + LengthOf(o, j)
  }

  lemma {:induction false} ExtentBytes(o: Object, st: Store, k: nat, size: nat)
    requires Loadable(o, st) && ByteEntries(o) && k <= |o.entries| && size % 8 == 0
    ensures Extent(o, k, size, 0) % 8 == 0
    decreases |o.entries| - k
  {
    if k < |o.entries| { ExtentBytes(o, st, k + 1, After(o, k, size)); }
  }

  /** Different entries lie in different bytes. */
  lemma {:induction false} PlacesApart(o: Object, st: Store, k: nat, size: nat, i: nat, j: nat)
    requires Loadable(o, st) && ByteEntries(o) && k <= i < j < |o.entries| && size % 8 == 0
    ensures EndOf(o, k, size, i) <= Place(o, k, size, j) / 8
    decreases j - k
  {
    hide Loadable, Extent, LengthOf, BitsToBytes;
    ByteStep(o, st, k, size);
    if k < i {
      PlacesApart(o, st, k + 1, After(o, k, size), i, j);
    } else {
      PlaceInside(o, st, k + 1, After(o, k, size), j);
    }
  }

  // One round

  lemma ByteStep(o: Object, st: Store, k: nat, size: nat)
    requires Loadable(o, st) && ByteEntries(o) && size % 8 == 0 && k < |o.entries|
    ensures var bits := o.entries[k].bitlength;
            && bits % 8 == 0 && LengthOf(o, k) * 8 == bits && Aligned(size, bits) == size
            && After(o, k, size) % 8 == 0 && size + bits <= After(o, k, size) && !Stops(After(o, k, size), 0)
  {
  }

  /** The loop takes entry k at a byte boundary and goes on at one. */
  lemma Round(o: Object, state: nat, load: Load, k: nat, size: nat, w: Work)
    requires Fits(o, load, k, size, 0, w) && ByteEntries(o) && size % 8 == 0 && k < |o.entries|
    ensures Inside(o.entries[k], size, load, w)
    ensures var e := o.entries[k];
            var next := EntryLoaded(e, state, size, load, w);
            && e.bitlength % 8 == 0 && LengthOf(o, k) * 8 == e.bitlength
            && After(o, k, size) % 8 == 0 && size + e.bitlength <= After(o, k, size)
            && Fits(o, load, k + 1, After(o, k, size), 0, next)
            && AllLoaded(o, state, load, k, size, 0, w) == AllLoaded(o, state, load, k + 1, After(o, k, size), 0, next)
  {
    ByteStep(o, w.st, k, size);
    hide EntryLoaded, Fits, AllLoaded, Inside, Extent, After, Stops, Aligned, LengthOf, ByteEntries;
    LoopRound(o, state, load, k, size, 0, w);
  }

  lemma UploadedEntry(e: Entry, state: nat, size: nat, w: Work)
    requires Inside(e, size, Upload, w) && e.bitlength % 8 == 0 && size % 8 == 0
    ensures var r := EntryLoaded(e, state, size, Upload, w);
            var n := BitsToBytes(e.bitlength);
            && size / 8 + n <= |w.block| && r.st == w.st && r.block[..size / 8] == w.block[..size / 8]
            && r.block[size / 8..size / 8 + n] == Shown(e, w.st, state)
  {
  }

  lemma DownloadedEntry(e: Entry, state: nat, size: nat, data: seq<byte>, w: Work)
    requires Inside(e, size, Download(data), w) && e.bitlength % 8 == 0 && size % 8 == 0
    ensures var r := EntryLoaded(e, state, size, Download(data), w);
            var n := BitsToBytes(e.bitlength);
            && size / 8 + n <= |data|
            && (WriteAccess(e.flags, state) ==>
                  && e.data.Some? && e.data.value < |w.st| && n <= |w.st[e.data.value]|
                  && r.st[e.data.value] == data[size / 8..size / 8 + n] + w.st[e.data.value][n..])
            && forall c | 0 <= c < |w.st| && !(WriteAccess(e.flags, state) && e.data == Some(c)) :: r.st[c] == w.st[c]
  {
    if WriteAccess(e.flags, state) { assert IsWritable(e); }
  }

  // Upload

  lemma {:induction false} UploadKeepsBelow(o: Object, state: nat, k: nat, size: nat, w: Work)
    requires Fits(o, Upload, k, size, 0, w) && ByteEntries(o) && size % 8 == 0
    ensures var r := AllLoaded(o, state, Upload, k, size, 0, w);
            size / 8 <= |w.block| && r.block[..size / 8] == w.block[..size / 8] && r.st == w.st
    decreases |o.entries| - k
  {
    if k < |o.entries| {
      Round(o, state, Upload, k, size, w);
      UploadedEntry(o.entries[k], state, size, w);
      hide ByteEntries, EntryLoaded, Fits, AllLoaded, Inside, After;
      var next := EntryLoaded(o.entries[k], state, size, Upload, w);
      UploadKeepsBelow(o, state, k + 1, After(o, k, size), next);
      SamePrefix(AllLoaded(o, state, Upload, k, size, 0, w).block, next.block, size / 8, After(o, k, size) / 8);
    }
  }

  lemma SamePrefix(r: seq<byte>, next: seq<byte>, i: nat, j: nat)
    requires i <= j <= |r| == |next| && r[..j] == next[..j]
    ensures r[..i] == next[..i]
  {
    assert r[..i] == r[..j][..i];
  }

  lemma SameWithin(r: seq<byte>, next: seq<byte>, a: nat, b: nat, j: nat)
    requires a <= b <= j <= |r| == |next| && r[..j] == next[..j]
    ensures r[a..b] == next[a..b]
  {
    assert r[a..b] == r[..j][a..b];
  }

  lemma UploadShowsFirst(o: Object, state: nat, k: nat, size: nat, w: Work)
    requires Fits(o, Upload, k, size, 0, w) && ByteEntries(o) && size % 8 == 0 && k < |o.entries|
    ensures size / 8 + LengthOf(o, k) <= |w.block| && Backed(o.entries[k], w.st)
    ensures AllLoaded(o, state, Upload, k, size, 0, w).block[size / 8..size / 8 + LengthOf(o, k)] == Shown(o.entries[k], w.st, state)
  {
    Round(o, state, Upload, k, size, w);
    UploadedEntry(o.entries[k], state, size, w);
    var next := EntryLoaded(o.entries[k], state, size, Upload, w);
    assert Backed(o.entries[k], w.st);
    hide ByteEntries, EntryLoaded, Fits, AllLoaded, Inside, After, Shown, Backed;
    UploadKeepsBelow(o, state, k + 1, After(o, k, size), next);
    SameWithin(AllLoaded(o, state, Upload, k, size, 0, w).block, next.block, size / 8, size / 8 + LengthOf(o, k),
               After(o, k, size) / 8);
  }

  /** The block shows every entry at its place. */
  lemma {:induction false} UploadShows(o: Object, state: nat, k: nat, size: nat, w: Work, j: nat)
    requires Fits(o, Upload, k, size, 0, w) && ByteEntries(o) && size % 8 == 0 && k <= j < |o.entries|
    ensures EndOf(o, k, size, j) <= |w.block| && Backed(o.entries[j], w.st)
    ensures AllLoaded(o, state, Upload, k, size, 0, w).block[Place(o, k, size, j) / 8..EndOf(o, k, size, j)]
            == Shown(o.entries[j], w.st, state)
    decreases j - k
  {
    hide ByteEntries, EntryLoaded, Fits, AllLoaded, Inside, After, Shown, Backed, Extent, LengthOf;
    if k == j {
      UploadShowsFirst(o, state, k, size, w);
    } else {
      Round(o, state, Upload, k, size, w);
      UploadedEntry(o.entries[k], state, size, w);
      UploadShows(o, state, k + 1, After(o, k, size), EntryLoaded(o.entries[k], state, size, Upload, w), j);
    }
  }

  // Download

  /** A download of the full length is not cut short. */
  lemma {:induction false} FullLength(o: Object, state: nat, load: Load, k: nat, size: nat, max: nat, w: Work)
    requires Fits(o, load, k, size, 0, w) && ByteEntries(o) && size % 8 == 0 && k < |o.entries|
    requires max == BitsToBytes(Extent(o, k, size, 0))
    ensures Extent(o, k, size, max) == Extent(o, k, size, 0) && Fits(o, load, k, size, max, w)
    ensures AllLoaded(o, state, load, k, size, max, w) == AllLoaded(o, state, load, k, size, 0, w)
    decreases |o.entries| - k
  {
    Round(o, state, load, k, size, w);
    var next := EntryLoaded(o.entries[k], state, size, load, w);
    FullExtent(o, k, size, max);
    LoopRound(o, state, load, k, size, max, w);
    assert Extent(o, k, size, 0) == Extent(o, k + 1, After(o, k, size), 0);
    hide ByteEntries, EntryLoaded, Inside, Fits, Extent, After;
    if k + 1 < |o.entries| {
      FullLength(o, state, load, k + 1, After(o, k, size), max, next);
    }
  }

  lemma {:induction false} FullExtent(o: Object, k: nat, size: nat, max: nat)
    requires ByteEntries(o) && size % 8 == 0 && k < |o.entries| && max == BitsToBytes(Extent(o, k, size, 0))
    ensures Extent(o, k, size, max) == Extent(o, k, size, 0)
    ensures k + 1 < |o.entries| ==> !Stops(After(o, k, size), max)
    decreases |o.entries| - k
  {
    if k + 1 < |o.entries| {
      FullExtent(o, k + 1, After(o, k, size), max);
      assert o.entries[k + 1].bitlength >= 8;
    }
  }

  ghost predicate WrittenFrom(o: Object, state: nat, k: nat, c: nat) {
    exists j | k <= j < |o.entries| :: o.entries[j].data == Some(c) && WriteAccess(o.entries[j].flags, state)
  }

  /** Variables of no writable entry keep their value. */
  lemma {:induction false} DownloadKeeps(o: Object, state: nat, k: nat, size: nat, data: seq<byte>, w: Work, c: nat)
    requires Fits(o, Download(data), k, size, 0, w) && ByteEntries(o) && size % 8 == 0
    requires c < |w.st| && !WrittenFrom(o, state, k, c)
    ensures AllLoaded(o, state, Download(data), k, size, 0, w).st[c] == w.st[c]
    decreases |o.entries| - k
  {
    if k < |o.entries| {
      Round(o, state, Download(data), k, size, w);
      DownloadedEntry(o.entries[k], state, size, data, w);
      hide ByteEntries, EntryLoaded, Fits, AllLoaded, Inside, After, WriteAccess;
      DownloadKeeps(o, state, k + 1, After(o, k, size), data, EntryLoaded(o.entries[k], state, size, Download(data), w), c);
    }
  }

  /** Every writable entry takes the bytes at its place; what its variable holds beyond its length stays. */
  lemma {:induction false} DownloadStores(o: Object, state: nat, k: nat, size: nat, data: seq<byte>, w: Work, j: nat)
    requires Fits(o, Download(data), k, size, 0, w) && ByteEntries(o) && DistinctCells(o) && size % 8 == 0
    requires k <= j < |o.entries| && WriteAccess(o.entries[j].flags, state)
    ensures EndOf(o, k, size, j) <= |data| && o.entries[j].data.Some?
    ensures var c := o.entries[j].data.value;
            c < |w.st| && LengthOf(o, j) <= |w.st[c]|
            && AllLoaded(o, state, Download(data), k, size, 0, w).st[c]
               == data[Place(o, k, size, j) / 8..EndOf(o, k, size, j)] + w.st[c][LengthOf(o, j)..]
    decreases j - k
  {
    hide ByteEntries, EntryLoaded, Fits, AllLoaded, Inside, After, WriteAccess, DistinctCells;
    Round(o, state, Download(data), k, size, w);
    DownloadedEntry(o.entries[k], state, size, data, w);
    EntryStorage(o, Download(data), k, size, 0, w, j, state);
    OwnCell(o, k, j);
    var e := o.entries[j];
    var next := EntryLoaded(o.entries[k], state, size, Download(data), w);
    if k == j {
      assert !WrittenFrom(o, state, k + 1, e.data.value);
      DownloadKeeps(o, state, k + 1, After(o, k, size), data, next, e.data.value);
    } else {
      DownloadStores(o, state, k + 1, After(o, k, size), data, next, j);
    }
  }

  lemma EntryStorage(o: Object, load: Load, k: nat, size: nat, max: nat, w: Work, j: nat, state: nat)
    requires Fits(o, load, k, size, max, w) && j < |o.entries| && WriteAccess(o.entries[j].flags, state)
    ensures Backed(o.entries[j], w.st) && o.entries[j].data.Some?
  {
    assert IsWritable(o.entries[j]);
  }

  lemma OwnCell(o: Object, k: nat, j: nat)
    requires DistinctCells(o) && k <= j < |o.entries|
    ensures k < j && o.entries[k].data.Some? ==> o.entries[k].data != o.entries[j].data
    ensures forall i | j < i < |o.entries| && o.entries[j].data.Some? :: o.entries[i].data != o.entries[j].data
  {
  }

  // Both

  /**
   Uploading the object from one storage and downloading the block, in full,
   into another: every entry that can be read and written in this state is
   restored, one that can only be written becomes zero, and all other
   variables keep their value.
   */
  lemma UploadThenDownloadAll(o: Object, state: nat, nsub: nat, block: seq<byte>, st: Store, other: Store, spare: seq<byte>)
    requires CanLoad(o, nsub, Upload, 0, Work(block, st)) && Loadable(o, other) && !IsDynamic(o)
    requires ByteEntries(o) && DistinctCells(o)
    ensures var bytes := BitsToBytes(LoopSize(o, nsub, 0));
            var data := LoopResult(o, state, nsub, Upload, 0, Work(block, st)).block[..bytes];
            && CanLoad(o, nsub, Download(data), bytes, Work(spare, other))
            && LoopSize(o, nsub, bytes) == LoopSize(o, nsub, 0)
            && var after := LoopResult(o, state, nsub, Download(data), bytes, Work(spare, other)).st;
               (forall j | nsub <= j < |o.entries| && WriteAccess(o.entries[j].flags, state) ::
                  Restored(o.entries[j], state, st, other, after))
               && (forall c | 0 <= c < |other| && !WrittenFrom(o, state, nsub, c) :: after[c] == other[c])
  {
    var bytes := BitsToBytes(Extent(o, nsub, 0, 0));
    var w := Prepared(Upload, Work(block, st));
    var data := AllLoaded(o, state, Upload, nsub, 0, 0, w).block[..bytes];
    var v := Work(spare, other);
    FullLength(o, state, Download(data), nsub, 0, bytes, v);
    var after := AllLoaded(o, state, Download(data), nsub, 0, 0, v).st;
    forall j | nsub <= j < |o.entries| && WriteAccess(o.entries[j].flags, state)
      ensures Restored(o.entries[j], state, st, other, after)
    {
      UploadShows(o, state, nsub, 0, w, j);
      DownloadStores(o, state, nsub, 0, data, v, j);
      PlaceInside(o, st, nsub, 0, j);
      SameSlice(AllLoaded(o, state, Upload, nsub, 0, 0, w).block, bytes, Place(o, nsub, 0, j) / 8, EndOf(o, nsub, 0, j));
    }
    forall c | 0 <= c < |other| && !WrittenFrom(o, state, nsub, c) ensures after[c] == other[c] {
      DownloadKeeps(o, state, nsub, 0, data, v, c);
    }
  }

  /** The entry's variable holds what it held in st, or zero if it could not be read; the rest of it is as before. */
  ghost predicate Restored(e: Entry, state: nat, st: Store, other: Store, after: Store) {
    var n := BitsToBytes(e.bitlength);
    && Backed(e, st) && Backed(e, other) && e.data.Some? && |after| == |other|
    && after[e.data.value] == Shown(e, st, state) + other[e.data.value][n..]
    && (ReadAccess(e.flags, state) ==> Shown(e, st, state) == Content(e, st))
  }

  lemma SameSlice(bs: seq<byte>, n: nat, i: nat, j: nat)
    requires i <= j <= n <= |bs|
    ensures bs[..n][i..j] == bs[i..j]
  {
  }
}
