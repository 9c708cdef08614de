/**
 The process data mapping in numbers: which value is at which position of the
 flattened list, what its line is, and how long the data are.
 */
module MappingNumbers {
  import opened Words
  import opened ObjectDictionary
  import opened PdoMapping

  // Values as they are fetched

  /** One, two or four bytes of the variable, lowest first, or the low bits of the constant. */
  lemma FetchedIs(e: Entry, st: Store)
    ensures CanFetch(e, st, 1) ==>
              Value8(e, st) == match e.data case Some(c) => st[c][0] case None => e.value % 0x100
    ensures CanFetch(e, st, 2) ==>
              Value16(e, st) == match e.data case Some(c) => st[c][0] + 0x100 * (st[c][1] as nat) case None => e.value % 0x1_0000
    ensures CanFetch(e, st, 4) ==>
              Value32(e, st) == match e.data
                                case Some(c) => st[c][0] + 0x100 * (st[c][1] as nat) + 0x1_0000 * (st[c][2] as nat)
                                                + 0x100_0000 * (st[c][3] as nat)
                                case None => e.value
  {
  }

  // The list

  /** Sum of the bit lengths, the low bytes, of the first k values. */
  function BitTotal(vals: seq<uint32>, k: nat): nat
    requires k <= |vals|
  {
    if k == 0 then 0 else BitTotal(vals, k - 1) + vals[k - 1] % 0x100
  }

  lemma {:induction false} TotalIs(vals: seq<uint32>, k: nat)
    requires k <= |vals|
    ensures BitOffset(vals, k) == BitTotal(vals, k)
  {
    if k > 0 { TotalIs(vals, k - 1); }
  }

  /** Value v names entry n of object o: index in the high half, subindex in the second byte. */
  predicate NamesEntry(d: Dictionary, v: uint32, o: nat, n: nat) {
    o < |d| && n < |d[o].entries| && d[o].index == v / 0x1_0000 && d[o].entries[n].subindex == v / 0x100 % 0x100
  }

  predicate IsGap(v: uint32) { v < 0x100 }

  ghost predicate Mapped(d: Dictionary, v: uint32) {
    IsGap(v) || exists o: nat, n: nat :: NamesEntry(d, v, o, n)
  }

  /** The line of the value at position k: a gap, or the entry it names, after the bits of the values before it. */
  ghost predicate LineOf(d: Dictionary, vals: seq<uint32>, k: nat, line: SMmap)
    requires k < |vals|
  {
    && line.offset == BitTotal(vals, k)
    && (if IsGap(vals[k]) then line.obj.None? && line.item.None?
        else exists o: nat, n: nat :: NamesEntry(d, vals[k], o, n) && line.obj == Some(d[o].entries[n]) && line.item == Some(o))
  }

  lemma GapIs(v: uint32)
    ensures IsPadding(v) == IsGap(v)
  {
  }

  lemma ResolvesIs(d: Dictionary, v: uint32)
    requires WellFormed(d) && v / 0x1_0000 != LIST_END
    ensures Resolves(d, v) == Mapped(d, v)
    ensures !IsPadding(v) && Resolves(d, v) ==>
              NamesEntry(d, v, ObjectNo(d, MapIndex(v)), EntryNo(d[ObjectNo(d, MapIndex(v))], MapSub(v)))
  {
    GapIs(v);
    if o: nat, n: nat :| NamesEntry(d, v, o, n) {
      ObjectNoIs(d, o);
      EntryNoIs(d[o], n);
    }
    if !IsPadding(v) && Resolves(d, v) {
      assert NamesEntry(d, v, ObjectNo(d, MapIndex(v)), EntryNo(d[ObjectNo(d, MapIndex(v))], MapSub(v)));
    }
  }

  lemma LineIs(d: Dictionary, vals: seq<uint32>, k: nat)
    requires WellFormed(d) && k < |vals| && vals[k] / 0x1_0000 != LIST_END && Resolves(d, vals[k])
    ensures LineOf(d, vals, k, LineFor(d, vals[k], BitOffset(vals, k)))
  {
    GapIs(vals[k]);
    ResolvesIs(d, vals[k]);
    TotalIs(vals, k);
    if !IsGap(vals[k]) {
      assert NamesEntry(d, vals[k], ObjectNo(d, MapIndex(vals[k])), EntryNo(d[ObjectNo(d, MapIndex(vals[k]))], MapSub(vals[k])));
    }
  }

  ghost predicate NoEndMarker(vals: seq<uint32>) {
    forall k | 0 <= k < |vals| :: vals[k] / 0x1_0000 != LIST_END
  }

  /** What sizeOfPDO returns for the values of an assign object: length, number of lines or -1, and the lines. */
  lemma SizeIs(d: Dictionary, st: Store, o: nat, max: nat, before: Pd)
    requires WellFormed(d) && o < |d| - 1 && CanRecompute(d, st, d[o].index)
    ensures AssignReadable(d, st, d[o])
    ensures var vals := Flatten(d, st, d[o]);
            var pd := Recomputed(d, st, d[o].index, max, before);
            var bytes := (BitTotal(vals, |vals|) + 7) / 8 % 0x1_0000;
            if max == 0 then pd == Pd(bytes, 0, [])
            else if |vals| > max || exists k | 0 <= k < |vals| :: !Mapped(d, vals[k]) then pd == Pd(0, -1, [])
            else
              && pd.size == bytes && pd.nm == |vals| == |pd.lines|
              && forall k | 0 <= k < |vals| :: LineOf(d, vals, k, pd.lines[k])
  {
    ObjectNoIs(d, o);
    var vals := Flatten(d, st, d[o]);
    NoEndMarkers(d, st, d[o], Count(d[o], st));
    TotalIs(vals, |vals|);
    forall k | 0 <= k < |vals| ensures Resolves(d, vals[k]) == Mapped(d, vals[k]) {
      ResolvesIs(d, vals[k]);
    }
    if Mappable(d, vals, max) {
      forall k | 0 <= k < |vals| ensures LineOf(d, vals, k, LayoutOf(d, vals)[k]) {
        LineIs(d, vals, k);
        assert IsLine(d, vals[k], BitOffset(vals, k), LayoutOf(d, vals)[k]);
      }
    }
    hide Flatten, LineOf, Mapped, Resolves, BitTotal, BitOffset, LayoutOf, AssignReadable;
  }

  /** Without the assign object the length is 0, and the lines are left as they were. */
  lemma NoAssignObject(d: Dictionary, st: Store, index: nat, max: nat, before: Pd)
    requires CanRecompute(d, st, index) && forall o | 0 <= o < |d| :: d[o].index != index
    ensures Recomputed(d, st, index, max, before) == Pd(0, before.nm, before.lines)
  {
  }

  lemma {:induction false} ValuesClean(o: Object, st: Store, n: nat)
    requires MappingReadable(o, st) && n <= Count(o, st)
    ensures NoEndMarker(Values(o, st, n))
  {
    if n > 0 { ValuesClean(o, st, n - 1); }
  }

  lemma {:induction false} NoEndMarkers(d: Dictionary, st: Store, sm: Object, k: nat)
    requires AssignReadable(d, st, sm) && k <= Count(sm, st)
    ensures NoEndMarker(Flattened(d, st, sm, k))
  {
    hide Values;
    if k > 0 {
      NoEndMarkers(d, st, sm, k - 1);
      var n := ObjectNo(d, Value16(sm.entries[k], st));
      if n >= 0 { ValuesClean(d[n], st, Count(d[n], st)); }
    }
  }

  // Where a value is

  /** Number of values behind the first k assigned indexes; an index without object has none. */
  ghost function CountBefore(d: Dictionary, st: Store, sm: Object, k: nat): nat
    requires AssignReadable(d, st, sm) && k <= Count(sm, st)
  {
    if k == 0 then 0 else CountBefore(d, st, sm, k - 1) + CountOf(d, st, Value16(sm.entries[k], st))
  }

  ghost function CountOf(d: Dictionary, st: Store, h: nat): nat
    requires ObjectNo(d, h) >= 0 ==> MappingReadable(d[ObjectNo(d, h)], st)
  {
    if ObjectNo(d, h) < 0 then 0 else Count(d[ObjectNo(d, h)], st)
  }

  lemma {:induction false} ValuesAt(o: Object, st: Store, n: nat, c: nat)
    requires MappingReadable(o, st) && 1 <= c <= n <= Count(o, st)
    ensures Values(o, st, n)[c - 1] == Value32(o.entries[c], st)
  {
    if c < n { ValuesAt(o, st, n - 1, c); }
  }

  lemma {:induction false} FlattenedLengthIs(d: Dictionary, st: Store, sm: Object, k: nat)
    requires AssignReadable(d, st, sm) && k <= Count(sm, st)
    ensures |Flattened(d, st, sm, k)| == CountBefore(d, st, sm, k)
  {
    hide MappingReadable;
    if k > 0 { FlattenedLengthIs(d, st, sm, k - 1); }
  }

  /** Value c of the object assigned by subindex s is behind all values assigned before it. */
  lemma {:induction false} ValueAt(d: Dictionary, st: Store, sm: Object, k: nat, s: nat, c: nat)
    requires AssignReadable(d, st, sm) && 1 <= s <= k <= Count(sm, st)
    requires ObjectNo(d, Value16(sm.entries[s], st)) >= 0 && 1 <= c <= CountOf(d, st, Value16(sm.entries[s], st))
    ensures |Flattened(d, st, sm, k)| == CountBefore(d, st, sm, k) >= CountBefore(d, st, sm, s - 1) + c
    ensures Flattened(d, st, sm, k)[CountBefore(d, st, sm, s - 1) + c - 1] ==
            Value32(d[ObjectNo(d, Value16(sm.entries[s], st))].entries[c], st)
  {
    FlattenedLengthIs(d, st, sm, k);
    FlattenedLengthIs(d, st, sm, k - 1);
    if s < k {
      ValueAt(d, st, sm, k - 1, s, c);
    } else {
      var o := d[ObjectNo(d, Value16(sm.entries[s], st))];
      ValuesAt(o, st, Count(o, st), c);
    }
  }
}
