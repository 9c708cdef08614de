/**
 The process data mapping: the assign objects 0x1C12 and 0x1C13 name mapping
 objects, whose values name the mapped entries. sizeOfPDO flattens the two
 levels into one list of entries with their bit offsets.
 */
module PdoMapping {
  import opened Words
  import opened ObjectDictionary

  const RX_PDO_OBJIDX: uint16 := 0x1C12
  const TX_PDO_OBJIDX: uint16 := 0x1C13

  /** One line of the cached list; padding has neither entry nor object. */
  datatype SMmap = SMmap(obj: Option<Entry>, item: Option<nat>, offset: nat)

  // A mapping value packs index (16 bits), subindex (8 bits) and bit length (8 bits).

  function MapIndex(v: uint32): uint16 { v / 0x1_0000 }
  function MapSub(v: uint32): byte { v / 0x100 % 0x100 }
  function MapBits(v: uint32): byte { v % 0x100 }
  predicate IsPadding(v: uint32) { MapIndex(v) == 0 && MapSub(v) == 0 }

  /** Subindex 0, the number of entries in use. */
  function Count(o: Object, st: Store): byte
    requires |o.entries| > 0 && CanFetch(o.entries[0], st, 1)
  {
    Value8(o.entries[0], st)
  }

  /** The entries in use exist, have w bytes each, and can be counted with 8 bits. */
  ghost predicate ListReadable(o: Object, st: Store, w: nat) {
    && |o.entries| > 0
    && CanFetch(o.entries[0], st, 1)
    && Count(o, st) < 255
    && Count(o, st) < |o.entries|
    && forall c | 1 <= c <= Count(o, st) :: CanFetch(o.entries[c], st, w)
  }

  ghost predicate MappingReadable(o: Object, st: Store) {
    && ListReadable(o, st, 4)
    && forall c | 1 <= c <= Count(o, st) :: MapIndex(Value32(o.entries[c], st)) != LIST_END
  }

  /** What sizeOfPDO asks of the table behind one assign object. */
  ghost predicate AssignReadable(d: Dictionary, st: Store, sm: Object) {
    && ListReadable(sm, st, 2)
    && forall s | 1 <= s <= Count(sm, st) ::
         && Value16(sm.entries[s], st) != LIST_END
         && (ObjectNo(d, Value16(sm.entries[s], st)) >= 0 ==>
               MappingReadable(d[ObjectNo(d, Value16(sm.entries[s], st))], st))
  }

  /** The first n mapping values of a mapping object. */
  ghost function Values(o: Object, st: Store, n: nat): (vs: seq<uint32>)
    requires MappingReadable(o, st) && n <= Count(o, st)
    ensures |vs| == n
  {
    if n == 0 then [] else Values(o, st, n - 1) + [Value32(o.entries[n], st)]
  }

  /** The mapping values behind one assigned index; a missing object is skipped. */
  ghost function ValuesOf(d: Dictionary, st: Store, index: nat): seq<uint32>
    requires ObjectNo(d, index) >= 0 ==> MappingReadable(d[ObjectNo(d, index)], st)
  {
    var n := ObjectNo(d, index);
    if n < 0 then [] else Values(d[n], st, Count(d[n], st))
  }

  /** The mapping values behind the first k assigned indexes, in order. */
  ghost function Flattened(d: Dictionary, st: Store, sm: Object, k: nat): seq<uint32>
    requires AssignReadable(d, st, sm) && k <= Count(sm, st)
  {
    if k == 0 then [] else Flattened(d, st, sm, k - 1) + ValuesOf(d, st, Value16(sm.entries[k], st))
  }

  /** The whole flattened mapping of an assign object. */
  ghost function Flatten(d: Dictionary, st: Store, sm: Object): seq<uint32>
    requires AssignReadable(d, st, sm)
  {
    Flattened(d, st, sm, Count(sm, st))
  }

  /** Sum of the bit lengths of the first k values. */
  function BitOffset(vals: seq<uint32>, k: nat): nat
    requires k <= |vals|
  {
    if k == 0 then 0 else BitOffset(vals, k - 1) + MapBits(vals[k - 1])
  }

  /** The mapped entry exists, or the value is padding. */
  ghost predicate Resolves(d: Dictionary, v: uint32) {
    IsPadding(v) || (ObjectNo(d, MapIndex(v)) >= 0 && EntryNo(d[ObjectNo(d, MapIndex(v))], MapSub(v)) >= 0)
  }

  ghost predicate Mappable(d: Dictionary, vals: seq<uint32>, max: nat) {
    |vals| <= max && forall k | 0 <= k < |vals| :: Resolves(d, vals[k])
  }

  /** The list line for a value placed at a bit offset. */
  ghost function LineFor(d: Dictionary, v: uint32, offset: nat): SMmap
    requires Resolves(d, v)
  {
    if IsPadding(v) then SMmap(None, None, offset)
    else
      var n := ObjectNo(d, MapIndex(v));
      SMmap(Some(d[n].entries[EntryNo(d[n], MapSub(v))]), Some(n), offset)
  }

  /** ms is the flattened list: every value in order, each at the sum of the lengths before it. */
  ghost predicate IsLayout(d: Dictionary, vals: seq<uint32>, ms: seq<SMmap>) {
    && |ms| == |vals|
    && forall k | 0 <= k < |vals| :: IsLine(d, vals[k], BitOffset(vals, k), ms[k])
  }

  ghost predicate IsLine(d: Dictionary, v: uint32, offset: nat, line: SMmap) {
    Resolves(d, v) && line == LineFor(d, v, offset)
  }

  /** One sync manager's process data: its length, number of lines (-1 when invalid) and the lines. */
  datatype Pd = Pd(size: uint16, nm: int, lines: seq<SMmap>)

  ghost function LayoutOf(d: Dictionary, vals: seq<uint32>): (ms: seq<SMmap>)
    requires forall k | 0 <= k < |vals| :: Resolves(d, vals[k])
    ensures IsLayout(d, vals, ms)
  {
    seq(|vals|, k requires 0 <= k < |vals| => LineFor(d, vals[k], BitOffset(vals, k)))
  }

  ghost predicate CanRecompute(d: Dictionary, st: Store, index: nat) {
    ObjectNo(d, index) >= 0 ==> AssignReadable(d, st, d[ObjectNo(d, index)])
  }

  /** What sizeOfPDO yields for a dictionary and its storage; without the assign object the old list stays. */
  ghost function Recomputed(d: Dictionary, st: Store, index: nat, max: nat, before: Pd): Pd
    requires CanRecompute(d, st, index)
  {
    if ObjectNo(d, index) < 0 then Pd(0, before.nm, before.lines)
    else
      var vals := Flatten(d, st, d[ObjectNo(d, index)]);
      if max == 0 then Pd(SizeInBytes(vals), 0, [])
      else if Mappable(d, vals, max) then Pd(SizeInBytes(vals), |vals|, LayoutOf(d, vals))
      else Pd(0, -1, [])
  }

  /** The same for any contents of storage: a mapping that cannot be read stays as it is. */
  ghost function Remapped(d: Dictionary, st: Store, index: nat, max: nat, before: Pd): Pd {
    if CanRecompute(d, st, index) then Recomputed(d, st, index, max, before) else before
  }

  function SizeInBytes(vals: seq<uint32>): uint16 {
    BitsToBytes(BitOffset(vals, |vals|)) % 0x1_0000
  }

  method ResolveLine(d: Dictionary, value: uint32, offset: nat) returns (line: Option<SMmap>)
    requires WellFormed(d) && MapIndex(value) != LIST_END
    ensures line.Some? <==> Resolves(d, value)
    ensures line.Some? ==> IsLine(d, value, offset, line.value)
  {
    if IsPadding(value) {
      return Some(SMmap(None, None, offset));
    }
    var n := FindObject(d, MapIndex(value));
    if n < 0 {
      return None;
    }
    var nsub := FindSubindex(d[n], MapSub(value));
    if nsub < 0 {
      return None;
    }
    return Some(SMmap(Some(d[n].entries[nsub]), Some(n), offset));
  }

  /** One value: its line is added to the list and the offset moves on. */
  method MapValue(d: Dictionary, value: uint32, mappings: array<SMmap>, max: nat, mapIx: nat, offset: uint32,
                  ghost vals: seq<uint32>)
    returns (ok: bool, mapIx': nat, offset': uint32)
    requires WellFormed(d) && MapIndex(value) != LIST_END && max <= mappings.Length
    requires Progress(d, vals, mappings[..], max, mapIx, offset) && |vals| < 254 * 254
    modifies mappings
    ensures ok <==> max == 0 || (|vals| < max && Resolves(d, value))
    ensures ok ==> Progress(d, vals + [value], mappings[..], max, mapIx', offset')
  {
    mapIx' := mapIx;
    if max > 0 {
      if mapIx == max {
        return false, mapIx, offset;
      }
      var line := ResolveLine(d, value, offset);
      if line.None? {
        return false, mapIx, offset;
      }
      Advance(d, vals, mappings[..], max, mapIx, offset, value, line.value);
      mappings[mapIx] := line.value;
      mapIx' := mapIx + 1;
    }
    OffsetsExtend(vals, value);
    BitOffsetBound(vals, |vals|);
    offset' := offset + MapBits(value);
    ok := true;
  }

  /** The inner loop: the values of one mapping object. */
  method MapObject(d: Dictionary, st: Store, o: Object, mappings: array<SMmap>, max: nat, mapIx: nat, offset: uint32,
                   ghost vals: seq<uint32>)
    returns (ok: bool, mapIx': nat, offset': uint32)
    requires WellFormed(d) && MappingReadable(o, st) && max <= mappings.Length
    requires Progress(d, vals, mappings[..], max, mapIx, offset)
    requires |vals| + Count(o, st) <= 254 * 254
    modifies mappings
    ensures ok <==> max == 0 || Mappable(d, vals + Values(o, st, Count(o, st)), max)
    ensures ok ==> Progress(d, vals + Values(o, st, Count(o, st)), mappings[..], max, mapIx', offset')
  {
    hide Values, Mappable, Progress;
    ok, mapIx', offset' := true, mapIx, offset;
    ghost var now := vals;
    var c := 1;
    while c <= Count(o, st)
      invariant 1 <= c <= Count(o, st) + 1
      invariant now == vals + Values(o, st, c - 1)
      invariant Progress(d, now, mappings[..], max, mapIx', offset')
    {
      var value := Value32(o.entries[c], st);
      NextValue(o, st, c);
      ok, mapIx', offset' := MapValue(d, value, mappings, max, mapIx', offset', now);
      if !ok {
        ValuesPrefix(o, st, c, Count(o, st));
        NotMappable(d, now, value, vals + Values(o, st, Count(o, st)), max);
        return;
      }
      now := now + [value];
      c := c + 1;
    }
    Finished(d, now, mappings[..], max, mapIx', offset');
    ok := true;
  }

  lemma NextValue(o: Object, st: Store, c: nat)
    requires MappingReadable(o, st) && 1 <= c <= Count(o, st)
    ensures Values(o, st, c) == Values(o, st, c - 1) + [Value32(o.entries[c], st)]
  {
  }

  lemma NotMappable(d: Dictionary, now: seq<uint32>, value: uint32, all: seq<uint32>, max: nat)
    requires now + [value] <= all && !(|now| < max && Resolves(d, value))
    ensures !Mappable(d, all, max)
  {
    assert all[|now|] == value;
  }

  /** One assigned index: a missing object is skipped. */
  method MapIndexed(d: Dictionary, st: Store, hobj: uint16, mappings: array<SMmap>, max: nat, mapIx: nat,
                    offset: uint32, ghost vals: seq<uint32>)
    returns (ok: bool, mapIx': nat, offset': uint32)
    requires WellFormed(d) && hobj != LIST_END && max <= mappings.Length
    requires ObjectNo(d, hobj) >= 0 ==> MappingReadable(d[ObjectNo(d, hobj)], st)
    requires Progress(d, vals, mappings[..], max, mapIx, offset)
    requires |vals + ValuesOf(d, st, hobj)| <= 254 * 254
    modifies mappings
    ensures ok <==> max == 0 || Mappable(d, vals + ValuesOf(d, st, hobj), max)
    ensures ok ==> Progress(d, vals + ValuesOf(d, st, hobj), mappings[..], max, mapIx', offset')
  {
    var n := FindObject(d, hobj);
    if n < 0 {
      assert vals + ValuesOf(d, st, hobj) == vals;
      Finished(d, vals, mappings[..], max, mapIx, offset);
      return true, mapIx, offset;
    }
    ok, mapIx', offset' := MapObject(d, st, d[n], mappings, max, mapIx, offset, vals);
  }

  /** The outer loop: every assigned index in order. */
  method MapAssigned(d: Dictionary, st: Store, sm: Object, mappings: array<SMmap>, max: nat)
    returns (ok: bool, mapIx: nat, offset: uint32)
    requires WellFormed(d) && AssignReadable(d, st, sm) && max <= mappings.Length
    modifies mappings
    ensures ok <==> max == 0 || Mappable(d, Flatten(d, st, sm), max)
    ensures ok ==> Progress(d, Flatten(d, st, sm), mappings[..], max, mapIx, offset)
  {
    hide Flattened, Flatten, ValuesOf, Mappable, MappingReadable;
    FlattenedEnds(d, st, sm);
    Started(d, mappings[..], max);
    ok, mapIx, offset := true, 0, 0;
    ghost var vals: seq<uint32> := [];
    var sic := 1;
    while sic <= Count(sm, st)
      invariant 1 <= sic <= Count(sm, st) + 1
      invariant vals == Flattened(d, st, sm, sic - 1)
      invariant Progress(d, vals, mappings[..], max, mapIx, offset)
    {
      AssignedStep(d, st, sm, sic);
      var hobj := Value16(sm.entries[sic], st);
      ok, mapIx, offset := MapIndexed(d, st, hobj, mappings, max, mapIx, offset, vals);
      vals := vals + ValuesOf(d, st, hobj);
      if !ok {
        MappablePrefix(d, st, sm, sic, max, vals);
        return;
      }
      sic := sic + 1;
    }
    assert sic - 1 == Count(sm, st);
    Finished(d, vals, mappings[..], max, mapIx, offset);
    ok := true;
  }

  lemma FlattenedEnds(d: Dictionary, st: Store, sm: Object)
    requires AssignReadable(d, st, sm)
    ensures Flattened(d, st, sm, 0) == [] && Flattened(d, st, sm, Count(sm, st)) == Flatten(d, st, sm)
  {
  }

  lemma Started(d: Dictionary, ms: seq<SMmap>, max: nat)
    ensures Progress(d, [], ms, max, 0, 0)
  {
  }

  lemma AssignedStep(d: Dictionary, st: Store, sm: Object, sic: nat)
    requires AssignReadable(d, st, sm) && 1 <= sic <= Count(sm, st)
    ensures var hobj := Value16(sm.entries[sic], st);
            && hobj != LIST_END
            && (ObjectNo(d, hobj) >= 0 ==> MappingReadable(d[ObjectNo(d, hobj)], st))
            && Flattened(d, st, sm, sic) == Flattened(d, st, sm, sic - 1) + ValuesOf(d, st, hobj)
    ensures |Flattened(d, st, sm, sic)| <= 254 * 254
  {
    FlattenedLength(d, st, sm, sic);
  }

  lemma MappablePrefix(d: Dictionary, st: Store, sm: Object, sic: nat, max: nat, vals: seq<uint32>)
    requires AssignReadable(d, st, sm) && sic <= Count(sm, st) && vals == Flattened(d, st, sm, sic)
    requires !Mappable(d, vals, max)
    ensures !Mappable(d, Flatten(d, st, sm), max)
  {
    var all := Flatten(d, st, sm);
    FlattenedPrefix(d, st, sm, sic, Count(sm, st));
    if k :| 0 <= k < |vals| && !Resolves(d, vals[k]) {
      assert all[k] == vals[k];
    }
  }

  /** The lines in use of a list. */
  ghost function Lines(mappings: array<SMmap>, nm: int): seq<SMmap>
    requires nm <= mappings.Length
    reads mappings
  {
    if nm < 0 then [] else mappings[..nm]
  }

  method SizeOfPDO(d: Dictionary, mem: Memory, index: uint16, nmIn: int, mappings: array<SMmap>, max: nat)
    returns (size: uint16, nm: int)
    requires WellFormed(d) && max <= mappings.Length && -1 <= nmIn <= mappings.Length
    requires index in {RX_PDO_OBJIDX, TX_PDO_OBJIDX} ==> CanRecompute(d, mem.cells, index)
    modifies mappings
    ensures -1 <= nm <= mappings.Length
    ensures index in {RX_PDO_OBJIDX, TX_PDO_OBJIDX} ==>
              Pd(size, nm, Lines(mappings, nm)) ==
              old(Recomputed(d, mem.cells, index, max, Pd(0, nmIn, Lines(mappings, nmIn))))
    ensures index !in {RX_PDO_OBJIDX, TX_PDO_OBJIDX} ==>
              size == 0 && nm == nmIn && mappings[..] == old(mappings[..])
  {
    if index != RX_PDO_OBJIDX && index != TX_PDO_OBJIDX {
      return 0, nmIn;
    }
    var nidx := FindObject(d, index);
    if nidx < 0 {
      return 0, nmIn;
    }
    var ok, mapIx, offset := MapAssigned(d, mem.cells, d[nidx], mappings, max);
    if !ok {
      return 0, -1;
    }
    size := BitsToBytes(offset) % 0x1_0000;
    nm := if max > 0 then mapIx else 0;
    ghost var vals := Flatten(d, mem.cells, d[nidx]);
    if max > 0 { SameLayout(d, vals, mappings[..mapIx], LayoutOf(d, vals)); }
  }

  lemma SameLayout(d: Dictionary, vals: seq<uint32>, a: seq<SMmap>, b: seq<SMmap>)
    requires IsLayout(d, vals, a) && IsLayout(d, vals, b)
    ensures a == b
  {
    forall k | 0 <= k < |vals| ensures a[k] == b[k] {
      assert IsLine(d, vals[k], BitOffset(vals, k), a[k]) && IsLine(d, vals[k], BitOffset(vals, k), b[k]);
    }
  }

  lemma Finished(d: Dictionary, all: seq<uint32>, ms: seq<SMmap>, max: nat, mapIx: nat, offset: nat)
    requires Progress(d, all, ms, max, mapIx, offset)
    ensures max > 0 ==> Mappable(d, all, max)
  {
    if max > 0 {
      forall k | 0 <= k < |all| ensures Resolves(d, all[k]) {
        assert IsLine(d, all[k], BitOffset(all, k), ms[..mapIx][k]);
      }
    }
  }

  /** The values met so far are laid out in the list. */
  ghost predicate Progress(d: Dictionary, vals: seq<uint32>, ms: seq<SMmap>, max: nat, mapIx: nat, offset: nat) {
    && offset == BitOffset(vals, |vals|)
    && mapIx <= |ms|
    && (max > 0 ==> mapIx == |vals| <= max && IsLayout(d, vals, ms[..mapIx]))
    && (max == 0 ==> mapIx == 0)
  }

  lemma {:induction false} BitOffsetPrefix(vals: seq<uint32>, more: seq<uint32>, k: nat)
    requires k <= |vals|
    ensures BitOffset(vals + more, k) == BitOffset(vals, k)
  {
    if k > 0 { BitOffsetPrefix(vals, more, k - 1); }
  }

  lemma OffsetsExtend(vals: seq<uint32>, v: uint32)
    ensures forall k | 0 <= k <= |vals| :: BitOffset(vals + [v], k) == BitOffset(vals, k)
    ensures BitOffset(vals + [v], |vals| + 1) == BitOffset(vals, |vals|) + MapBits(v)
  {
    forall k | 0 <= k <= |vals| ensures BitOffset(vals + [v], k) == BitOffset(vals, k) {
      BitOffsetPrefix(vals, [v], k);
    }
  }

  lemma {:induction false} ValuesPrefix(o: Object, st: Store, c: nat, n: nat)
    requires MappingReadable(o, st) && c <= n <= Count(o, st)
    ensures Values(o, st, c) <= Values(o, st, n)
  {
    if c < n { ValuesPrefix(o, st, c, n - 1); }
  }

  lemma {:induction false} FlattenedPrefix(d: Dictionary, st: Store, sm: Object, j: nat, k: nat)
    requires AssignReadable(d, st, sm) && j <= k <= Count(sm, st)
    ensures Flattened(d, st, sm, j) <= Flattened(d, st, sm, k)
  {
    hide ValuesOf, MappingReadable;
    if j < k { FlattenedPrefix(d, st, sm, j, k - 1); }
  }

  /** Writing the line for the next value extends the layout. */
  lemma Advance(d: Dictionary, vals: seq<uint32>, ms: seq<SMmap>, max: nat, mapIx: nat, offset: nat,
                v: uint32, line: SMmap)
    requires Progress(d, vals, ms, max, mapIx, offset) && mapIx < max <= |ms|
    requires IsLine(d, v, offset, line)
    ensures Progress(d, vals + [v], ms[mapIx := line], max, mapIx + 1, offset + MapBits(v))
  {
    OffsetsExtend(vals, v);
    var after := ms[mapIx := line][..mapIx + 1];
    assert after == ms[..mapIx] + [line];
    forall k | 0 <= k <= |vals|
      ensures IsLine(d, (vals + [v])[k], BitOffset(vals + [v], k), after[k])
    {
      if k < |vals| { assert IsLine(d, vals[k], BitOffset(vals, k), ms[..mapIx][k]); }
    }
  }

  lemma {:induction false} FlattenedLength(d: Dictionary, st: Store, sm: Object, k: nat)
    requires AssignReadable(d, st, sm) && k <= Count(sm, st)
    ensures |Flattened(d, st, sm, k)| <= 254 * k
  {
    if k > 0 { FlattenedLength(d, st, sm, k - 1); }
  }

  lemma {:induction false} BitOffsetBound(vals: seq<uint32>, k: nat)
    requires k <= |vals|
    ensures BitOffset(vals, k) <= 255 * k
  {
    if k > 0 { BitOffsetBound(vals, k - 1); }
  }

  lemma {:induction false} OffsetsGrow(vals: seq<uint32>, j: nat, k: nat)
    requires j < k <= |vals|
    ensures BitOffset(vals, j) + MapBits(vals[j]) <= BitOffset(vals, k)
  {
    if j + 1 < k { OffsetsGrow(vals, j, k - 1); }
  }
}
