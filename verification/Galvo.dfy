/**
 The object dictionary of the galvo controller: its mappings, their sizes, and
 that nothing during the exchange can reach them.
 */
module Galvo {
  import opened Words
  import opened ObjectDictionary
  import opened PdoMapping
  import opened ProcessData
  import opened AlControl
  import opened CyclicDriver
  import opened CoeWrites
  import opened SlaveRuns

  const OBJ1000: seq<Entry> := [
    Entry(0, 0x07, 32, 0x07, 0x00001389, None)
  ]
  const OBJ1008: seq<Entry> := [
    Entry(0, 0x09, 144, 0x07, 0, Some(0))
  ]
  const OBJ1018: seq<Entry> := [
    Entry(0, 0x05, 8, 0x07, 4, None),
    Entry(1, 0x07, 32, 0x07, 0, None),
    Entry(2, 0x07, 32, 0x07, 1, None),
    Entry(3, 0x07, 32, 0x07, 1, None),
    Entry(4, 0x07, 32, 0x07, 0, None)
  ]
  const OBJ1600: seq<Entry> := [
    Entry(0, 0x05, 8, 0x07, 7, None),
    Entry(1, 0x21, 32, 0x07, 0x70000110, None),
    Entry(2, 0x21, 32, 0x07, 0x70000220, None),
    Entry(3, 0x21, 32, 0x07, 0x70000320, None),
    Entry(4, 0x21, 32, 0x07, 0x70000420, None),
    Entry(5, 0x21, 32, 0x07, 0x70000520, None),
    Entry(6, 0x21, 32, 0x07, 0x70000620, None),
    Entry(7, 0x21, 32, 0x07, 0x70000710, None)
  ]
  const OBJ1A00: seq<Entry> := [
    Entry(0, 0x05, 8, 0x07, 10, None),
    Entry(1, 0x21, 32, 0x07, 0x60000110, None),
    Entry(2, 0x21, 32, 0x07, 0x60000220, None),
    Entry(3, 0x21, 32, 0x07, 0x60000320, None),
    Entry(4, 0x21, 32, 0x07, 0x60000420, None),
    Entry(5, 0x21, 32, 0x07, 0x60000520, None),
    Entry(6, 0x21, 32, 0x07, 0x60000620, None),
    Entry(7, 0x21, 32, 0x07, 0x60000720, None),
    Entry(8, 0x21, 32, 0x07, 0x60000820, None),
    Entry(9, 0x21, 32, 0x07, 0x60000920, None),
    Entry(10, 0x21, 32, 0x07, 0x60000A20, None)
  ]
  const OBJ1C12: seq<Entry> := [
    Entry(0, 0x05, 8, 0x0F, 1, Some(1)),
    Entry(1, 0x06, 16, 0x0F, 0x1600, Some(2))
  ]
  const OBJ1C13: seq<Entry> := [
    Entry(0, 0x05, 8, 0x0F, 1, Some(3)),
    Entry(1, 0x06, 16, 0x0F, 0x1A00, Some(4))
  ]
  const OBJ6000: seq<Entry> := [
    Entry(0, 0x05, 8, 0x07, 10, None),
    Entry(1, 0x06, 16, 0x87, 0, Some(5)),
    Entry(2, 0x04, 32, 0x87, 0, Some(6)),
    Entry(3, 0x04, 32, 0x87, 0, Some(7)),
    Entry(4, 0x04, 32, 0x87, 0, Some(8)),
    Entry(5, 0x04, 32, 0x87, 0, Some(9)),
    Entry(6, 0x04, 32, 0x87, 0, Some(10)),
    Entry(7, 0x04, 32, 0x87, 0, Some(11)),
    Entry(8, 0x04, 32, 0x87, 0, Some(12)),
    Entry(9, 0x04, 32, 0x87, 0, Some(13)),
    Entry(10, 0x07, 32, 0x87, 0, Some(14))
  ]
  const OBJ7000: seq<Entry> := [
    Entry(0, 0x05, 8, 0x07, 7, None),
    Entry(1, 0x06, 16, 0x7F, 0, Some(15)),
    Entry(2, 0x04, 32, 0x7F, 0, Some(16)),
    Entry(3, 0x04, 32, 0x7F, 0, Some(17)),
    Entry(4, 0x04, 32, 0x7F, 0, Some(18)),
    Entry(5, 0x04, 32, 0x7F, 0, Some(19)),
    Entry(6, 0x07, 32, 0x7F, 0, Some(20)),
    Entry(7, 0x06, 16, 0x7F, 0, Some(21))
  ]

  const SDO_OBJECTS: Dictionary := [
    Object(0x1000, OTYPE_VAR, 0, OBJ1000),
    Object(0x1008, OTYPE_VAR, 0, OBJ1008),
    Object(0x1018, OTYPE_RECORD, 4, OBJ1018),
    Object(0x1600, OTYPE_RECORD, 7, OBJ1600),
    Object(0x1A00, OTYPE_RECORD, 10, OBJ1A00),
    Object(0x1C12, OTYPE_ARRAY, 1, OBJ1C12),
    Object(0x1C13, OTYPE_ARRAY, 1, OBJ1C13),
    Object(0x6000, OTYPE_RECORD, 10, OBJ6000),
    Object(0x7000, OTYPE_RECORD, 7, OBJ7000),
    Object(LIST_END, 0, 0, [])
  ]

  const RX_VALUES: seq<uint32> := [0x70000110, 0x70000220, 0x70000320, 0x70000420, 0x70000520, 0x70000620, 0x70000710]
  const TX_VALUES: seq<uint32> := [0x60000110, 0x60000220, 0x60000320, 0x60000420, 0x60000520, 0x60000620, 0x60000720, 0x60000820, 0x60000920, 0x60000A20]

  lemma ObjectsWellFormed()
    ensures forall i | 0 <= i < |SDO_OBJECTS| - 1 :: WellFormedObject(SDO_OBJECTS[i])
  {
  }

  lemma IsWellFormed()
    ensures WellFormed(SDO_OBJECTS)
  {
    hide WellFormedObject;
    ObjectsWellFormed();
  }

  lemma Positions()
    ensures ObjectNo(SDO_OBJECTS, 0x1600) == 3 && ObjectNo(SDO_OBJECTS, 0x1A00) == 4
    ensures ObjectNo(SDO_OBJECTS, 0x1C12) == 5 && ObjectNo(SDO_OBJECTS, 0x1C13) == 6
    ensures ObjectNo(SDO_OBJECTS, 0x6000) == 7 && ObjectNo(SDO_OBJECTS, 0x7000) == 8
  {
    hide WellFormed;
    IsWellFormed();
    ObjectNoIs(SDO_OBJECTS, 3);
    ObjectNoIs(SDO_OBJECTS, 4);
    ObjectNoIs(SDO_OBJECTS, 5);
    ObjectNoIs(SDO_OBJECTS, 6);
    ObjectNoIs(SDO_OBJECTS, 7);
    ObjectNoIs(SDO_OBJECTS, 8);
  }

  /** The assign objects name the standard mapping objects, as they do by default. */
  predicate DefaultAssigned(st: Store) {
    && |st| == 22 && |st[1]| == 1 && |st[2]| == 2 && |st[3]| == 1 && |st[4]| == 2
    && st[1][0] == 1 && st[2] == [0x00, 0x16] && st[3][0] == 1 && st[4] == [0x00, 0x1A]
  }

  lemma {:induction false} ValuesAre(o: Object, st: Store, n: nat, vals: seq<uint32>)
    requires MappingReadable(o, st) && n <= Count(o, st) && n <= |vals|
    requires forall c | 1 <= c <= n :: o.entries[c].data.None? && o.entries[c].value == vals[c - 1]
    ensures Values(o, st, n) == vals[..n]
  {
    if n > 0 {
      ValuesAre(o, st, n - 1, vals);
      assert vals[..n] == vals[..n - 1] + [vals[n - 1]];
    }
  }

  /** The mapping of an assign object that names one mapping object. */
  lemma OneAssigned(d: Dictionary, st: Store, sm: Object, index: uint16, n: nat)
    requires ListReadable(sm, st, 2) && Count(sm, st) == 1 && Value16(sm.entries[1], st) == index != LIST_END
    requires ObjectNo(d, index) == n < |d| && MappingReadable(d[n], st)
    ensures AssignReadable(d, st, sm) && Flatten(d, st, sm) == Values(d[n], st, Count(d[n], st))
  {
    hide MappingReadable, ObjectNo;
    assert AssignReadable(d, st, sm);
    assert Flattened(d, st, sm, 0) == [];
    assert Flattened(d, st, sm, 1) == Flattened(d, st, sm, 0) + ValuesOf(d, st, index);
  }

  lemma RxMappingObject(st: Store)
    ensures MappingReadable(SDO_OBJECTS[3], st) && Count(SDO_OBJECTS[3], st) == 7
    ensures Values(SDO_OBJECTS[3], st, 7) == RX_VALUES
  {
    ValuesAre(SDO_OBJECTS[3], st, 7, RX_VALUES);
  }

  lemma RxAssignObject(st: Store)
    requires DefaultAssigned(st)
    ensures ListReadable(SDO_OBJECTS[5], st, 2) && Count(SDO_OBJECTS[5], st) == 1
    ensures Value16(SDO_OBJECTS[5].entries[1], st) == 0x1600
  {
  }

  lemma RxFlatten(st: Store)
    requires DefaultAssigned(st)
    ensures CanRecompute(SDO_OBJECTS, st, RX_PDO_OBJIDX)
    ensures Flatten(SDO_OBJECTS, st, SDO_OBJECTS[5]) == RX_VALUES
  {
    hide ObjectNo, MappingReadable, ListReadable, Values, DefaultAssigned, Value16, RX_VALUES;
    Positions();
    RxMappingObject(st);
    RxAssignObject(st);
    OneAssigned(SDO_OBJECTS, st, SDO_OBJECTS[5], 0x1600, 3);
  }

  lemma TxMappingObject(st: Store)
    ensures MappingReadable(SDO_OBJECTS[4], st) && Count(SDO_OBJECTS[4], st) == 10
    ensures Values(SDO_OBJECTS[4], st, 10) == TX_VALUES
  {
    ValuesAre(SDO_OBJECTS[4], st, 10, TX_VALUES);
  }

  lemma TxAssignObject(st: Store)
    requires DefaultAssigned(st)
    ensures ListReadable(SDO_OBJECTS[6], st, 2) && Count(SDO_OBJECTS[6], st) == 1
    ensures Value16(SDO_OBJECTS[6].entries[1], st) == 0x1A00
  {
  }

  lemma TxFlatten(st: Store)
    requires DefaultAssigned(st)
    ensures CanRecompute(SDO_OBJECTS, st, TX_PDO_OBJIDX)
    ensures Flatten(SDO_OBJECTS, st, SDO_OBJECTS[6]) == TX_VALUES
  {
    hide ObjectNo, MappingReadable, ListReadable, Values, DefaultAssigned, Value16, TX_VALUES;
    Positions();
    TxMappingObject(st);
    TxAssignObject(st);
    OneAssigned(SDO_OBJECTS, st, SDO_OBJECTS[6], 0x1A00, 4);
  }

  // Sizes and layout

  lemma RxOffsets()
    ensures BitOffset(RX_VALUES, 0) == 0 && BitOffset(RX_VALUES, 1) == 16 && BitOffset(RX_VALUES, 2) == 48
    ensures BitOffset(RX_VALUES, 3) == 80 && BitOffset(RX_VALUES, 4) == 112 && BitOffset(RX_VALUES, 5) == 144
    ensures BitOffset(RX_VALUES, 6) == 176 && BitOffset(RX_VALUES, 7) == 192
  {
  }

  lemma TxOffsets()
    ensures BitOffset(TX_VALUES, 0) == 0 && BitOffset(TX_VALUES, 1) == 16 && BitOffset(TX_VALUES, 2) == 48
    ensures BitOffset(TX_VALUES, 3) == 80 && BitOffset(TX_VALUES, 4) == 112 && BitOffset(TX_VALUES, 5) == 144
    ensures BitOffset(TX_VALUES, 6) == 176 && BitOffset(TX_VALUES, 7) == 208 && BitOffset(TX_VALUES, 8) == 240
    ensures BitOffset(TX_VALUES, 9) == 272 && BitOffset(TX_VALUES, 10) == 304
  {
  }

  /** The fields of a mapping value. */
  lemma MappingFields(index: uint16, subindex: byte, bits: byte)
    ensures var i: nat, k: nat := index, subindex;
            var v := i * 0x1_0000 + k * 0x100 + bits;
            v < 0x1_0000_0000 && MapIndex(v) == index && MapSub(v) == subindex && MapBits(v) == bits
  {
    var i: nat, k: nat := index, subindex;
    var v := i * 0x1_0000 + k * 0x100 + bits;
    assert v / 0x100 == i * 0x100 + k;
  }

  lemma RxFields(k: nat)
    requires k < 7
    ensures var v := RX_VALUES[k];
            !IsPadding(v) && MapIndex(v) == 0x7000 && MapSub(v) == k + 1 && MapBits(v) == OBJ7000[k + 1].bitlength
  {
    hide MapIndex, MapSub, MapBits;
    MappingFields(0x7000, k + 1, OBJ7000[k + 1].bitlength);
  }

  lemma RxEntry(k: nat)
    requires k < 7
    ensures EntryNo(SDO_OBJECTS[8], k + 1) == k + 1
  {
    hide EntryNo;
    assert WellFormedObject(SDO_OBJECTS[8]) && SDO_OBJECTS[8].entries[k + 1].subindex == k + 1;
    EntryNoIs(SDO_OBJECTS[8], k + 1);
  }

  lemma RxResolves(k: nat)
    requires k < 7
    ensures var v := RX_VALUES[k];
            && !IsPadding(v) && MapIndex(v) == 0x7000 && MapSub(v) == k + 1 && MapBits(v) == OBJ7000[k + 1].bitlength
            && Resolves(SDO_OBJECTS, v) && EntryNo(SDO_OBJECTS[8], k + 1) == k + 1
  {
    hide EntryNo, ObjectNo, MapIndex, MapSub, MapBits, IsPadding, SDO_OBJECTS, RX_VALUES, OBJ7000;
    Positions();
    RxFields(k);
    RxEntry(k);
  }

  lemma TxFields(k: nat)
    requires k < 10
    ensures var v := TX_VALUES[k];
            !IsPadding(v) && MapIndex(v) == 0x6000 && MapSub(v) == k + 1 && MapBits(v) == OBJ6000[k + 1].bitlength
  {
    hide MapIndex, MapSub, MapBits;
    MappingFields(0x6000, k + 1, OBJ6000[k + 1].bitlength);
  }

  lemma TxEntry(k: nat)
    requires k < 10
    ensures EntryNo(SDO_OBJECTS[7], k + 1) == k + 1
  {
    hide EntryNo;
    assert WellFormedObject(SDO_OBJECTS[7]) && SDO_OBJECTS[7].entries[k + 1].subindex == k + 1;
    EntryNoIs(SDO_OBJECTS[7], k + 1);
  }

  lemma TxResolves(k: nat)
    requires k < 10
    ensures var v := TX_VALUES[k];
            && !IsPadding(v) && MapIndex(v) == 0x6000 && MapSub(v) == k + 1 && MapBits(v) == OBJ6000[k + 1].bitlength
            && Resolves(SDO_OBJECTS, v) && EntryNo(SDO_OBJECTS[7], k + 1) == k + 1
  {
    hide EntryNo, ObjectNo, MapIndex, MapSub, MapBits, IsPadding, SDO_OBJECTS, TX_VALUES, OBJ6000;
    Positions();
    TxFields(k);
    TxEntry(k);
  }

  /** Outputs take 24 bytes in 7 entries, all as long as they are mapped, so that packing and unpacking are inverse. */
  lemma RxMapping(st: Store, before: Pd)
    requires DefaultAssigned(st)
    ensures CanRecompute(SDO_OBJECTS, st, RX_PDO_OBJIDX)
    ensures forall k | 0 <= k < 7 :: Resolves(SDO_OBJECTS, RX_VALUES[k])
    ensures Recomputed(SDO_OBJECTS, st, RX_PDO_OBJIDX, 12, before) == Pd(24, 7, LayoutOf(SDO_OBJECTS, RX_VALUES))
    ensures WellMapped(SDO_OBJECTS, RX_VALUES)
  {
    hide Flatten, CanRecompute, Resolves, WellMapped, LayoutOf, ObjectNo, BitOffset;
    RxFlatten(st);
    Positions();
    RxOffsets();
    RxWellMapped();
  }

  lemma RxWellMapped()
    ensures forall k | 0 <= k < 7 :: Resolves(SDO_OBJECTS, RX_VALUES[k])
    ensures WellMapped(SDO_OBJECTS, RX_VALUES)
  {
    hide Resolves, EntryNo, MapIndex, MapSub, MapBits, IsPadding, BitOffset;
    forall k | 0 <= k < 7
      ensures Resolves(SDO_OBJECTS, RX_VALUES[k]) && !IsPadding(RX_VALUES[k])
      ensures MappedLengthFits(SDO_OBJECTS, RX_VALUES[k], BitOffset(RX_VALUES, k))
    {
      RxResolves(k);
      Positions();
    }
  }

  /** Inputs take 38 bytes in 10 entries. */
  lemma TxMapping(st: Store, before: Pd)
    requires DefaultAssigned(st)
    ensures CanRecompute(SDO_OBJECTS, st, TX_PDO_OBJIDX)
    ensures forall k | 0 <= k < 10 :: Resolves(SDO_OBJECTS, TX_VALUES[k])
    ensures Recomputed(SDO_OBJECTS, st, TX_PDO_OBJIDX, 12, before) == Pd(38, 10, LayoutOf(SDO_OBJECTS, TX_VALUES))
    ensures WellMapped(SDO_OBJECTS, TX_VALUES)
  {
    hide Flatten, CanRecompute, Resolves, WellMapped, LayoutOf, ObjectNo, BitOffset;
    TxFlatten(st);
    Positions();
    TxOffsets();
    TxWellMapped();
  }

  lemma TxWellMapped()
    ensures forall k | 0 <= k < 10 :: Resolves(SDO_OBJECTS, TX_VALUES[k])
    ensures WellMapped(SDO_OBJECTS, TX_VALUES)
  {
    hide Resolves, EntryNo, MapIndex, MapSub, MapBits, IsPadding, BitOffset;
    forall k | 0 <= k < 10
      ensures Resolves(SDO_OBJECTS, TX_VALUES[k]) && !IsPadding(TX_VALUES[k])
      ensures MappedLengthFits(SDO_OBJECTS, TX_VALUES[k], BitOffset(TX_VALUES, k))
    {
      TxResolves(k);
      Positions();
    }
  }

  // Protection

  /** The variables behind the dictionary have the sizes of their declarations. */
  predicate GalvoStore(st: Store) {
    |st| == 22 && |st[1]| == |st[3]| == 1 && |st[2]| == |st[4]| == |st[5]| == |st[15]| == 2
  }

  lemma FirstReadable(o: Object, st: Store)
    requires MappingReadable(o, st)
    ensures Count(o, st) > 0 ==> |o.entries| > 1 && CanFetch(o.entries[1], st, 4)
  {
  }

  /** What an assign object can name and be read: the mapping objects, the identity, or an object with nothing in it. */
  lemma AssignedObjects(st: Store, n: nat)
    requires GalvoStore(st) && n < 9 && MappingReadable(SDO_OBJECTS[n], st)
    ensures n in {1, 2, 3, 4, 5, 6}
    ensures n in {1, 5, 6} ==> Count(SDO_OBJECTS[n], st) == 0
  {
    FirstReadable(SDO_OBJECTS[n], st);
  }

  lemma CellsOfObjects(n: nat, c: nat)
    requires n in {1, 2, 3, 4, 5, 6} && StoredIn(SDO_OBJECTS[n], c)
    ensures c <= 4
  {
  }

  lemma PositionBelow(index: nat)
    requires index != LIST_END
    ensures ObjectNo(SDO_OBJECTS, index) < 9
  {
    assert SDO_OBJECTS[9].index == LIST_END;
  }

  /** Both mappings are read from the assign variables and the device name only. */
  lemma MappingCells(st: Store, index: nat, c: nat)
    requires GalvoStore(st) && index in {RX_PDO_OBJIDX, TX_PDO_OBJIDX}
    requires CanRecompute(SDO_OBJECTS, st, index) && ReadsCell(SDO_OBJECTS, st, index, c)
    ensures c <= 4
  {
    Positions();
    hide SDO_OBJECTS, StoredIn, MappingReadable, ObjectNo, GalvoStore;
    var n := ObjectNo(SDO_OBJECTS, index);
    if StoredIn(SDO_OBJECTS[n], c) {
      CellsOfObjects(n, c);
    } else {
      var s :| 1 <= s <= Count(SDO_OBJECTS[n], st) && AssignedReads(SDO_OBJECTS, Value16(SDO_OBJECTS[n].entries[s], st), c);
      var h := Value16(SDO_OBJECTS[n].entries[s], st);
      PositionBelow(h);
      AssignedObjects(st, ObjectNo(SDO_OBJECTS, h));
      CellsOfObjects(ObjectNo(SDO_OBJECTS, h), c);
    }
  }

  /** These variables can be written in Pre-Operational only, and are moved in one message. */
  lemma CellsApart(c: nat, state: nat)
    requires c <= 4 && state in {SAFEOP, OP}
    ensures !WritableCell(SDO_OBJECTS, c, state)
  {
    forall i, j | 0 <= i < |SDO_OBJECTS| && 0 <= j < |SDO_OBJECTS[i].entries| && SDO_OBJECTS[i].entries[j].data == Some(c)
      ensures SDO_OBJECTS[i].entries[j].flags in {0x07, 0x0F}
    {
    }
    assert !WriteAccess(0x0F, state) by { assert !Bit(0x0F / 0x10, 0) && !Bit(0x0F / 0x10, 1); }
    assert !WriteAccess(0x07, state) by { assert !Bit(0x07 / 0x08, 0) && !Bit(0x07 / 0x08, 1) && !Bit(0x07 / 0x08, 2); }
  }

  /** No transfer of one entry ever needs segments. */
  lemma NoTargets(c: nat, state: nat, dsize: nat)
    requires dsize >= 28
    ensures !TransferTarget(SDO_OBJECTS, c, state, dsize)
  {
    forall i, j | 0 <= i < |SDO_OBJECTS| && 0 <= j < |SDO_OBJECTS[i].entries|
      ensures BitsToBytes(SDO_OBJECTS[i].entries[j].bitlength) <= 4 || SDO_OBJECTS[i].entries[j] == OBJ1008[0]
    {
    }
    assert !WriteAccess(0x07, state) by { assert !Bit(0x07 / 0x08, 0) && !Bit(0x07 / 0x08, 1) && !Bit(0x07 / 0x08, 2); }
  }

  /** The value maps a variable of the process data objects, or is padding. */
  predicate MapsVariable(v: uint32) {
    IsPadding(v) || MapIndex(v) in {0x6000, 0x7000}
  }

  predicate MapVariables(vs: seq<uint32>) {
    forall k | 0 <= k < |vs| :: MapsVariable(vs[k])
  }

  lemma IdentityValues(st: Store)
    requires MappingReadable(SDO_OBJECTS[2], st)
    ensures Values(SDO_OBJECTS[2], st, Count(SDO_OBJECTS[2], st)) == [0, 1, 1, 0]
  {
    ValuesAre(SDO_OBJECTS[2], st, 4, [0, 1, 1, 0]);
  }

  lemma StandardValues()
    ensures MapVariables(RX_VALUES) && MapVariables(TX_VALUES) && MapVariables([0, 1, 1, 0])
  {
    forall k | 0 <= k < 7 ensures MapsVariable(RX_VALUES[k]) { RxFields(k); }
    forall k | 0 <= k < 10 ensures MapsVariable(TX_VALUES[k]) { TxFields(k); }
  }

  lemma AssignedValues(st: Store, h: nat)
    requires GalvoStore(st) && h != LIST_END
    requires ObjectNo(SDO_OBJECTS, h) >= 0 ==> MappingReadable(SDO_OBJECTS[ObjectNo(SDO_OBJECTS, h)], st)
    ensures MapVariables(ValuesOf(SDO_OBJECTS, st, h))
  {
    hide MappingReadable, MapsVariable, ObjectNo, RX_VALUES, TX_VALUES, SDO_OBJECTS;
    var n := ObjectNo(SDO_OBJECTS, h);
    if n >= 0 {
      PositionBelow(h);
      AssignedObjects(st, n);
      StandardValues();
      if n == 2 { IdentityValues(st); }
      if n == 3 { RxMappingObject(st); }
      if n == 4 { TxMappingObject(st); }
    }
  }

  lemma {:induction false} FlattenedValues(st: Store, sm: Object, k: nat)
    requires GalvoStore(st) && AssignReadable(SDO_OBJECTS, st, sm) && k <= Count(sm, st)
    ensures MapVariables(Flattened(SDO_OBJECTS, st, sm, k))
  {
    hide MappingReadable, MapsVariable, ObjectNo, SDO_OBJECTS;
    if k > 0 {
      FlattenedValues(st, sm, k - 1);
      AssignedValues(st, Value16(sm.entries[k], st));
    }
  }

  lemma VariablesOnly(n: nat, c: nat)
    requires n in {7, 8} && StoredIn(SDO_OBJECTS[n], c)
    ensures c >= 5
  {
  }

  /** Outputs go to the variables of the process data objects, whatever is assigned. */
  lemma OutputsElsewhere(st: Store, max: nat, before: Pd, c: nat)
    requires GalvoStore(st) && CanRecompute(SDO_OBJECTS, st, RX_PDO_OBJIDX) && c <= 4
    ensures !OutputTo(Recomputed(SDO_OBJECTS, st, RX_PDO_OBJIDX, max, before), c)
  {
    Positions();
    hide SDO_OBJECTS, StoredIn, MappingReadable, ObjectNo, EntryNo, GalvoStore;
    var sm := SDO_OBJECTS[5];
    var vals := Flatten(SDO_OBJECTS, st, sm);
    FlattenedValues(st, sm, Count(sm, st));
    var rx := Recomputed(SDO_OBJECTS, st, RX_PDO_OBJIDX, max, before);
    forall k | 0 <= k < |rx.lines| && rx.lines[k].obj.Some? ensures rx.lines[k].obj.value.data != Some(c) {
      assert IsLine(SDO_OBJECTS, vals[k], BitOffset(vals, k), rx.lines[k]);
      assert MapsVariable(vals[k]);
      var n := ObjectNo(SDO_OBJECTS, MapIndex(vals[k]));
      LineElsewhere(n, EntryNo(SDO_OBJECTS[n], MapSub(vals[k])), c);
    }
  }

  lemma LineElsewhere(n: nat, i: nat, c: nat)
    requires n in {7, 8} && i < |SDO_OBJECTS[n].entries| && c <= 4
    ensures SDO_OBJECTS[n].entries[i].data != Some(c)
  {
    if SDO_OBJECTS[n].entries[i].data == Some(c) { VariablesOnly(n, c); }
  }

  /** With every assignment that can be read, the mapping is out of reach during the whole exchange. */
  lemma AlwaysProtected(st: Store, max: nat, before: Pd, dsize: nat)
    requires GalvoStore(st) && CanRecomputeBoth(SDO_OBJECTS, st) && dsize >= 28
    ensures Protected(SDO_OBJECTS, st, Recomputed(SDO_OBJECTS, st, RX_PDO_OBJIDX, max, before), dsize)
  {
    hide Recomputed, CanRecompute, ReadsCell, WritableCell, TransferTarget, OutputTo, GalvoStore;
    var rx := Recomputed(SDO_OBJECTS, st, RX_PDO_OBJIDX, max, before);
    forall c | HoldsMapping(SDO_OBJECTS, st, c) ensures OutOfReach(SDO_OBJECTS, c, rx, dsize) {
      if ReadsCell(SDO_OBJECTS, st, RX_PDO_OBJIDX, c) {
        MappingCells(st, RX_PDO_OBJIDX, c);
      } else {
        MappingCells(st, TX_PDO_OBJIDX, c);
      }
      CellsApart(c, SAFEOP);
      CellsApart(c, OP);
      NoTargets(c, SAFEOP, dsize);
      NoTargets(c, OP, dsize);
      OutputsElsewhere(st, max, before, c);
    }
  }

  /** Three buffers of output data fit in front of the input data, and the images have room for both. */
  lemma DefaultSizesFit(st: Store, before: Pd)
    requires DefaultAssigned(st)
    ensures CanRecomputeBoth(SDO_OBJECTS, st)
    ensures var rx := Recomputed(SDO_OBJECTS, st, RX_PDO_OBJIDX, 12, before);
            var tx := Recomputed(SDO_OBJECTS, st, TX_PDO_OBJIDX, 12, before);
            0x1100 + 3 * rx.size <= 0x1180 && rx.size <= 32 && tx.size <= 48 && rx.nm <= 12 && tx.nm <= 12
  {
    hide Recomputed, CanRecompute;
    RxMapping(st, before);
    TxMapping(st, before);
  }
}
