/**
 Why the mapping has to be protected: an assign object may name any object, and
 one whose entry can be written in Safe-Operational makes the cached list stale.
 A run that ends so is given, and what such an entry takes to do it.
 */
module StaleMapping {
  import opened Words
  import opened Bytes
  import opened ObjectDictionary
  import opened PdoMapping
  import opened AlControl
  import opened AlRuns
  import opened CyclicDriver
  import opened Mailbox
  import opened SdoTransfer
  import opened CompleteAccess
  import opened CoeHandlers
  import opened CoeAnswers
  import opened SlaveRuns

  const COUNT := Entry(0, 0x0005, 8, 0x07, 1, None)

  /** The one assigned object, 0x2000, is not a mapping object but an ordinary parameter. */
  const ASSIGN := Object(RX_PDO_OBJIDX, OTYPE_ARRAY, 1, [COUNT, Entry(1, 0x0006, 16, 0x07, 0x2000, None)])
  const PARAMETER := Object(0x2000, OTYPE_ARRAY, 1, [COUNT, Entry(1, 0x0007, 32, 0x3F, 0, Some(0))])
  const DICTIONARY: Dictionary := [ASSIGN, PARAMETER, Object(LIST_END, 0, 0, [])]

  const BEFORE: Store := [[0, 0, 0, 0]]
  const AFTER: Store := [[8, 0, 0, 0]]

  lemma Positions()
    ensures ObjectNo(DICTIONARY, RX_PDO_OBJIDX) == 0 && ObjectNo(DICTIONARY, 0x2000) == 1
    ensures ObjectNo(DICTIONARY, TX_PDO_OBJIDX) == -1
  {
    assert FirstObject(DICTIONARY, 0x2000, 1) == 1;
    assert FirstObject(DICTIONARY, TX_PDO_OBJIDX, 3) == -1;
    assert FirstObject(DICTIONARY, TX_PDO_OBJIDX, 2) == -1;
    assert FirstObject(DICTIONARY, TX_PDO_OBJIDX, 1) == -1;
  }

  /** The flattened mapping is the parameter's value. */
  lemma OneValue(st: Store, v: byte)
    requires st == [[v, 0, 0, 0]]
    ensures CanRecomputeBoth(DICTIONARY, st) && Flatten(DICTIONARY, st, ASSIGN) == [v]
  {
    Positions();
    assert Values(PARAMETER, st, 1) == Values(PARAMETER, st, 0) + [v];
    assert ValuesOf(DICTIONARY, st, 0x2000) == [v];
    assert Flattened(DICTIONARY, st, ASSIGN, 1) == Flattened(DICTIONARY, st, ASSIGN, 0) + [v];
  }

  lemma SizeOfOne(v: byte)
    ensures SizeInBytes([v]) == BitsToBytes(v)
  {
    assert BitOffset([v], 1) == BitOffset([v], 0) + v;
  }

  // A run

  /** A download of the value 8 to the parameter, as the master sends it. */
  function DownloadRequest(dsize: nat): Frame
    requires dsize >= 11
  {
    Frame(COE_HEADERSIZE, MBXCOE, 1, [0, COE_SDOREQUEST * 0x10, 0x23, 0x00, 0x20, 0x01, 8, 0, 0, 0] + Zeros(dsize - 10))
  }

  lemma ServesDictionary(st: Store)
    requires |st| == 1 && |st[0]| == 4
    ensures Serviceable(DICTIONARY, st)
  {
    assert WellFormedObject(ASSIGN) && WellFormedObject(PARAMETER);
    assert Loadable(ASSIGN, st) && Loadable(PARAMETER, st);
  }

  lemma RequestFields(dsize: nat)
    requires dsize >= 11
    ensures var r := DownloadRequest(dsize);
            && r.length == COE_HEADERSIZE && r.mtype == MBXCOE && |r.body| == dsize
            && KindOf(r, 0).DownloadOne? && IndexOf(r) == 0x2000 && SubindexOf(r) == 1
            && DownloadSize(r) == 4 && DownloadInside(r) && DownloadData(r) == [8, 0, 0, 0] && !DownloadIsSegmented(r)
  {
    var r := DownloadRequest(dsize);
    assert r.body[6..10] == [8, 0, 0, 0];
  }

  lemma ParameterFound()
    ensures Lookup(DICTIONARY, 0x2000, 1) == Found(1, 1) && WriteAccess(PARAMETER.entries[1].flags, SAFEOP)
  {
    Positions();
    assert FirstEntry(PARAMETER, 1, 1) == 1;
    assert Bit(0x3F / 8, 1);
  }

  /** The server stores the value in Safe-Operational. */
  lemma RequestServed(s: Server, dsize: nat, text: Frame)
    requires s.st == BEFORE && s.sess.segmented == 0 && 11 <= dsize < 0x1_0000 && Shaped(s.mbx)
    requires s.mbx.run && s.mbx.xoe == 0 && s.mbx.control[0] == Inclaim && s.mbx.buf[0] == DownloadRequest(dsize)
    ensures CanProcess(DICTIONARY, s, dsize)
    ensures CoeProcess(DICTIONARY, s, SAFEOP, dsize, text).st == AFTER
  {
    hide DownloadRequest, Serviceable, KindOf, Lookup, DownloadSize, DownloadData, DownloadInside, DownloadIsSegmented, Sent,
      Highest, WriteAccess;
    RequestFields(dsize);
    ServesDictionary(s.st);
    ParameterFound();
    var s1 := TakenOn(s);
    assert s1 == s.(mbx := s.mbx.(xoe := MBXCOE));
    assert CanDownload(DICTIONARY, s1, dsize);
    DownloadServed(DICTIONARY, s1, SAFEOP, dsize);
    assert AFTER[0] == Over(BEFORE[0], 0, [8, 0, 0, 0]);
  }

  const CONFIG := Config(128, 128, 0x1100, 0x24, true, 0x1180, 0x20, true)
  const UNUSED := SmReg(0, 0, 0, false)
  const TO_PREOP := Regs(2, SmReg(0x1000, 128, 0x26, true), SmReg(0x1080, 128, 0x22, true), UNUSED, UNUSED, 0, 0)
  const TO_SAFEOP := Regs(4, UNUSED, UNUSED, SmReg(0x1100, 0, 0x24, false), SmReg(0x1180, 0, 0x20, false), 0, 0)
  const STARTED := Initialised(Al(INIT, 0, 0, 0, 0, false, false, Pd(0, 0, []), Pd(0, 0, []), []))

  /** What the cached list is in Safe-Operational: one line, for a value without length. */
  lemma FirstMapping(max: nat, before: Pd)
    requires max > 0
    ensures CanRecomputeBoth(DICTIONARY, BEFORE)
    ensures Remapped(DICTIONARY, BEFORE, RX_PDO_OBJIDX, max, before).size == 0
    ensures Remapped(DICTIONARY, BEFORE, RX_PDO_OBJIDX, max, before).nm == 1
  {
    Positions();
    OneValue(BEFORE, 0);
    SizeOfOne(0);
    assert Mappable(DICTIONARY, [0], max);
    hide Flatten, CanRecompute;
  }
  lemma ReachesPreOp(rx: Pd, tx: Pd)
    ensures var t := StateRequest(CONFIG, STARTED, true, TO_PREOP, rx, tx);
            && t.status == PREOP && t.error == 0 && t.rx == Pd(0, 0, []) && t.tx == Pd(0, 0, [])
    ensures !Recomputes(STARTED, true, TO_PREOP)
  {
  }

  lemma ReachesSafeOp(al: Al, rx: Pd, tx: Pd)
    requires al.status == PREOP && rx.size == 0 && rx.nm >= 0 && tx.size == 0 && tx.nm >= 0
    ensures var t := StateRequest(CONFIG, al, true, TO_SAFEOP, rx, tx);
            t.status == SAFEOP && t.rx == rx && t.tx == tx
  {
    hide Did, SetError;
  }

  /** The inbox holds the download. */
  predicate Asks(m: Mbx, dsize: nat)
    requires dsize >= 11
  {
    Shaped(m) && m.run && m.xoe == 0 && m.control[0] == Inclaim && m.buf[0] == DownloadRequest(dsize)
  }

  /**
   From the start of the slave, by two accepted requests of the master and one
   ordinary download, to a cache that no longer agrees with the dictionary.
   */
  lemma StaleRun(lim: Limits, srv: Server, m: Mbx, text: Frame) returns (ss: seq<Slave>, steps: seq<Step>)
    requires lim.max2 > 0 && 11 <= lim.dsize < 0x1_0000 && srv.st == BEFORE && srv.sess.segmented == 0 && Asks(m, lim.dsize)
    ensures IsRun(DICTIONARY, CONFIG, lim, ss, steps) && |steps| == 4
    ensures ss[0] == Slave(STARTED, lim.watchdog, srv)
    ensures StateOf(ss[3].al) == SAFEOP && CacheAgrees(DICTIONARY, lim, ss[3].al, ss[3].srv.st)
    ensures StateOf(ss[4].al) == SAFEOP && CanRecomputeBoth(DICTIONARY, ss[4].srv.st)
    ensures !CacheAgrees(DICTIONARY, lim, ss[4].al, ss[4].srv.st)
  {
    hide StateRequest, CoeProcess, CanProcess, CanRecompute, Recomputed, DownloadRequest, Recomputes, STARTED;
    var rx1, tx1 := Remapped(DICTIONARY, BEFORE, RX_PDO_OBJIDX, lim.max2, STARTED.rx),
                    Remapped(DICTIONARY, BEFORE, TX_PDO_OBJIDX, lim.max3, STARTED.tx);
    ReachesPreOp(rx1, tx1);
    var s0 := Slave(STARTED, lim.watchdog, srv);
    var s1 := s0.(al := StateRequest(CONFIG, STARTED, true, TO_PREOP, rx1, tx1));
    FirstMapping(lim.max2, s1.al.rx);
    NoInputs(lim.max3, s1.al.tx);
    var rx2, tx2 := Remapped(DICTIONARY, BEFORE, RX_PDO_OBJIDX, lim.max2, s1.al.rx),
                    Remapped(DICTIONARY, BEFORE, TX_PDO_OBJIDX, lim.max3, s1.al.tx);
    ReachesSafeOp(s1.al, rx2, tx2);
    var s2 := s1.(al := StateRequest(CONFIG, s1.al, true, TO_SAFEOP, rx2, tx2));
    RequestAgrees(DICTIONARY, lim, s1.al, s2.al, BEFORE, rx2, tx2);
    var s3 := s2.(srv := s2.srv.(mbx := m));
    RequestServed(s3.srv, lim.dsize, text);
    var s4 := s3.(srv := CoeProcess(DICTIONARY, s3.srv, SAFEOP, lim.dsize, text));
    ss, steps := [s0, s1, s2, s3, s4], [Request(true, TO_PREOP), Request(true, TO_SAFEOP), Mailboxes(m), Coe(text)];
    assert Next(DICTIONARY, CONFIG, lim, s0, steps[0], s1);
    assert Next(DICTIONARY, CONFIG, lim, s1, steps[1], s2);
    assert Next(DICTIONARY, CONFIG, lim, s2, steps[2], s3);
    assert Next(DICTIONARY, CONFIG, lim, s3, steps[3], s4);
    AfterDiffers(lim, s2.al);
  }

  lemma NoInputs(max: nat, before: Pd)
    ensures Remapped(DICTIONARY, BEFORE, TX_PDO_OBJIDX, max, before) == Pd(0, before.nm, before.lines)
  {
    Positions();
  }

  lemma AfterDiffers(lim: Limits, al: Al)
    requires al.rx.size == 0 && lim.max2 > 0
    ensures CanRecomputeBoth(DICTIONARY, AFTER) && !CacheAgrees(DICTIONARY, lim, al, AFTER)
  {
    Positions();
    OneValue(AFTER, 8);
    SizeOfOne(8);
    assert Mappable(DICTIONARY, [8], lim.max2);
  }

  // When the mapping matters

  /** The mapping of an assign object uses the value in cell c. */
  ghost predicate InUse(d: Dictionary, st: Store, index: nat, cell: nat)
    requires CanRecompute(d, st, index)
  {
    var n := ObjectNo(d, index);
    n >= 0 && exists s | 1 <= s <= Count(d[n], st) :: UsedBy(d, st, Value16(d[n].entries[s], st), cell)
  }

  ghost predicate UsedBy(d: Dictionary, st: Store, h: nat, cell: nat)
    requires ObjectNo(d, h) >= 0 ==> MappingReadable(d[ObjectNo(d, h)], st)
  {
    ObjectNo(d, h) >= 0 && exists c | 1 <= c <= Count(d[ObjectNo(d, h)], st) :: d[ObjectNo(d, h)].entries[c].data == Some(cell)
  }

  /** Cell c holds mapping values, but no assigned index and no count of the lists in use. */
  ghost predicate HoldsValues(d: Dictionary, st: Store, index: nat, cell: nat)
    requires CanRecompute(d, st, index)
  {
    var n := ObjectNo(d, index);
    n >= 0 ==>
      && !StoredIn(d[n], cell)
      && forall s | 1 <= s <= Count(d[n], st) :: CountElsewhere(d, Value16(d[n].entries[s], st), cell)
  }

  ghost predicate CountElsewhere(d: Dictionary, h: nat, cell: nat) {
    var n := ObjectNo(d, h);
    n >= 0 && |d[n].entries| > 0 ==> d[n].entries[0].data != Some(cell)
  }

  /** The mapped length in cell c becomes 8 bits longer, or shorter if it is too long for that. */
  function Resized(st: Store, cell: nat): (r: Store)
    requires cell < |st| && |st[cell]| > 0
    ensures SameSizes(st, r) && forall c | 0 <= c < |st| && c != cell :: r[c] == st[c]
  {
    st[cell := st[cell][0 := if st[cell][0] < 248 then st[cell][0] + 8 else st[cell][0] - 8]]
  }

  function Step8(b: byte): int { if b < 248 then 8 else -8 }

  /** How often the first n values of an object are read from cell c. */
  function Uses(o: Object, cell: nat, n: nat): (k: nat)
    requires n < |o.entries|
    ensures k <= n
  {
    if n == 0 then 0 else Uses(o, cell, n - 1) + (if o.entries[n].data == Some(cell) then 1 else 0)
  }

  lemma {:induction false} JoinedOffset(a: seq<uint32>, b: seq<uint32>, k: nat)
    requires k <= |b|
    ensures BitOffset(a + b, |a| + k) == BitOffset(a, |a|) + BitOffset(b, k)
  {
    if k == 0 {
      BitOffsetPrefix(a, b, |a|);
    } else {
      JoinedOffset(a, b, k - 1);
    }
  }

  lemma ResizedValue(e: Entry, st: Store, cell: nat)
    requires cell < |st| && |st[cell]| > 0 && CanFetch(e, st, 4)
    ensures CanFetch(e, Resized(st, cell), 4)
    ensures MapBits(Value32(e, Resized(st, cell))) ==
            MapBits(Value32(e, st)) + (if e.data == Some(cell) then Step8(st[cell][0]) else 0)
  {
  }

  lemma {:induction false} ResizedValues(o: Object, st: Store, cell: nat, n: nat)
    requires cell < |st| && |st[cell]| > 0 && MappingReadable(o, st) && MappingReadable(o, Resized(st, cell))
    requires n <= Count(o, st) == Count(o, Resized(st, cell))
    ensures BitOffset(Values(o, Resized(st, cell), n), n) ==
            BitOffset(Values(o, st, n), n) + Step8(st[cell][0]) * Uses(o, cell, n)
  {
    hide MapBits, Value32, Step8, Resized;
    if n > 0 {
      var after := Resized(st, cell);
      ResizedValues(o, st, cell, n - 1);
      ResizedValue(o.entries[n], st, cell);
      LastOffset(Values(o, st, n - 1), Value32(o.entries[n], st));
      LastOffset(Values(o, after, n - 1), Value32(o.entries[n], after));
      Distributes(Step8(st[cell][0]), Uses(o, cell, n - 1), o.entries[n].data == Some(cell));
      hide MappingReadable, CanFetch, BitOffset;
    }
  }

  lemma Distributes(x: int, k: nat, more: bool)
    ensures x * (k + (if more then 1 else 0)) == x * k + (if more then x else 0)
  {
  }

  lemma LastOffset(vs: seq<uint32>, v: uint32)
    ensures BitOffset(vs + [v], |vs| + 1) == BitOffset(vs, |vs|) + MapBits(v)
  {
    OffsetsExtend(vs, v);
  }

  // The same for all assigned objects

  ghost function UsesOf(d: Dictionary, st: Store, h: nat, cell: nat): (k: nat)
    requires ObjectNo(d, h) >= 0 ==> MappingReadable(d[ObjectNo(d, h)], st)
    ensures k <= 254
  {
    var n := ObjectNo(d, h);
    if n < 0 then 0 else Uses(d[n], cell, Count(d[n], st))
  }

  ghost function AllUses(d: Dictionary, st: Store, sm: Object, cell: nat, k: nat): (u: nat)
    requires AssignReadable(d, st, sm) && k <= Count(sm, st)
    ensures u <= 254 * k
  {
    if k == 0 then 0 else AllUses(d, st, sm, cell, k - 1) + UsesOf(d, st, Value16(sm.entries[k], st), cell)
  }

  lemma {:induction false} UsedOnce(o: Object, cell: nat, c: nat, n: nat)
    requires 1 <= c <= n < |o.entries| && o.entries[c].data == Some(cell)
    ensures Uses(o, cell, n) >= 1
  {
    if c < n { UsedOnce(o, cell, c, n - 1); }
  }

  lemma {:induction false} UsedSomewhere(d: Dictionary, st: Store, sm: Object, cell: nat, s: nat, k: nat)
    requires AssignReadable(d, st, sm) && 1 <= s <= k <= Count(sm, st) && UsedBy(d, st, Value16(sm.entries[s], st), cell)
    ensures AllUses(d, st, sm, cell, k) >= 1
  {
    if s < k {
      UsedSomewhere(d, st, sm, cell, s, k - 1);
    } else {
      var o := d[ObjectNo(d, Value16(sm.entries[s], st))];
      var c :| 1 <= c <= Count(o, st) && o.entries[c].data == Some(cell);
      UsedOnce(o, cell, c, Count(o, st));
    }
  }

  /** An assigned object contributes 8 bits more, or less, for each of its values in the cell. */
  lemma ResizedAssigned(d: Dictionary, st: Store, h: nat, cell: nat)
    requires cell < |st| && |st[cell]| > 0 && CountElsewhere(d, h, cell)
    requires ObjectNo(d, h) >= 0 ==> MappingReadable(d[ObjectNo(d, h)], st)
    requires ObjectNo(d, h) >= 0 ==> MappingReadable(d[ObjectNo(d, h)], Resized(st, cell))
    ensures var a, b := ValuesOf(d, Resized(st, cell), h), ValuesOf(d, st, h);
            BitOffset(a, |a|) == BitOffset(b, |b|) + Step8(st[cell][0]) * UsesOf(d, st, h, cell)
  {
    var n := ObjectNo(d, h);
    if n >= 0 { ResizedValues(d[n], st, cell, Count(d[n], st)); }
  }

  lemma {:induction false} ResizedFlattened(d: Dictionary, st: Store, sm: Object, cell: nat, k: nat)
    requires cell < |st| && |st[cell]| > 0
    requires AssignReadable(d, st, sm) && AssignReadable(d, Resized(st, cell), sm) && !StoredIn(sm, cell)
    requires forall s | 1 <= s <= Count(sm, st) :: CountElsewhere(d, Value16(sm.entries[s], st), cell)
    requires k <= Count(sm, st) == Count(sm, Resized(st, cell))
    ensures var a, b := Flattened(d, Resized(st, cell), sm, k), Flattened(d, st, sm, k);
            BitOffset(a, |a|) == BitOffset(b, |b|) + Step8(st[cell][0]) * AllUses(d, st, sm, cell, k)
  {
    hide ValuesOf, UsesOf, BitOffset, Step8, MappingReadable;
    if k == 0 {
      assert BitOffset([], 0) == 0 by { NoOffset(); }
    } else {
      var after := Resized(st, cell);
      ResizedFlattened(d, st, sm, cell, k - 1);
      assert sm.entries[k].data != Some(cell);
      var h := Value16(sm.entries[k], st);
      assert Value16(sm.entries[k], after) == h;
      ResizedAssigned(d, st, h, cell);
      JoinedOffset(Flattened(d, st, sm, k - 1), ValuesOf(d, st, h), |ValuesOf(d, st, h)|);
      JoinedOffset(Flattened(d, after, sm, k - 1), ValuesOf(d, after, h), |ValuesOf(d, after, h)|);
      Sums(Step8(st[cell][0]), AllUses(d, st, sm, cell, k - 1), UsesOf(d, st, h, cell));
    }
  }

  lemma NoOffset()
    ensures BitOffset([], 0) == 0
  {
  }

  lemma Sums(x: int, a: nat, b: nat)
    ensures x * (a + b) == x * a + x * b
  {
  }

  lemma DifferentSizes(a: nat, b: nat, x: int, k: nat)
    requires x in {8, -8} && 1 <= k < 0x1_0000 && a == b + x * k
    ensures BitsToBytes(a) % 0x1_0000 != BitsToBytes(b) % 0x1_0000
  {
    if x == 8 {
      assert BitsToBytes(a) == BitsToBytes(b) + k;
    } else {
      assert BitsToBytes(b) == BitsToBytes(a) + k;
    }
  }

  /**
   A mapping value in use matters: changing its length by 8 bits, without any
   change of sizes, makes the computed mapping different from every valid list
   computed before.
   */
  lemma ResizedDiffers(d: Dictionary, st: Store, index: nat, max: nat, pd: Pd, cell: nat)
    requires cell < |st| && |st[cell]| > 0 && CanRecompute(d, st, index)
    requires InUse(d, st, index, cell) && HoldsValues(d, st, index, cell)
    requires pd == Recomputed(d, st, index, max, pd) && pd.nm >= 0 && CanRecompute(d, Resized(st, cell), index)
    ensures pd != Recomputed(d, Resized(st, cell), index, max, pd)
  {
    var sm := d[ObjectNo(d, index)];
    var after := Resized(st, cell);
    assert sm.entries[0].data != Some(cell);
    assert Count(sm, after) == Count(sm, st);
    var n := Count(sm, st);
    var s :| 1 <= s <= n && UsedBy(d, st, Value16(sm.entries[s], st), cell);
    UsedSomewhere(d, st, sm, cell, s, n);
    ResizedFlattened(d, st, sm, cell, n);
    hide Flattened, AssignReadable, Mappable, AllUses, Resized, CountElsewhere, UsedBy;
    var a, b := Flatten(d, after, sm), Flatten(d, st, sm);
    DifferentSizes(BitOffset(a, |a|), BitOffset(b, |b|), Step8(st[cell][0]), AllUses(d, st, sm, cell, n));
  }

  /**
   So does a cell that holds a mapping value in use and can be written now: that
   change is of this cell alone, and the cached list is stale after it.
   */
  lemma WritableValueMakesStale(d: Dictionary, lim: Limits, al: Al, st: Store, index: nat, cell: nat)
    requires CacheAgrees(d, lim, al, st) && al.rx.nm >= 0 && al.tx.nm >= 0 && cell < |st| && |st[cell]| > 0
    requires index in {RX_PDO_OBJIDX, TX_PDO_OBJIDX}
    requires InUse(d, st, index, cell) && HoldsValues(d, st, index, cell) && WritableCell(d, cell, StateOf(al))
    ensures ChangesWritable(d, StateOf(al), st, Resized(st, cell))
    ensures !CacheAgrees(d, lim, al, Resized(st, cell))
  {
    hide Resized, Recomputed, CanRecompute, InUse, HoldsValues;
    if CanRecomputeBoth(d, Resized(st, cell)) {
      if index == RX_PDO_OBJIDX {
        ResizedDiffers(d, st, index, lim.max2, al.rx, cell);
      } else {
        ResizedDiffers(d, st, index, lim.max3, al.tx, cell);
      }
    }
  }
}
