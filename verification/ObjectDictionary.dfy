/**
 The object dictionary: a constant table of objects whose entries either hold
 a constant value or refer to a storage cell of the application.
 */
module ObjectDictionary {
  import opened Words
  import opened Bytes

  datatype Option<+T> = None | Some(value: T)

  datatype Entry = Entry(subindex: uint16, dtype: uint16, bitlength: uint16, flags: uint16,
                         value: uint32, data: Option<nat>)

  datatype Object = Object(index: uint16, objtype: uint16, maxsub: byte, entries: seq<Entry>)

  type Dictionary = seq<Object>
  type Store = seq<seq<byte>>

  /** The application variables the dictionary's entries point to. */
  class Memory {
    var cells: Store

    constructor (cells: Store)
      ensures this.cells == cells
    {
      this.cells := cells;
    }

    /** Bytes are put at a position of one variable. */
    method Put(c: nat, at: nat, bs: seq<byte>)
      requires c < |cells| && at + |bs| <= |cells[c]|
      modifies this
      ensures cells == old(cells)[c := Over(old(cells)[c], at, bs)]
    {
      cells := cells[c := Over(cells[c], at, bs)];
    }
  }

  /** Storage of the same shape: every variable keeps its size. */
  predicate SameSizes(st: Store, after: Store) {
    |after| == |st| && forall c | 0 <= c < |st| :: |after[c]| == |st[c]|
  }

  const LIST_END: uint16 := 0xFFFF

  const OTYPE_VAR: uint16 := 0x0007
  const OTYPE_ARRAY: uint16 := 0x0008
  const OTYPE_RECORD: uint16 := 0x0009

  /** The list is strictly sorted, ends with the end marker and each object has maxsub + 1 sorted entries. */
  ghost predicate WellFormed(d: Dictionary) {
    && |d| > 0
    && d[|d| - 1].index == LIST_END
    && (forall i, j | 0 <= i < j < |d| :: d[i].index < d[j].index)
    && (forall i | 0 <= i < |d| - 1 :: WellFormedObject(d[i]))
  }

  ghost predicate WellFormedObject(o: Object) {
    && |o.entries| == o.maxsub + 1
    && (forall i, j | 0 <= i < j < |o.entries| :: o.entries[i].subindex < o.entries[j].subindex)
  }

  /** Position of the object with this index, or -1. */
  function ObjectNo(d: Dictionary, index: nat): (n: int)
    ensures n == -1 || (0 <= n < |d| && d[n].index == index)
  {
    FirstObject(d, index, 0)
  }

  function FirstObject(d: Dictionary, index: nat, from: nat): (n: int)
    ensures n == -1 || (from <= n < |d| && d[n].index == index)
    decreases |d| - from
  {
    if from >= |d| then -1 else if d[from].index == index then from else FirstObject(d, index, from + 1)
  }

  /** Position of the entry with this subindex, or -1. */
  function EntryNo(o: Object, subindex: nat): (n: int)
    ensures n == -1 || (0 <= n < |o.entries| && o.entries[n].subindex == subindex)
  {
    FirstEntry(o, subindex, 0)
  }

  function FirstEntry(o: Object, subindex: nat, from: nat): (n: int)
    ensures n == -1 || (from <= n < |o.entries| && o.entries[n].subindex == subindex)
    decreases |o.entries| - from
  {
    if from >= |o.entries| then -1
    else if o.entries[from].subindex == subindex then from
    else FirstEntry(o, subindex, from + 1)
  }

  /** -1 is returned only for an index that is not in the list. */
  lemma {:induction false} NoObject(d: Dictionary, index: nat, from: nat)
    requires FirstObject(d, index, from) == -1
    ensures forall n | from <= n < |d| :: d[n].index != index
    decreases |d| - from
  {
    if from < |d| { NoObject(d, index, from + 1); }
  }

  lemma {:induction false} NoEntry(o: Object, subindex: nat, from: nat)
    requires FirstEntry(o, subindex, from) == -1
    ensures forall n | from <= n < |o.entries| :: o.entries[n].subindex != subindex
    decreases |o.entries| - from
  {
    if from < |o.entries| { NoEntry(o, subindex, from + 1); }
  }

  /** In a sorted list the position found is the only one. */
  lemma ObjectNoIs(d: Dictionary, n: nat)
    requires WellFormed(d) && n < |d|
    ensures ObjectNo(d, d[n].index) == n
  {
    if ObjectNo(d, d[n].index) == -1 { NoObject(d, d[n].index, 0); }
  }

  lemma EntryNoIs(o: Object, n: nat)
    requires WellFormedObject(o) && n < |o.entries|
    ensures EntryNo(o, o.entries[n].subindex) == n
  {
    if EntryNo(o, o.entries[n].subindex) == -1 { NoEntry(o, o.entries[n].subindex, 0); }
  }

  method FindObject(d: Dictionary, index: uint16) returns (n: int)
    requires WellFormed(d)
    ensures n == ObjectNo(d, index)
    ensures n == |d| - 1 <==> index == LIST_END
  {
    n := 0;
    while d[n].index < index
      invariant 0 <= n < |d|
      invariant forall i | 0 <= i < n :: d[i].index < index
    {
      n := n + 1;
    }
    if d[n].index == index {
      ObjectNoIs(d, n);
    } else {
      n := -1;
    }
  }

  method FindSubindex(o: Object, subindex: byte) returns (n: int)
    requires WellFormedObject(o)
    ensures n == EntryNo(o, subindex)
  {
    if subindex <= o.maxsub && o.entries[subindex].subindex == subindex {
      EntryNoIs(o, subindex);
      return subindex;
    }
    n := 0;
    while o.entries[n].subindex < subindex && n < o.maxsub
      invariant 0 <= n <= o.maxsub
      invariant forall i | 0 <= i < n :: o.entries[i].subindex < subindex
    {
      n := n + 1;
    }
    if o.entries[n].subindex == subindex {
      EntryNoIs(o, n);
    } else {
      n := -1;
    }
  }

  // The value of an entry read as an unsigned number of 1, 2 or 4 bytes (OBJ_VALUE_FETCH)

  predicate CanFetch(e: Entry, store: Store, w: nat) {
    e.data.Some? ==> e.data.value < |store| && w <= |store[e.data.value]|
  }

  function Value8(e: Entry, store: Store): byte
    requires CanFetch(e, store, 1)
  {
    match e.data
    case Some(c) => store[c][0]
    case None => e.value % 0x100
  }

  function Value16(e: Entry, store: Store): uint16
    requires CanFetch(e, store, 2)
  {
    match e.data
    case Some(c) => store[c][0] + 0x100 * store[c][1]
    case None => e.value % 0x1_0000
  }

  function Value32(e: Entry, store: Store): uint32
    requires CanFetch(e, store, 4)
  {
    match e.data
    case Some(c) => store[c][0] + 0x100 * store[c][1] + 0x1_0000 * store[c][2] + 0x100_0000 * store[c][3]
    case None => e.value
  }

  // Access rights, by the state nibble of the AL status

  predicate ReadAccess(flags: nat, state: nat) {
    || (Bit(flags, 0) && state == 2)
    || (Bit(flags, 1) && state == 4)
    || (Bit(flags, 2) && state == 8)
  }

  predicate WriteAccess(flags: nat, state: nat) {
    || (Bit(flags, 3) && state == 2)
    || (Bit(flags, 4) && state == 4)
    || (Bit(flags, 5) && state == 8)
  }

  /** Some entry stored in cell c may be written in this state. */
  predicate WritableCell(d: Dictionary, c: nat, state: nat) {
    exists i, j | 0 <= i < |d| && 0 <= j < |d[i].entries| ::
      d[i].entries[j].data == Some(c) && WriteAccess(d[i].entries[j].flags, state)
  }

  /** What downloads may do in a state: change cells of writable entries, keeping their size. */
  ghost predicate ChangesWritable(d: Dictionary, state: nat, st: Store, after: Store) {
    SameSizes(st, after) && forall c | 0 <= c < |st| && !WritableCell(d, c, state) :: after[c] == st[c]
  }

  /** Number of bytes that hold this many bits. */
  function BitsToBytes(bits: nat): nat {
    (bits + 7) / 8
  }
}
