/**
 The list of all object indexes, sent in as many fragments as the mailbox needs
 (SDO_getodlist, SDO_getodlistcont).
 */
module ObjectList {
  import opened Words
  import opened Bytes
  import opened ObjectDictionary
  import opened Mailbox
  import opened SdoTransfer

  const COE_GETODLISTRESPONSE: byte := 0x02

  /** Number of objects before the end marker. */
  function Entries(d: Dictionary): nat
    requires |d| > 0
  {
    |d| - 1
  }

  /** Bytes of index list in one fragment. */
  function OdListSize(dsize: nat): nat
    requires dsize >= 8
  {
    (dsize - 8) / 2 * 2
  }

  function PerFragment(dsize: nat): nat
    requires dsize >= 8
  {
    OdListSize(dsize) / 2
  }

  function Fragments(entries: nat, dsize: nat): nat
    requires dsize >= 10
  {
    (2 * entries + OdListSize(dsize) - 1) / OdListSize(dsize)
  }

  /** The indexes at positions from..to of the dictionary. */
  function Listed(d: Dictionary, from: nat, to: nat): (l: seq<uint16>)
    requires from <= to <= |d|
    ensures |l| == to - from
  {
    if from == to then [] else Listed(d, from, to - 1) + [d[to - 1].index]
  }

  function Encoded(l: seq<uint16>): (bs: seq<byte>)
    ensures |bs| == 2 * |l|
  {
    if l == [] then [] else Encoded(l[..|l| - 1]) + Le16(l[|l| - 1])
  }

  function ListHeader(incomplete: bool, left: nat): seq<byte> {
    [0, COE_SDOINFORMATION * 0x10, COE_GETODLISTRESPONSE + (if incomplete then 0x80 else 0), 0] + Le16(left)
  }

  /** The first fragment: the request's list type 1, then the indexes. */
  function FirstFragment(l: seq<uint16>, frags: nat): Frame
    requires 1 <= frags && 8 + 2 * |l| < 0x1_0000
  {
    Frame(8 + 2 * |l|, MBXCOE, 0, ListHeader(frags > 1, frags - 1) + Le16(1) + Encoded(l))
  }

  function NextFragment(l: seq<uint16>, fragsleft: nat): Frame
    requires 1 <= fragsleft && 6 + 2 * |l| < 0x1_0000
  {
    Frame(6 + 2 * |l|, MBXCOE, 0, ListHeader(fragsleft > 1, fragsleft - 1) + Encoded(l))
  }

  /** How many indexes go into the first fragment. */
  function FirstCount(entries: nat, dsize: nat): nat
    requires dsize >= 10
  {
    if Fragments(entries, dsize) > 1 then PerFragment(dsize) else entries
  }

  function NextFrom(frags: nat, fragsleft: nat, dsize: nat): nat
    requires dsize >= 10 && fragsleft <= frags
  {
    (frags - fragsleft) * PerFragment(dsize)
  }

  function NextTo(entries: nat, frags: nat, fragsleft: nat, dsize: nat): nat
    requires dsize >= 10 && fragsleft <= frags
  {
    if fragsleft > 1 then NextFrom(frags, fragsleft, dsize) + PerFragment(dsize) else entries
  }

  // Why the fragments cover the list

  lemma FragmentCount(entries: nat, dsize: nat)
    requires dsize >= 10 && entries >= 1
    ensures var per := PerFragment(dsize);
            var n := Fragments(entries, dsize);
            per >= 1 && n >= 1 && (n - 1) * per < entries <= n * per
  {
    var size := OdListSize(dsize);
    var x := 2 * entries + size - 1;
    var n := x / size;
    assert x == n * size + x % size;
    assert n * size == 2 * (n * PerFragment(dsize)) by { Doubled(n, PerFragment(dsize)); }
    assert (n - 1) * PerFragment(dsize) == n * PerFragment(dsize) - PerFragment(dsize);
  }

  lemma Doubled(n: nat, p: nat)
    ensures n * (2 * p) == 2 * (n * p)
  {
  }

  lemma Between(k: nat, n: nat, per: nat)
    requires k < n
    ensures k * per + per <= n * per
    ensures k + 1 < n ==> k * per + per <= (n - 1) * per
    ensures k <= n - 1 && k * per <= (n - 1) * per
  {
    assert k * per + per == (k + 1) * per;
    Ordered(k + 1, n, per);
    Ordered(k, n - 1, per);
    if k + 1 < n { Ordered(k + 1, n - 1, per); }
  }

  lemma {:induction false} Ordered(a: nat, b: nat, per: nat)
    requires a <= b
    ensures a * per <= b * per
  {
    if a < b { Ordered(a, b - 1, per); }
  }

  /** A continued fragment takes up where the one before ended, is not empty, and fits the mailbox. */
  lemma NextBounds(entries: nat, frags: nat, fragsleft: nat, dsize: nat)
    requires dsize >= 10 && entries >= 1 && frags == Fragments(entries, dsize) && 1 <= fragsleft < frags
    ensures var from, to := NextFrom(frags, fragsleft, dsize), NextTo(entries, frags, fragsleft, dsize);
            && from < to <= entries && 6 + 2 * (to - from) <= dsize
            && (fragsleft > 1 ==> to == NextFrom(frags, fragsleft - 1, dsize))
            && (fragsleft == 1 ==> to == entries)
  {
    FragmentCount(entries, dsize);
    Between(frags - fragsleft, frags, PerFragment(dsize));
  }

  lemma FirstBounds(entries: nat, dsize: nat)
    requires dsize >= 10 && entries >= 1
    ensures 1 <= FirstCount(entries, dsize) <= entries && 8 + 2 * FirstCount(entries, dsize) <= dsize
    ensures Fragments(entries, dsize) > 1 ==>
              FirstCount(entries, dsize) == NextFrom(Fragments(entries, dsize), Fragments(entries, dsize) - 1, dsize)
  {
    FragmentCount(entries, dsize);
    if Fragments(entries, dsize) > 1 { Between(0, Fragments(entries, dsize), PerFragment(dsize)); }
  }

  /** The indexes of all fragments still to come. */
  function Rest(d: Dictionary, frags: nat, fragsleft: nat, dsize: nat): seq<uint16>
    requires |d| > 1 && dsize >= 10 && frags == Fragments(Entries(d), dsize) && fragsleft < frags
    decreases fragsleft
  {
    if fragsleft == 0 then []
    else
      NextBounds(Entries(d), frags, fragsleft, dsize);
      Listed(d, NextFrom(frags, fragsleft, dsize), NextTo(Entries(d), frags, fragsleft, dsize))
      + Rest(d, frags, fragsleft - 1, dsize)
  }

  lemma {:induction false} RestIs(d: Dictionary, frags: nat, fragsleft: nat, dsize: nat)
    requires |d| > 1 && dsize >= 10 && frags == Fragments(Entries(d), dsize) && 1 <= fragsleft < frags
    ensures NextFrom(frags, fragsleft, dsize) <= Entries(d)
    ensures Rest(d, frags, fragsleft, dsize) == Listed(d, NextFrom(frags, fragsleft, dsize), Entries(d))
    decreases fragsleft
  {
    NextBounds(Entries(d), frags, fragsleft, dsize);
    var from, to := NextFrom(frags, fragsleft, dsize), NextTo(Entries(d), frags, fragsleft, dsize);
    if fragsleft > 1 {
      RestIs(d, frags, fragsleft - 1, dsize);
      ListedJoin(d, from, to, Entries(d));
    }
  }

  lemma {:induction false} ListedJoin(d: Dictionary, a: nat, b: nat, c: nat)
    requires a <= b <= c <= |d|
    ensures Listed(d, a, b) + Listed(d, b, c) == Listed(d, a, c)
  {
    if b < c { ListedJoin(d, a, b, c - 1); }
  }

  lemma {:induction false} ListedAt(d: Dictionary, from: nat, to: nat, i: nat)
    requires from <= to <= |d| && i < to - from
    ensures Listed(d, from, to)[i] == d[from + i].index
  {
    if i < to - from - 1 { ListedAt(d, from, to - 1, i); }
  }

  /** The first fragment and all continued ones list every object of the dictionary, once and in order. */
  lemma AllObjectsListed(d: Dictionary, dsize: nat)
    requires |d| > 1 && dsize >= 10
    ensures var frags := Fragments(Entries(d), dsize);
            var n := FirstCount(Entries(d), dsize);
            && frags >= 1 && n <= Entries(d)
            && Listed(d, 0, n) + Rest(d, frags, frags - 1, dsize) == Listed(d, 0, Entries(d))
    ensures forall i | 0 <= i < Entries(d) :: Listed(d, 0, Entries(d))[i] == d[i].index
  {
    forall i | 0 <= i < Entries(d) ensures Listed(d, 0, Entries(d))[i] == d[i].index {
      ListedAt(d, 0, Entries(d), i);
    }
    FragmentCount(Entries(d), dsize);
    FirstBounds(Entries(d), dsize);
    var frags := Fragments(Entries(d), dsize);
    var n := FirstCount(Entries(d), dsize);
    if frags > 1 {
      RestIs(d, frags, frags - 1, dsize);
      ListedJoin(d, 0, n, Entries(d));
    }
  }

  /** The encoded list can be read back: index i is at byte 2 * i. */
  lemma {:induction false} EncodedAt(l: seq<uint16>, i: nat)
    requires i < |l|
    ensures Word(Encoded(l)[2 * i], Encoded(l)[2 * i + 1]) == l[i]
  {
    var n := |l| - 1;
    if i < n {
      EncodedAt(l[..n], i);
    } else {
      WordOfLe16(l[n]);
    }
  }
}
