/**
 The list of all objects as the master receives it: the frames a server queues
 for one request and its continuations, read back.
 */
module ListTransfer {
  import opened Words
  import opened Bytes
  import opened ObjectDictionary
  import opened Mailbox
  import opened SdoTransfer
  import opened ObjectList
  import opened CoeHandlers
  import opened CoeAnswers

  /** The indexes in a sequence of bytes. */
  function Decoded(bs: seq<byte>): (l: seq<uint16>)
    ensures |l| == |bs| / 2
  {
    if |bs| < 2 then [] else [Word(bs[0], bs[1])] + Decoded(bs[2..])
  }

  lemma {:induction false} DecodedAt(bs: seq<byte>, i: nat)
    requires i < |bs| / 2
    ensures Decoded(bs)[i] == Word(bs[2 * i], bs[2 * i + 1])
  {
    if i > 0 { DecodedAt(bs[2..], i - 1); }
  }

  lemma DecodedEncoded(l: seq<uint16>)
    ensures Decoded(Encoded(l)) == l
  {
    hide Decoded, Encoded;
    forall i | 0 <= i < |l| ensures Decoded(Encoded(l))[i] == l[i] {
      DecodedAt(Encoded(l), i);
      EncodedAt(l, i);
    }
  }

  /** The indexes in a fragment; the first one starts with the list type. */
  function IndexesIn(f: Frame, first: bool): seq<uint16> {
    if |f.body| < 8 then [] else Decoded(f.body[if first then 8 else 6..])
  }

  lemma FirstIndexes(header: seq<byte>, l: seq<uint16>)
    requires |header| == 6
    ensures (header + Le16(1) + Encoded(l))[8..] == Encoded(l)
    ensures (header + Encoded(l))[6..] == Encoded(l)
  {
    assert |Le16(1)| == 2;
  }

  /** A fragment fits the mailbox and carries these indexes. */
  ghost predicate Carries(f: Frame, first: bool, l: seq<uint16>, dsize: nat) {
    f.length == |f.body| <= dsize && IndexesIn(f, first) == l
  }

  /** The message queued in the buffer that was free. */
  function AnswerIn(m: Mbx, r: Mbx): Frame {
    if Shaped(m) && FreeBuffer(m) < |r.buf| then r.buf[FreeBuffer(m)] else ErrorFrame(0)
  }

  lemma SentAnswer(m: Mbx, r: Mbx, f: Frame)
    requires Shaped(m) && FreeBuffer(m) > 0 && r.buf == Sent(m, f).buf
    ensures AnswerIn(m, r).body == f.body && AnswerIn(m, r).length == f.length
  {
    SentFrame(m, f);
    hide Sent, Highest;
  }

  lemma BeginsWith(d: Dictionary, s: Server, dsize: nat)
    requires Shaped(s.mbx) && IsRequest(s.mbx.buf[0]) && 11 <= dsize < 0x1_0000 && 1 < |d| <= 0x1_0000
    requires FreeBuffer(s.mbx) > 0 && SizeField(s.mbx.buf[0]) == 1
    ensures FirstCount(Entries(d), dsize) <= |d| && 8 + 2 * FirstCount(Entries(d), dsize) < 0x1_0000
    ensures Fragments(Entries(d), dsize) >= 1
    ensures var frags := Fragments(Entries(d), dsize);
            var t := SdoGetOdList(d, s, dsize);
            && t.mbx.buf == Sent(s.mbx, FirstFragment(Listed(d, 0, FirstCount(Entries(d), dsize)), frags)).buf
            && t.mbx.xoe == (if frags > 1 then MBXCOE + MBXODL else 0)
            && (frags > 1 ==> Listing(d, t, dsize)) && t.sess.fragsleft == frags - 1
  {
    hide Highest, Fragments, Listed, FirstCount, Claimed, FreeBuffer, Queued, FirstFragment, Sent;
    FragmentCount(Entries(d), dsize);
    FirstBounds(Entries(d), dsize);
    SentIs(s.mbx, FirstFragment(Listed(d, 0, FirstCount(Entries(d), dsize)), Fragments(Entries(d), dsize)));
  }

  /** The first fragment. */
  lemma ListBegins(d: Dictionary, s: Server, dsize: nat)
    requires Shaped(s.mbx) && IsRequest(s.mbx.buf[0]) && 11 <= dsize < 0x1_0000 && 1 < |d| <= 0x1_0000
    requires FreeBuffer(s.mbx) > 0 && SizeField(s.mbx.buf[0]) == 1
    ensures FirstCount(Entries(d), dsize) <= |d|
    ensures Carries(AnswerIn(s.mbx, SdoGetOdList(d, s, dsize).mbx), true, Listed(d, 0, FirstCount(Entries(d), dsize)), dsize)
  {
    hide SdoGetOdList, Listed, FirstCount, Fragments, Encoded, Decoded, AnswerIn, FreeBuffer;
    BeginsWith(d, s, dsize);
    FirstBounds(Entries(d), dsize);
    var frags := Fragments(Entries(d), dsize);
    var l := Listed(d, 0, FirstCount(Entries(d), dsize));
    SentAnswer(s.mbx, SdoGetOdList(d, s, dsize).mbx, FirstFragment(l, frags));
    FirstIndexes(ListHeader(frags > 1, frags - 1), l);
    DecodedEncoded(l);
  }

  /** A continued one. */
  lemma ListGoesOn(d: Dictionary, s: Server, dsize: nat)
    requires Shaped(s.mbx) && 11 <= dsize < 0x1_0000 && Listing(d, s, dsize) && FreeBuffer(s.mbx) > 0
    requires s.mbx.xoe == MBXCOE + MBXODL
    ensures var t := SdoGetOdListCont(d, s, dsize);
            var from := NextFrom(s.sess.frags, s.sess.fragsleft, dsize);
            var to := NextTo(s.entries, s.sess.frags, s.sess.fragsleft, dsize);
            && from < to <= Entries(d)
            && Carries(AnswerIn(s.mbx, t.mbx), false, Listed(d, from, to), dsize)
            && t.sess.fragsleft == s.sess.fragsleft - 1
            && (if t.sess.fragsleft == 0 then t.mbx.xoe == 0 else t.mbx.xoe == s.mbx.xoe && Listing(d, t, dsize))
  {
    ListContinues(d, s, dsize);
    var from := NextFrom(s.sess.frags, s.sess.fragsleft, dsize);
    var l := Listed(d, from, NextTo(s.entries, s.sess.frags, s.sess.fragsleft, dsize));
    hide Highest, Fragments, NextFrom, NextTo, Sent, Encoded, Decoded, SdoGetOdListCont, FreeBuffer, Listed, Listing;
    FirstIndexes(ListHeader(s.sess.fragsleft > 1, s.sess.fragsleft - 1), l);
    DecodedEncoded(l);
  }

  /** Servers after each fragment, and the mailboxes before each continuation. */
  ghost predicate IsListing(d: Dictionary, s: Server, ss: seq<Server>, ms: seq<Mbx>, dsize: nat) {
    && Shaped(s.mbx) && IsRequest(s.mbx.buf[0]) && 11 <= dsize < 0x1_0000 && 1 < |d| <= 0x1_0000
    && FreeBuffer(s.mbx) > 0 && SizeField(s.mbx.buf[0]) == 1
    && |ss| == Fragments(Entries(d), dsize) == |ms| + 1
    && ss[0] == SdoGetOdList(d, s, dsize)
    && forall k | 0 <= k < |ms| :: Continues(d, ss[k], ms[k], ss[k + 1], dsize)
  }

  /** The server goes on with the list once a buffer is free. */
  ghost predicate Continues(d: Dictionary, s: Server, m: Mbx, t: Server, dsize: nat) {
    && Shaped(m) && FreeBuffer(m) > 0 && 11 <= dsize < 0x1_0000 && m.xoe == s.mbx.xoe
    && (Listing(d, s, dsize) ==> t == SdoGetOdListCont(d, s.(mbx := m), dsize))
  }

  /** The fragment sent at position k. */
  function FragmentAt(s: Server, ss: seq<Server>, ms: seq<Mbx>, k: nat): Frame
    requires k < |ss| == |ms| + 1
  {
    AnswerIn(if k == 0 then s.mbx else ms[k - 1], ss[k].mbx)
  }

  /** The indexes in the first n fragments. */
  function Collected(s: Server, ss: seq<Server>, ms: seq<Mbx>, n: nat): seq<uint16>
    requires n <= |ss| == |ms| + 1
  {
    if n == 0 then [] else Collected(s, ss, ms, n - 1) + IndexesIn(FragmentAt(s, ss, ms, n - 1), n == 1)
  }

  /** Where the list stands after n fragments. */
  function Reached(entries: nat, n: nat, dsize: nat): nat
    requires dsize >= 10
  {
    if n == Fragments(entries, dsize) then entries else n * PerFragment(dsize)
  }

  ghost predicate Stands(d: Dictionary, t: Server, n: nat, dsize: nat)
    requires |d| > 1 && dsize >= 11
  {
    var frags := Fragments(Entries(d), dsize);
    if n == frags then t.mbx.xoe == 0
    else t.mbx.xoe == MBXCOE + MBXODL && Listing(d, t, dsize) && n < frags && t.sess.fragsleft == frags - n
  }

  lemma FirstStands(d: Dictionary, s: Server, ss: seq<Server>, ms: seq<Mbx>, dsize: nat)
    requires IsListing(d, s, ss, ms, dsize)
    ensures Reached(Entries(d), 1, dsize) <= Entries(d) && Stands(d, ss[0], 1, dsize)
    ensures Carries(FragmentAt(s, ss, ms, 0), true, Listed(d, 0, Reached(Entries(d), 1, dsize)), dsize)
  {
    hide Listed, Carries, SdoGetOdList, Fragments, FreeBuffer, AnswerIn, Sent, FirstFragment, Continues;
    BeginsWith(d, s, dsize);
    ListBegins(d, s, dsize);
    FirstBounds(Entries(d), dsize);
  }

  lemma NextStands(d: Dictionary, s: Server, ss: seq<Server>, ms: seq<Mbx>, dsize: nat, n: nat)
    requires IsListing(d, s, ss, ms, dsize) && 1 <= n < |ss| && Stands(d, ss[n - 1], n, dsize)
    ensures Stands(d, ss[n], n + 1, dsize)
    ensures Reached(Entries(d), n, dsize) <= Reached(Entries(d), n + 1, dsize) <= Entries(d)
    ensures Carries(FragmentAt(s, ss, ms, n), false,
                    Listed(d, Reached(Entries(d), n, dsize), Reached(Entries(d), n + 1, dsize)), dsize)
  {
    hide Listed, Carries, SdoGetOdList, SdoGetOdListCont, Fragments, FreeBuffer, AnswerIn;
    assert Continues(d, ss[n - 1], ms[n - 1], ss[n], dsize);
    var t := ss[n - 1].(mbx := ms[n - 1]);
    ListGoesOn(d, t, dsize);
    var per := PerFragment(dsize);
    assert n * per + per == (n + 1) * per;
  }

  lemma {:induction false} CollectedIs(d: Dictionary, s: Server, ss: seq<Server>, ms: seq<Mbx>, dsize: nat, n: nat)
    requires IsListing(d, s, ss, ms, dsize) && 1 <= n <= |ss|
    ensures Stands(d, ss[n - 1], n, dsize) && Reached(Entries(d), n, dsize) <= Entries(d)
    ensures FragmentAt(s, ss, ms, n - 1).length == |FragmentAt(s, ss, ms, n - 1).body| <= dsize
    ensures Collected(s, ss, ms, n) == Listed(d, 0, Reached(Entries(d), n, dsize))
  {
    hide Continues, SdoGetOdList, Listed, IndexesIn, Reached, Stands, FragmentAt, Fragments;
    if n == 1 {
      FirstStands(d, s, ss, ms, dsize);
      assert Collected(s, ss, ms, 0) == [];
    } else {
      CollectedIs(d, s, ss, ms, dsize, n - 1);
      NextStands(d, s, ss, ms, dsize, n - 1);
      ListedJoin(d, 0, Reached(Entries(d), n - 1, dsize), Reached(Entries(d), n, dsize));
    }
  }

  /**
   The fragments queued for a request for all objects, read one after another,
   are the index of every object, once and in order; every fragment fits the
   mailbox, and the last one frees the inbox.
   */
  lemma WholeListArrives(d: Dictionary, s: Server, ss: seq<Server>, ms: seq<Mbx>, dsize: nat)
    requires IsListing(d, s, ss, ms, dsize)
    ensures forall k | 0 <= k < |ss| :: FragmentAt(s, ss, ms, k).length == |FragmentAt(s, ss, ms, k).body| <= dsize
    ensures var l := Collected(s, ss, ms, |ss|);
            |l| == Entries(d) && forall i | 0 <= i < |l| :: l[i] == d[i].index
    ensures |ss| > 0 && ss[|ss| - 1].mbx.xoe == 0
  {
    hide Continues, SdoGetOdList, Listed, FragmentAt, Collected, Fragments;
    AllObjectsListed(d, dsize);
    forall k | 0 <= k < |ss| ensures FragmentAt(s, ss, ms, k).length == |FragmentAt(s, ss, ms, k).body| <= dsize {
      CollectedIs(d, s, ss, ms, dsize, k + 1);
    }
    CollectedIs(d, s, ss, ms, dsize, |ss|);
  }
}
