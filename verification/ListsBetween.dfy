/**
 Lists and segmented transfers share two counters. What a list request does to
 a transfer in progress.
 */
module ListsBetween {
  import opened ObjectDictionary
  import opened Mailbox
  import opened SdoTransfer
  import opened ObjectList
  import opened CoeHandlers
  import opened LostBuffers

  /** The request is for the number of objects or their list, and a buffer is free. */
  predicate Counts(s: Server)
    requires Shaped(s.mbx) && IsRequest(s.mbx.buf[0])
  {
    SizeField(s.mbx.buf[0]) <= 1 && FreeBuffer(s.mbx) > 0
  }

  /** Then, and only then, the counters of the transfer become those of the list; everything else of it stays. */
  lemma ListDisturbs(d: Dictionary, s: Server, dsize: nat)
    requires Shaped(s.mbx) && IsRequest(s.mbx.buf[0]) && 11 <= dsize < 0x1_0000 && 1 < |d| <= 0x1_0000
    ensures var t := SdoGetOdList(d, s, dsize);
            var frags := Fragments(Entries(d), dsize);
            t.sess == (if Counts(s) then s.sess.(frags := frags, fragsleft := frags - 1) else s.sess)
    ensures SdoGetOdList(d, s, dsize).st == s.st && SdoGetOdList(d, s, dsize).block == s.block
    ensures Fragments(Entries(d), dsize) >= 1
  {
    hide Highest, Fragments, FirstFragment, CountFrame, Listed, Sent;
    FragmentCount(Entries(d), dsize);
  }

  /** So the next segment of an upload is the last one, and carries one byte. */
  lemma ListDisturbsUpload(d: Dictionary, s: Server, dsize: nat)
    requires Shaped(s.mbx) && IsRequest(s.mbx.buf[0]) && 11 <= dsize < 0x1_0000 && 1 < |d| <= 0x1_0000
    ensures var t := SdoGetOdList(d, s, dsize);
            if Counts(s) then t.sess.frags - t.sess.fragsleft == 1 == SegmentLength(t.sess, dsize) else t.sess == s.sess
  {
    hide SdoGetOdList, Fragments;
    ListDisturbs(d, s, dsize);
  }

  /**
   And a complete download being collected ends with the first segment that is
   flagged last and carries a byte, however many bytes are missing: only as many
   bytes of the block are spread as the list has fragments.
   */
  lemma ListDisturbsDownload(d: Dictionary, s: Server, dsize: nat, total: nat, collected: nat, m: Mbx)
    requires Shaped(s.mbx) && IsRequest(s.mbx.buf[0]) && 11 <= dsize < 0x1_0000 && 1 < |d| <= 0x1_0000
    requires Collecting(s, total, collected) && Lookup(d, s.sess.index, s.sess.subindex).Found?
    requires CanSegment(d, SdoGetOdList(d, s, dsize).(mbx := m))
    ensures var t := SdoGetOdList(d, s, dsize).(mbx := m);
            var r := m.buf[0];
            && (SpreadRefused(d, SegmentStored(t)) != 0 <==>
                LastSegment(Command(r)) && (if Counts(s) then SegmentSize(r) == 0 else collected + SegmentSize(r) < total))
            && t.sess.frags == (if Counts(s) then Fragments(Entries(d), dsize) else total)
  {
    hide SdoGetOdList, Fragments, Lookup, SegmentData, SegmentSize;
    ListDisturbs(d, s, dsize);
  }
}
