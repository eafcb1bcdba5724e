/** Writes to a segment, whole or torn by a crash, and what they keep of its log. */
module Writes {
  import opened Format
  import opened Recover
  import opened Log
  import opened Verdict

  // ---- the writes of one batch ----

  /** The persist blocks of a batch: its records, then zeros. */
  function RecordBlocks(b: Placed): (r: seq<Slot>)
    requires |b.entries| == |b.live|
    ensures |r| == Span(|b.entries|)
  {
    seq(Span(|b.entries|), i requires 0 <= i < Span(|b.entries|) => if i < |b.entries| then Valid(Rec(b, i)) else Zero)
  }

  function WriteRecords(seg: Segment, b: Placed): Segment
    requires |b.entries| == |b.live| && b.at + Span(|b.entries|) <= |seg.slots|
  {
    seg.(slots := seg.slots[..b.at] + RecordBlocks(b) + seg.slots[b.at + Span(|b.entries|)..])
  }

  /** The blocks the batch's entries take. */
  function EntriesTo(b: Placed): nat { AlignToBlock(Off(b, |b.entries|)) }

  predicate Untouched(b: Placed, o: nat, e: Entry) {
    o + Footprint(e.len) <= b.entryAt || EntriesTo(b) <= o
  }

  function AddEntries(entries: map<nat, Entry>, b: Placed, n: nat): map<nat, Entry>
    requires n <= |b.entries|
  {
    if n == 0 then entries else AddEntries(entries, b, n - 1)[Off(b, n - 1) := b.entries[n - 1]]
  }

  /** The batch's entries replace whatever its blocks held. */
  function WriteEntries(seg: Segment, b: Placed): Segment {
    seg.(entries := AddEntries(map o | o in seg.entries && Untouched(b, o, seg.entries[o]) :: seg.entries[o], b, |b.entries|))
  }

  /** A crash leaves each slot of the write old, new or damaged. */
  predicate TornRecords(seg: Segment, b: Placed, torn: Segment)
    requires |b.entries| == |b.live| && b.at + Span(|b.entries|) <= |seg.slots|
  {
    && torn == seg.(slots := torn.slots) && |torn.slots| == |seg.slots|
    && forall j | 0 <= j < |seg.slots| ::
         || torn.slots[j] == seg.slots[j]
         || (b.at <= j < b.at + Span(|b.entries|) && (torn.slots[j] == RecordBlocks(b)[j - b.at] || torn.slots[j] == Damaged))
  }

  /** A crash leaves each entry of the written blocks old, new or damaged. */
  predicate TornEntries(seg: Segment, b: Placed, torn: Segment) {
    && torn == seg.(entries := torn.entries)
    && (forall o | o in torn.entries ::
          OwnEntry(b, o, torn.entries[o]) || (o in seg.entries && torn.entries[o] == seg.entries[o]))
    && (forall o | o in seg.entries && Untouched(b, o, seg.entries[o]) :: o in torn.entries && torn.entries[o] == seg.entries[o])
  }

  lemma WriteRecordsIsTorn(seg: Segment, b: Placed)
    requires |b.entries| == |b.live| && b.at + Span(|b.entries|) <= |seg.slots|
    ensures TornRecords(seg, b, WriteRecords(seg, b))
    ensures forall i | 0 <= i < |b.entries| :: WriteRecords(seg, b).slots[b.at + i] == Valid(Rec(b, i))
  {
    var w := WriteRecords(seg, b);
    forall i | 0 <= i < |b.entries| ensures w.slots[b.at + i] == Valid(Rec(b, i)) {
      assert w.slots[b.at + i] == RecordBlocks(b)[i];
    }
  }

  lemma {:induction false} AddedAt(entries: map<nat, Entry>, b: Placed, n: nat, i: nat)
    requires i < n <= |b.entries|
    ensures Off(b, i) in AddEntries(entries, b, n) && AddEntries(entries, b, n)[Off(b, i)] == b.entries[i]
  {
    if i < n - 1 {
      AddedAt(entries, b, n - 1, i);
      OffGrows(b, i, n - 1);
    }
  }

  lemma {:induction false} AddedOnly(entries: map<nat, Entry>, b: Placed, n: nat, o: nat)
    requires WellFormed(b) && n <= |b.entries|
    ensures var m := AddEntries(entries, b, n);
            && (o in m ==> OwnEntry(b, o, m[o]) || (o in entries && m[o] == entries[o]))
            && (o in entries ==> (o in m && m[o] == entries[o]) || (b.entryAt <= o < Off(b, n)))
  {
    if n > 0 {
      AddedOnly(entries, b, n - 1, o);
    }
  }

  lemma WriteEntriesIsTorn(seg: Segment, b: Placed)
    requires WellFormed(b)
    ensures TornEntries(seg, b, WriteEntries(seg, b))
    ensures forall i | 0 <= i < |b.entries| :: EntryOk(WriteEntries(seg, b), b, i)
  {
    var kept := map o | o in seg.entries && Untouched(b, o, seg.entries[o]) :: seg.entries[o];
    var torn := WriteEntries(seg, b);
    forall o | o in torn.entries
      ensures OwnEntry(b, o, torn.entries[o]) || (o in seg.entries && torn.entries[o] == seg.entries[o])
    {
      AddedOnly(kept, b, |b.entries|, o);
    }
    forall o | o in seg.entries && Untouched(b, o, seg.entries[o])
      ensures o in torn.entries && torn.entries[o] == seg.entries[o]
    {
      AddedOnly(kept, b, |b.entries|, o);
    }
    forall i | 0 <= i < |b.entries| ensures EntryOk(torn, b, i) {
      AddedAt(kept, b, |b.entries|, i);
    }
  }

  // ---- what the log keeps ----

  predicate AllLive(b: Placed) { forall i | 0 <= i < |b.live| :: b.live[i] }

  /** Every number in the segment is below `n`. */
  predicate Below(seg: Segment, n: nat) {
    && (forall j | 0 <= j < |seg.slots| :: seg.slots[j].Valid? ==> seg.slots[j].record.batch < n)
    && (forall o | o in seg.entries :: seg.entries[o].batch < n)
  }

  lemma LastFollows(g: Geometry, seg: Segment, bs: seq<Placed>, t: Placed, k: nat)
    requires k < |bs|
    ensures Follows(g, seg, bs, k) <==> Follows(g, seg, bs + [t], k)
  {
    assert (bs + [t])[k] == bs[k] && (k > 0 ==> (bs + [t])[k - 1] == bs[k - 1]);
  }

  /** A batch about to be written leaves the log as it is: nothing of it is there yet. */
  lemma NewBatchHolds(g: Geometry, seg: Segment, bs: seq<Placed>, t: Placed)
    requires Holds(g, seg, bs) && Below(seg, t.seqno) && WellPlaced(g, t) && AllLive(t)
    requires t.at == AtOf(bs, |bs|) && t.entryAt == CursorOf(g, bs, |bs|)
    requires t.seqno > LastSeqno(bs, seg.prev) && t.seqno >= seg.first
    ensures Holds(g, seg, bs + [t])
  {
    var all := bs + [t];
    assert Coherent(g, seg, t) by {
      forall i | 0 <= i < |t.entries| ensures !Evident(seg, t, i) {
        assert !Fresh(seg, t.at + i);
      }
    }
    forall k | 0 <= k < |all| ensures Coherent(g, seg, all[k]) && WellFormed(all[k]) {
      if k < |bs| { assert Coherent(g, seg, bs[k]); }
    }
    forall k | 0 <= k < |all| ensures Follows(g, seg, all, k) {
      if k < |bs| {
        assert Follows(g, seg, bs, k);
        LastFollows(g, seg, bs, t, k);
      } else {
        assert k > 0 ==> all[k - 1] == bs[k - 1];
      }
    }
    forall o | o in seg.entries && seg.entries[o].batch >= seg.first && seg.entries[o].index == 0
      ensures seg.entries[o].batch in Seqnos(all)
    {
      var k :| 0 <= k < |bs| && bs[k].seqno == seg.entries[o].batch;
      assert all[k] == bs[k];
    }
  }

  /** An entry of an earlier batch reads after the write as before it, or is gone. */
  lemma TornEntryStays(seg: Segment, t: Placed, torn: Segment, b: Placed, i: nat)
    requires TornEntries(seg, t, torn) && WellFormed(b) && WellFormed(t) && b.seqno != t.seqno && i < |b.entries|
    ensures EntryOk(torn, b, i) ==> EntryOk(seg, b, i)
    ensures EntryOk(seg, b, i) && Off(b, i + 1) <= t.entryAt ==> EntryOk(torn, b, i)
  {
    if EntryOk(seg, b, i) && Off(b, i + 1) <= t.entryAt {
      assert Untouched(t, Off(b, i), seg.entries[Off(b, i)]);
    }
  }

  lemma TornEntriesCoherent(g: Geometry, seg: Segment, t: Placed, torn: Segment, b: Placed)
    requires TornEntries(seg, t, torn) && Coherent(g, seg, b) && WellFormed(t)
    requires b.seqno != t.seqno || (b == t && AllLive(t))
    ensures Coherent(g, torn, b)
  {
    forall i | 0 <= i < |b.entries| && Evident(torn, b, i) ensures torn.slots[b.at + i] == Valid(Rec(b, i)) {
      assert Evident(seg, b, i);
    }
    forall j | b.at + |b.entries| <= j < b.at + Span(|b.entries|) ensures !Fresh(torn, j) {
      assert !Fresh(seg, j);
    }
    forall i | 0 <= i < |b.entries| && !b.live[i] && EntryOk(torn, b, i) ensures i > 0 && !b.live[i - 1] {
      TornEntryStays(seg, t, torn, b, i);
    }
  }

  /** Cells apart, a segment holds a log when each batch is coherent in it. */
  lemma CellsHold(g: Geometry, seg: Segment, bs: seq<Placed>, now: Segment)
    requires Holds(g, seg, bs) && now.first == seg.first && now.prev == seg.prev && |now.slots| == |seg.slots|
    requires forall k {:trigger Coherent(g, now, bs[k])} | 0 <= k < |bs| :: Coherent(g, now, bs[k])
    requires forall j | AtOf(bs, |bs|) <= j < |now.slots| :: !Fresh(now, j)
    requires forall o | o in now.entries && now.entries[o].batch >= now.first && now.entries[o].index == 0 ::
               now.entries[o].batch in Seqnos(bs)
    ensures Holds(g, now, bs)
  {
    forall k | 0 <= k < |bs| ensures Follows(g, now, bs, k) {
      assert Follows(g, seg, bs, k);
    }
  }

  lemma {:induction false} SeqnoBelowLast(g: Geometry, seg: Segment, bs: seq<Placed>, k: nat)
    requires Holds(g, seg, bs) && k < |bs| - 1
    ensures bs[k].seqno < bs[|bs| - 1].seqno
  {
    SeqnosGrow(g, seg, bs, k + 1, |bs| - 1);
    assert Follows(g, seg, bs, |bs| - 1);
  }

  /** Writing the last batch's entries, whole or torn, keeps the log. */
  lemma TornEntriesHold(g: Geometry, seg: Segment, bs: seq<Placed>, torn: Segment)
    requires Holds(g, seg, bs) && |bs| > 0
    requires var t := bs[|bs| - 1]; AllLive(t) && TornEntries(seg, t, torn)
    ensures Holds(g, torn, bs)
  {
    var t := bs[|bs| - 1];
    forall k | 0 <= k < |bs| ensures Coherent(g, torn, bs[k]) {
      assert Coherent(g, seg, bs[k]) && Coherent(g, seg, t);
      if k < |bs| - 1 { SeqnoBelowLast(g, seg, bs, k); }
      TornEntriesCoherent(g, seg, t, torn, bs[k]);
    }
    forall j | AtOf(bs, |bs|) <= j < |torn.slots| ensures !Fresh(torn, j) {
      assert !Fresh(seg, j);
    }
    CellsHold(g, seg, bs, torn);
  }

  lemma TornSlot(seg: Segment, t: Placed, torn: Segment, j: nat)
    requires |t.entries| == |t.live| && t.at + Span(|t.entries|) <= |seg.slots| && TornRecords(seg, t, torn) && j < |seg.slots|
    ensures j < t.at || j >= t.at + Span(|t.entries|) ==> torn.slots[j] == seg.slots[j]
    ensures t.at <= j < t.at + |t.entries| ==>
              torn.slots[j] in {seg.slots[j], Valid(Rec(t, j - t.at)), Damaged}
    ensures t.at + |t.entries| <= j < t.at + Span(|t.entries|) ==> torn.slots[j] in {seg.slots[j], Zero, Damaged}
  {
  }

  lemma TornRecordsCoherent(g: Geometry, seg: Segment, t: Placed, torn: Segment)
    requires Coherent(g, seg, t) && TornRecords(seg, t, torn)
    ensures Coherent(g, torn, t)
  {
    forall i | 0 <= i < |t.entries| && Evident(torn, t, i) ensures torn.slots[t.at + i] == Valid(Rec(t, i)) {
      TornSlot(seg, t, torn, t.at + i);
      assert torn.slots[t.at + i] == seg.slots[t.at + i] ==> Evident(seg, t, i);
    }
    forall j | t.at + |t.entries| <= j < t.at + Span(|t.entries|) ensures !Fresh(torn, j) {
      TornSlot(seg, t, torn, j);
      assert !Fresh(seg, j);
    }
    forall i | 0 <= i < |t.entries| && !t.live[i] && EntryOk(torn, t, i) ensures i > 0 && !t.live[i - 1] {
      assert EntryOk(seg, t, i);
    }
  }

  lemma EarlierRecordsStay(g: Geometry, seg: Segment, t: Placed, torn: Segment, b: Placed)
    requires Coherent(g, seg, b) && Coherent(g, seg, t) && TornRecords(seg, t, torn)
    requires b.at + Span(|b.entries|) <= t.at
    ensures Coherent(g, torn, b)
    ensures forall i | 0 <= i < |b.entries| :: Evident(torn, b, i) <==> Evident(seg, b, i)
  {
    forall j | b.at <= j < b.at + Span(|b.entries|) ensures torn.slots[j] == seg.slots[j] {
      TornSlot(seg, t, torn, j);
    }
    forall i | 0 <= i < |b.entries|
      ensures Evident(torn, b, i) <==> Evident(seg, b, i)
      ensures EntryOk(torn, b, i) <==> EntryOk(seg, b, i)
    {
    }
    forall j | b.at + |b.entries| <= j < b.at + Span(|b.entries|) ensures !Fresh(torn, j) {
      assert !Fresh(seg, j);
    }
  }

  lemma {:induction false} BeforeLast(g: Geometry, seg: Segment, bs: seq<Placed>, k: nat)
    requires Holds(g, seg, bs) && k < |bs| - 1
    ensures bs[k].at + Span(|bs[k].entries|) <= bs[|bs| - 1].at
    ensures NextCursor(bs[k]) <= bs[|bs| - 1].entryAt
    decreases |bs| - k
  {
    assert Follows(g, seg, bs, k + 1);
    if k + 1 < |bs| - 1 {
      BeforeLast(g, seg, bs, k + 1);
      LiveEndBounds(bs[k + 1], |bs[k + 1].entries|);
    }
  }

  lemma {:induction false} LiveEndBounds(b: Placed, n: nat)
    requires n <= |b.entries| == |b.live|
    ensures b.entryAt <= LiveEnd(b, n) <= Off(b, n)
    ensures forall i | 0 <= i < n && b.live[i] :: Off(b, i + 1) <= LiveEnd(b, n)
  {
    if n > 0 {
      LiveEndBounds(b, n - 1);
      OffGrows(b, n - 1, n);
      forall i | 0 <= i < n && b.live[i] ensures Off(b, i + 1) <= LiveEnd(b, n) {
        OffGrows(b, i + 1, n);
      }
    }
  }

  lemma TornRecordsEach(g: Geometry, seg: Segment, t: Placed, torn: Segment, b: Placed)
    requires Coherent(g, seg, b) && Coherent(g, seg, t) && TornRecords(seg, t, torn)
    requires b == t || b.at + Span(|b.entries|) <= t.at
    ensures Coherent(g, torn, b)
  {
    if b == t { TornRecordsCoherent(g, seg, t, torn); } else { EarlierRecordsStay(g, seg, t, torn, b); }
  }

  lemma NothingAfter(g: Geometry, seg: Segment, bs: seq<Placed>, torn: Segment)
    requires Holds(g, seg, bs) && |bs| > 0
    requires var t := bs[|bs| - 1]; t.at + Span(|t.entries|) <= |seg.slots| && TornRecords(seg, t, torn)
    ensures forall j | AtOf(bs, |bs|) <= j < |torn.slots| :: !Fresh(torn, j)
  {
    forall j | AtOf(bs, |bs|) <= j < |torn.slots| ensures !Fresh(torn, j) {
      assert !Fresh(seg, j);
      TornSlot(seg, bs[|bs| - 1], torn, j);
    }
  }

  lemma EndsBeforeLast(g: Geometry, seg: Segment, bs: seq<Placed>, k: nat)
    requires Holds(g, seg, bs) && k < |bs|
    ensures Coherent(g, seg, bs[k]) && (k == |bs| - 1 || bs[k].at + Span(|bs[k].entries|) <= bs[|bs| - 1].at)
  {
    assert Coherent(g, seg, bs[k]);
    if k < |bs| - 1 { BeforeLast(g, seg, bs, k); }
  }

  /** Writing the last batch's records, whole or torn, keeps the log. */
  lemma TornRecordsHold(g: Geometry, seg: Segment, bs: seq<Placed>, torn: Segment)
    requires Holds(g, seg, bs) && |bs| > 0
    requires var t := bs[|bs| - 1]; t.at + Span(|t.entries|) <= |seg.slots| && TornRecords(seg, t, torn)
    ensures Holds(g, torn, bs)
  {
    forall k | 0 <= k < |bs| ensures Coherent(g, torn, bs[k]) {
      EndsBeforeLast(g, seg, bs, k);
      EndsBeforeLast(g, seg, bs, |bs| - 1);
      TornRecordsEach(g, seg, bs[|bs| - 1], torn, bs[k]);
    }
    NothingAfter(g, seg, bs, torn);
    CellsHold(g, seg, bs, torn);
  }

  lemma KeptSlot(g: Geometry, seg: Segment, b: Placed, i: nat)
    requires Coherent(g, seg, b) && i < |b.entries|
    ensures var k := Kept(seg, b);
            && Off(k, i) == Off(b, i)
            && (Evident(seg, k, i) ==> seg.slots[k.at + i] == Valid(Rec(k, i)))
            && (!k.live[i] && EntryOk(seg, k, i) ==> i > 0 && !k.live[i - 1])
  {
    var k := Kept(seg, b);
    OffKept(seg, b, i);
    assert k.live[i] == Survives(seg, b, i) && (i > 0 ==> k.live[i - 1] == Survives(seg, b, i - 1));
    if Evident(seg, k, i) {
      assert Evident(seg, b, i) && Expect(seg, b, i) == Recorded(Rec(b, i));
      assert k.live[i] == b.live[i] && Rec(k, i) == Rec(b, i);
    }
    if EntryOk(seg, k, i) && !k.live[i] {
      assert EntryOk(seg, b, i);
      assert b.live[i] ==> Expect(seg, b, i).Lost?;
      assert i > 0 && !Survives(seg, b, i - 1);
    }
  }

  /** Recovery discards what it lost; the segment then holds what was kept. */
  lemma KeptCoherent(g: Geometry, seg: Segment, b: Placed)
    requires Coherent(g, seg, b)
    ensures Coherent(g, seg, Kept(seg, b))
  {
    var k := Kept(seg, b);
    OffKept(seg, b, |b.entries|);
    forall i | 0 <= i < |b.entries|
      ensures Evident(seg, k, i) ==> seg.slots[k.at + i] == Valid(Rec(k, i))
      ensures !k.live[i] && EntryOk(seg, k, i) ==> i > 0 && !k.live[i - 1]
    {
      KeptSlot(g, seg, b, i);
    }
    forall o | o in seg.entries && seg.entries[o].batch == k.seqno ensures OwnEntry(k, o, seg.entries[o]) {
      assert OwnEntry(b, o, seg.entries[o]);
      OffKept(seg, b, seg.entries[o].index);
    }
  }

  lemma KeptHolds(g: Geometry, seg: Segment, bs: seq<Placed>, t: Placed)
    requires Holds(g, seg, bs + [t])
    ensures Coherent(g, seg, t) && Holds(g, seg, bs + [Kept(seg, t)])
  {
    var all := bs + [t];
    assert all[|bs|] == t && Coherent(g, seg, all[|bs|]);
    KeptCoherent(g, seg, t);
    Swapped(g, seg, bs, t, Kept(seg, t));
  }

  /** Only the last batch's own cells depend on what is live in it. */
  lemma Swapped(g: Geometry, seg: Segment, bs: seq<Placed>, t: Placed, u: Placed)
    requires Holds(g, seg, bs + [t]) && Coherent(g, seg, u)
    requires u.seqno == t.seqno && u.at == t.at && u.entryAt == t.entryAt && |u.entries| == |t.entries|
    ensures Holds(g, seg, bs + [u])
  {
    var all, now := bs + [t], bs + [u];
    forall k | 0 <= k < |now| ensures Coherent(g, seg, now[k]) && Follows(g, seg, now, k) {
      assert Coherent(g, seg, all[k]) && Follows(g, seg, all, k);
      assert k < |bs| ==> now[k] == all[k];
      assert k > 0 ==> now[k - 1] == all[k - 1];
    }
    forall o | o in seg.entries && seg.entries[o].batch >= seg.first && seg.entries[o].index == 0
      ensures seg.entries[o].batch in Seqnos(now)
    {
      var k :| 0 <= k < |all| && all[k].seqno == seg.entries[o].batch;
      assert now[k].seqno == all[k].seqno;
    }
    assert AtOf(now, |now|) == AtOf(all, |all|);
  }

  lemma HeadIsEvidence(g: Geometry, seg: Segment, t: Placed, o: nat)
    requires Coherent(g, seg, t) && o in seg.entries
    requires seg.entries[o].batch == t.seqno && seg.entries[o].index == 0
    ensures EntryOk(seg, t, 0)
  {
    assert OwnEntry(t, o, seg.entries[o]);
  }

  lemma InvisibleHeads(g: Geometry, seg: Segment, bs: seq<Placed>, t: Placed, o: nat)
    requires Holds(g, seg, bs + [t]) && WellFormed(t) && t.at + |t.entries| <= |seg.slots| && !Visible(seg, t)
    requires o in seg.entries && seg.entries[o].batch >= seg.first && seg.entries[o].index == 0
    ensures seg.entries[o].batch in Seqnos(bs)
  {
    var all := bs + [t];
    var k :| 0 <= k < |all| && all[k].seqno == seg.entries[o].batch;
    if k == |bs| {
      assert Coherent(g, seg, all[|bs|]);
      HeadIsEvidence(g, seg, t, o);
      assert false;
    }
    assert bs[k] == all[k];
  }

  /** A batch no cell tells of is no batch: the log ends before it. */
  lemma InvisibleDrops(g: Geometry, seg: Segment, bs: seq<Placed>, t: Placed)
    requires Holds(g, seg, bs + [t]) && WellFormed(t) && t.at + |t.entries| <= |seg.slots| && !Visible(seg, t)
    ensures Holds(g, seg, bs)
  {
    var all := bs + [t];
    assert all[|bs|] == t && Coherent(g, seg, all[|bs|]) && Follows(g, seg, all, |bs|);
    forall k | 0 <= k < |bs| ensures Coherent(g, seg, bs[k]) && Follows(g, seg, bs, k) {
      assert all[k] == bs[k] && Coherent(g, seg, all[k]) && Follows(g, seg, all, k);
      LastFollows(g, seg, bs, t, k);
    }
    forall j | AtOf(bs, |bs|) <= j < |seg.slots| ensures !Fresh(seg, j) {
      assert |bs| > 0 ==> all[|bs| - 1] == bs[|bs| - 1];
      if j < t.at + |t.entries| { assert !Evident(seg, t, j - t.at); }
    }
    forall o | o in seg.entries && seg.entries[o].batch >= seg.first && seg.entries[o].index == 0
      ensures seg.entries[o].batch in Seqnos(bs)
    {
      InvisibleHeads(g, seg, bs, t, o);
    }
  }
}
