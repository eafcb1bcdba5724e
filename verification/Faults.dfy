/** A log of committed batches on a medium that lost some of its cells, records and entries alike. Whatever
    is lost, open refuses the disk, or what it recovers is true: the log's own batches from the first one
    on, each write as it was written, and only the last batch recovered may miss some of its writes. */
module Faults {
  import opened Format
  import opened Recover
  import opened Log
  import opened Writes
  import opened Evidence
  import opened Refusals

  /** The same segment with some records and entries gone. */
  predicate Hurt(seg: Segment, hurt: Segment) {
    && hurt.first == seg.first && hurt.prev == seg.prev && |hurt.slots| == |seg.slots|
    && (forall j | 0 <= j < |seg.slots| :: hurt.slots[j] == seg.slots[j] || !hurt.slots[j].Valid?)
    && (forall o | o in hurt.entries :: o in seg.entries && hurt.entries[o] == seg.entries[o])
  }

  lemma HurtCoherent(g: Geometry, seg: Segment, hurt: Segment, b: Placed)
    requires Hurt(seg, hurt) && Coherent(g, seg, b)
    ensures Coherent(g, hurt, b)
  {
    forall i | 0 <= i < |b.entries| && Evident(hurt, b, i) ensures hurt.slots[b.at + i] == Valid(Rec(b, i)) { assert Evident(seg, b, i); }
    forall j | b.at + |b.entries| <= j < b.at + Span(|b.entries|) ensures !Fresh(hurt, j) { assert !Fresh(seg, j); }
    forall o | o in hurt.entries && hurt.entries[o].batch == b.seqno ensures OwnEntry(b, o, hurt.entries[o]) { assert OwnEntry(b, o, seg.entries[o]); }
    forall i | 0 <= i < |b.entries| && !b.live[i] && EntryOk(hurt, b, i) ensures i > 0 && !b.live[i - 1] { assert EntryOk(seg, b, i); }
  }

  /** Losing cells makes no cell say anything else. */
  lemma HurtHolds(g: Geometry, seg: Segment, hurt: Segment, bs: seq<Placed>)
    requires Hurt(seg, hurt) && Holds(g, seg, bs)
    ensures Holds(g, hurt, bs)
  {
    forall k {:trigger Coherent(g, hurt, bs[k])} | 0 <= k < |bs| ensures Coherent(g, hurt, bs[k]) {
      assert Coherent(g, seg, bs[k]);
      HurtCoherent(g, seg, hurt, bs[k]);
    }
    forall k {:trigger Follows(g, hurt, bs, k)} | 0 <= k < |bs| ensures Follows(g, hurt, bs, k) { assert Follows(g, seg, bs, k); }
    forall j | AtOf(bs, |bs|) <= j < |hurt.slots| ensures !Fresh(hurt, j) { assert !Fresh(seg, j); }
  }

  // ---- the batches of a segment ----

  lemma {:induction false} Ordered(g: Geometry, seg: Segment, bs: seq<Placed>, k: nat, m: nat)
    requires Holds(g, seg, bs) && AllWritten(bs) && k < m < |bs|
    ensures bs[k].seqno < bs[m].seqno && bs[k].at < bs[m].at && bs[k].entryAt < bs[m].entryAt
    decreases m
  {
    assert Follows(g, seg, bs, m) && Coherent(g, seg, bs[m - 1]) && Written(bs[m - 1]);
    EndBeyond(bs[m - 1]);
    if k < m - 1 { Ordered(g, seg, bs, k, m - 1); }
  }

  predicate Written(b: Placed) { AllLive(b) }

  /** No write of these batches was ever discarded. */
  predicate AllWritten(bs: seq<Placed>) { forall k {:trigger Written(bs[k])} | 0 <= k < |bs| :: Written(bs[k]) }

  lemma {:induction false} LiveEndIs(b: Placed, n: nat)
    requires n <= |b.entries| == |b.live| && AllLive(b)
    ensures LiveEnd(b, n) == Off(b, n)
  {
  }

  lemma EndBeyond(b: Placed)
    requires WellFormed(b) && AllLive(b)
    ensures NextCursor(b) == AlignToBlock(Off(b, |b.entries|)) && NextCursor(b) > b.entryAt
  {
    LiveEndIs(b, |b.entries|);
    OffGrows(b, 0, |b.entries|);
  }

  /** A record that counts is some batch's own. */
  lemma {:induction false} RecordOwner(g: Geometry, seg: Segment, bs: seq<Placed>, j: nat, k: nat) returns (m: nat)
    requires Holds(g, seg, bs) && k <= |bs| && AtOf(bs, k) <= j < |seg.slots| && Fresh(seg, j)
    ensures k <= m < |bs| && bs[m].at <= j < bs[m].at + |bs[m].entries| && seg.slots[j] == Valid(Rec(bs[m], j - bs[m].at))
    decreases |bs| - k
  {
    m := k;
    if k < |bs| {
      assert Follows(g, seg, bs, k) && Coherent(g, seg, bs[k]);
      if j < AtOf(bs, k + 1) { assert Evident(seg, bs[k], j - bs[k].at); } else { m := RecordOwner(g, seg, bs, j, k + 1); }
    }
  }

  lemma RecIndex(b: Placed, i: nat)
    requires WellFormed(b) && i < |b.entries|
    ensures Rec(b, i).index == i && Rec(b, i).batch == b.seqno && Rec(b, i).count == |b.entries|
  {
  }

  /** What is told at a boundary of the log is the batch that is there. */
  lemma LocatedIs(g: Geometry, seg: Segment, stale: Stale, bs: seq<Placed>, k: nat, batch: nat, count: nat)
    requires Holds(g, seg, bs) && AllWritten(bs) && k <= |bs|
    requires Locates(g, seg, stale, AtOf(bs, k), CursorOf(g, bs, k), SeqnoOf(bs, k, seg.prev), batch, count)
    ensures k < |bs| && batch == bs[k].seqno && count == |bs[k].entries|
  {
    var at, cursor, last := AtOf(bs, k), CursorOf(g, bs, k), SeqnoOf(bs, k, seg.prev);
    if j: nat :| Belongs(seg, stale, at, j) && seg.slots[j].record.batch == batch > last && seg.slots[j].record.count == count {
      var m := RecordOwner(g, seg, bs, j, k);
      RecIndex(bs[m], j - bs[m].at);
      if m > k {
        assert Follows(g, seg, bs, k);
        Ordered(g, seg, bs, k, m);
      } else {
        assert Follows(g, seg, bs, k);
      }
    } else {
      HeadIs(g, seg, stale, bs, k);
    }
  }

  lemma HeadIs(g: Geometry, seg: Segment, stale: Stale, bs: seq<Placed>, k: nat)
    requires Holds(g, seg, bs) && AllWritten(bs) && k <= |bs|
    requires Heads(g, seg, stale, CursorOf(g, bs, k), SeqnoOf(bs, k, seg.prev))
    ensures k < |bs| && seg.entries[CursorOf(g, bs, k)] == bs[k].entries[0] && bs[k].entries[0].batch == bs[k].seqno
    ensures bs[k].entries[0].count == |bs[k].entries|
  {
    var cursor := CursorOf(g, bs, k);
    var e := seg.entries[cursor];
    assert e.batch in Seqnos(bs);
    var m :| 0 <= m < |bs| && bs[m].seqno == e.batch;
    assert Coherent(g, seg, bs[m]) && OwnEntry(bs[m], cursor, e);
    assert cursor == bs[m].entryAt;
    if k > 0 && m < k {
      if m < k - 1 { Ordered(g, seg, bs, m, k - 1); }
    }
    assert k <= m;
    assert Follows(g, seg, bs, k);
    if m > k { Ordered(g, seg, bs, k, m); }
  }

  // ---- the writes of a batch ----

  /** The slot is lost, or it is the write's own record. */
  predicate TrueSlot(found: Found, b: Placed, i: nat)
    requires i < |b.entries| == |b.live|
  {
    found.Lost? || found.record == Rec(b, i)
  }

  /** The batch found is the log's, and what is found of it is true. */
  predicate TrueBatch(found: BatchScan, b: Placed) {
    && |b.entries| == |b.live| && found.seqno == b.seqno && found.at == b.at && found.count == |found.slots| == |b.entries|
    && forall i {:trigger found.slots[i]} | 0 <= i < |b.entries| :: TrueSlot(found.slots[i], b, i)
  }

  lemma RebuiltIs(r: Record, e: Entry, o: nat)
    requires EntryMatches(r, e) && r.offset == o
    ensures r == Rebuild(e, o)
  {
  }

  lemma {:induction false} SlotIsTrue(g: Geometry, seg: Segment, stale: Stale, b: Placed, found: BatchScan, i: nat)
    requires Coherent(g, seg, b) && AllLive(b) && Slotted(g, seg, stale, b, found) && i < |b.entries|
    ensures TrueSlot(found.slots[i], b, i)
  {
    assert SlotIs(g, seg, stale, found, b.entryAt, i);
    if i > 0 { SlotIsTrue(g, seg, stale, b, found, i - 1); }
    var o := Expected(found, b.entryAt, i);
    if o.Some? { assert o.value == Off(b, i); }
    if found.slots[i].Recorded? {
      assert Evident(seg, b, i);
    } else if found.slots[i].Rebuilt? {
      assert OwnEntry(b, Off(b, i), seg.entries[Off(b, i)]);
      RebuiltIs(found.slots[i].record, b.entries[i], Off(b, i));
    }
  }

  ghost predicate Slotted(g: Geometry, seg: Segment, stale: Stale, b: Placed, found: BatchScan) {
    && found.seqno == b.seqno && found.at == b.at && found.count == |found.slots| == |b.entries|
    && forall i {:trigger SlotIs(g, seg, stale, found, b.entryAt, i)} | 0 <= i < found.count :: SlotIs(g, seg, stale, found, b.entryAt, i)
  }

  lemma BatchIsTrue(g: Geometry, seg: Segment, stale: Stale, bs: seq<Placed>, k: nat, found: BatchScan)
    requires Holds(g, seg, bs) && AllWritten(bs) && k <= |bs|
    requires BatchAt(g, seg, stale, AtOf(bs, k), CursorOf(g, bs, k), SeqnoOf(bs, k, seg.prev), found)
    ensures k < |bs| && TrueBatch(found, bs[k])
  {
    LocatedIs(g, seg, stale, bs, k, found.seqno, found.count);
    var b := bs[k];
    assert Follows(g, seg, bs, k) && Coherent(g, seg, b) && Written(b);
    assert Slotted(g, seg, stale, b, found);
    forall i {:trigger found.slots[i]} | 0 <= i < |b.entries| ensures TrueSlot(found.slots[i], b, i) { SlotIsTrue(g, seg, stale, b, found, i); }
  }

  predicate Full(found: BatchScan) { forall i | 0 <= i < |found.slots| :: !found.slots[i].Lost? }

  lemma EntryEnds(found: Found, b: Placed, i: nat)
    requires WellFormed(b) && AllLive(b) && i < |b.entries| == |b.live| && TrueSlot(found, b, i) && !found.Lost?
    ensures EntryAfter(found) == Some(Off(b, i + 1)) && Off(b, i) < Off(b, i + 1)
  {
  }

  lemma {:induction false} FurthestRises(slots: seq<Found>, ends: seq<nat>, n: nat)
    requires |ends| == |slots| + 1 && n <= |slots|
    requires forall i {:trigger slots[i]} | 0 <= i < |slots| :: EntryAfter(slots[i]) == Some(ends[i + 1]) && ends[i] < ends[i + 1]
    ensures Furthest(slots[..n], ends[0]) == ends[n]
  {
    if n > 0 {
      FurthestRises(slots, ends, n - 1);
      FurthestNext(slots, ends[0], n - 1);
    }
  }

  lemma FurthestIs(b: Placed, found: BatchScan)
    requires WellFormed(b) && AllLive(b) && TrueBatch(found, b) && Full(found)
    ensures Furthest(found.slots, b.entryAt) == Off(b, |b.entries|)
  {
    var ends: seq<nat> := seq(|b.entries| + 1, i requires 0 <= i <= |b.entries| => Off(b, i));
    forall i {:trigger found.slots[i]} | 0 <= i < |b.entries| ensures EntryAfter(found.slots[i]) == Some(ends[i + 1]) && ends[i] < ends[i + 1] {
      EntryEnds(found.slots[i], b, i);
    }
    FurthestRises(found.slots, ends, |b.entries|);
    assert found.slots[..|b.entries|] == found.slots;
  }

  lemma CursorAfter(g: Geometry, bs: seq<Placed>, k: nat, found: BatchScan)
    requires k < |bs| && WellFormed(bs[k]) && AllLive(bs[k]) && TrueBatch(found, bs[k]) && Full(found)
    ensures AlignToBlock(Furthest(found.slots, bs[k].entryAt)) == CursorOf(g, bs, k + 1)
  {
    FurthestIs(bs[k], found);
    EndBeyond(bs[k]);
  }

  // ---- a segment ----

  /** The log's batches, as far as any is found. */
  predicate TrueBatches(found: seq<BatchScan>, bs: seq<Placed>) {
    |found| <= |bs| && forall m {:trigger found[m]} | 0 <= m < |found| :: TrueBatch(found[m], bs[m])
  }

  /** One batch further, if nothing of it is lost, is the next boundary of the log. */
  lemma StepIsTrue(g: Geometry, seg: Segment, stale: Stale, bs: seq<Placed>, k: nat, found: BatchScan)
    requires Holds(g, seg, bs) && AllWritten(bs) && k <= |bs|
    requires BatchAt(g, seg, stale, AtOf(bs, k), CursorOf(g, bs, k), SeqnoOf(bs, k, seg.prev), found)
    ensures Proper(g, seg, bs, k, found)
  {
    BatchIsTrue(g, seg, stale, bs, k, found);
    assert Follows(g, seg, bs, k) && Coherent(g, seg, bs[k]) && Written(bs[k]);
    if Full(found) { CursorAfter(g, bs, k, found); }
  }

  /** The boundaries of a log, and what may be found at each. */
  type Places = seq<(nat, nat, nat)>
  type Truth = (nat, BatchScan) -> bool

  predicate StaysOn(finds: Finds, places: Places, truth: Truth, k: nat, found: BatchScan) {
    k < |places| && finds(places[k].0, places[k].1, places[k].2, found) ==>
      && k + 1 < |places| && truth(k, found)
      && (Full(found) ==> places[k + 1] == (places[k].0 + Span(found.count), AlignToBlock(Furthest(found.slots, places[k].1)), found.seqno))
  }

  lemma {:induction false} ParsedIsTrue(finds: Finds, stops: Stops, places: Places, truth: Truth, k: nat, scan: SegmentScan)
    requires forall i: nat, found: BatchScan {:trigger StaysOn(finds, places, truth, i, found)} :: StaysOn(finds, places, truth, i, found)
    requires k < |places| && Parses(finds, stops, places[k].0, places[k].1, places[k].2, scan)
    requires forall m | 0 <= m < |scan.batches| - 1 :: Full(scan.batches[m])
    ensures k + |scan.batches| < |places| && forall m {:trigger scan.batches[m]} | 0 <= m < |scan.batches| :: truth(k + m, scan.batches[m])
    decreases |scan.batches|
  {
    if scan.batches != [] {
      var rest := scan.(batches := scan.batches[1..]);
      assert StaysOn(finds, places, truth, k, scan.batches[0]);
      if rest.batches != [] {
        assert forall m | 0 <= m < |rest.batches| :: rest.batches[m] == scan.batches[m + 1];
        ParsedIsTrue(finds, stops, places, truth, k + 1, rest);
        forall m {:trigger scan.batches[m]} | 1 <= m < |scan.batches| ensures truth(k + m, scan.batches[m]) {
          assert rest.batches[m - 1] == scan.batches[m];
        }
      }
    }
  }

  function PlacesIn(g: Geometry, seg: Segment, bs: seq<Placed>): (r: Places)
    ensures |r| == |bs| + 1 && forall k | 0 <= k <= |bs| :: r[k] == (AtOf(bs, k), CursorOf(g, bs, k), SeqnoOf(bs, k, seg.prev))
  {
    seq(|bs| + 1, k requires 0 <= k <= |bs| => (AtOf(bs, k), CursorOf(g, bs, k), SeqnoOf(bs, k, seg.prev)))
  }

  function TruthOf(bs: seq<Placed>): Truth { (k: nat, found: BatchScan) => k < |bs| && TrueBatch(found, bs[k]) }

  /** What is found at boundary `k` is batch `k`, and leads to the next boundary if nothing of it is lost. */
  predicate Proper(g: Geometry, seg: Segment, bs: seq<Placed>, k: nat, found: BatchScan) {
    && k < |bs| && TrueBatch(found, bs[k])
    && (Full(found) ==>
          && AtOf(bs, k) + Span(found.count) == AtOf(bs, k + 1) && found.seqno == SeqnoOf(bs, k + 1, seg.prev)
          && AlignToBlock(Furthest(found.slots, CursorOf(g, bs, k))) == CursorOf(g, bs, k + 1))
  }

  lemma ProperStays(finds: Finds, g: Geometry, seg: Segment, bs: seq<Placed>, k: nat, found: BatchScan)
    requires k <= |bs| && finds(AtOf(bs, k), CursorOf(g, bs, k), SeqnoOf(bs, k, seg.prev), found) ==> Proper(g, seg, bs, k, found)
    ensures StaysOn(finds, PlacesIn(g, seg, bs), TruthOf(bs), k, found)
  {
    var places := PlacesIn(g, seg, bs);
    if k < |places| { assert places[k] == (AtOf(bs, k), CursorOf(g, bs, k), SeqnoOf(bs, k, seg.prev)); }
    if k < |bs| { assert places[k + 1] == (AtOf(bs, k + 1), CursorOf(g, bs, k + 1), SeqnoOf(bs, k + 1, seg.prev)); }
  }

  lemma PlaceLeads(g: Geometry, seg: Segment, stale: Stale, bs: seq<Placed>, k: nat, found: BatchScan)
    requires Holds(g, seg, bs) && AllWritten(bs)
    ensures StaysOn(FindsIn(g, seg, stale), PlacesIn(g, seg, bs), TruthOf(bs), k, found)
  {
    if k <= |bs| && BatchAt(g, seg, stale, AtOf(bs, k), CursorOf(g, bs, k), SeqnoOf(bs, k, seg.prev), found) {
      StepIsTrue(g, seg, stale, bs, k, found);
    }
    ProperStays(FindsIn(g, seg, stale), g, seg, bs, k, found);
  }

  lemma TrueHere(found: seq<BatchScan>, bs: seq<Placed>)
    requires |found| <= |bs| && forall m {:trigger found[m]} | 0 <= m < |found| :: TruthOf(bs)(0 + m, found[m])
    ensures TrueBatches(found, bs)
  {
    forall m {:trigger found[m]} | 0 <= m < |found| ensures TrueBatch(found[m], bs[m]) { assert TruthOf(bs)(0 + m, found[m]); }
  }

  lemma SegmentIsTrue(g: Geometry, seg: Segment, stale: Stale, bs: seq<Placed>, scan: SegmentScan)
    requires Holds(g, seg, bs) && AllWritten(bs) && HoldsExactly(g, seg, stale, seg.prev, scan)
    requires forall m | 0 <= m < |scan.batches| - 1 :: Full(scan.batches[m])
    ensures TrueBatches(scan.batches, bs)
  {
    var finds, stops, places, truth := FindsIn(g, seg, stale), StopsIn(g, seg, stale), PlacesIn(g, seg, bs), TruthOf(bs);
    forall i: nat, found: BatchScan {:trigger StaysOn(finds, places, truth, i, found)} ensures StaysOn(finds, places, truth, i, found) {
      PlaceLeads(g, seg, stale, bs, i, found);
    }
    assert places[0] == (0, g.EntryStart(), seg.prev);
    ParsedIsTrue(finds, stops, places, truth, 0, scan);
    TrueHere(scan.batches, bs);
  }

  // ---- the whole log ----

  /** Segment after segment of committed batches, none of whose writes was discarded. */
  predicate Committed(g: Geometry, segs: seq<Segment>, log: seq<seq<Placed>>) {
    && |segs| == |log|
    && (forall s {:trigger log[s]} | 0 <= s < |segs| :: Holds(g, segs[s], log[s]) && AllWritten(log[s]))
    && forall s {:trigger segs[s]} | 0 < s < |segs| :: segs[s].prev == LastSeqno(log[s - 1], segs[s - 1].prev)
  }

  predicate AllHurt(segs: seq<Segment>, hurt: seq<Segment>) {
    |hurt| == |segs| && forall s {:trigger hurt[s]} | 0 <= s < |segs| :: Hurt(segs[s], hurt[s])
  }

  /** The log's own batches from the first one on; only the last segment may miss some at its end. */
  predicate TrueLog(scans: seq<SegmentScan>, log: seq<seq<Placed>>) {
    && |scans| == |log|
    && (forall s {:trigger scans[s]} | 0 <= s < |log| :: TrueBatches(scans[s].batches, log[s]))
    && (forall s {:trigger scans[s]} | 0 <= s < |log| - 1 :: |scans[s].batches| == |log[s]|)
  }

  lemma SoundIsFull(scans: seq<SegmentScan>, s: nat, m: nat)
    requires Sound(scans) && s < |scans| && m < |scans[s].batches| - 1
    ensures Full(scans[s].batches[m])
  {
    forall i: nat | i < |scans[s].batches[m].slots| ensures !scans[s].batches[m].slots[i].Lost? { assert !Hole(scans, s, m, i); }
  }

  lemma FoundSegment(g: Geometry, hurt: seq<Segment>, stale: Stale, scans: seq<SegmentScan>, log: seq<seq<Placed>>, s: nat)
    requires Trusts(g, hurt, stale, scans) && s < |hurt| == |log| && Holds(g, hurt[s], log[s]) && AllWritten(log[s])
    ensures TrueBatches(scans[s].batches, log[s]) && hurt[s].prev == LastFound(scans[..s], FirstLink(hurt))
  {
    assert SegmentIs(g, hurt, stale, FirstLink(hurt), scans, s);
    forall m: nat | m < |scans[s].batches| - 1 ensures Full(scans[s].batches[m]) { SoundIsFull(scans, s, m); }
    SegmentIsTrue(g, hurt[s], stale, log[s], scans[s]);
  }

  /** A segment that lost a batch at its end breaks the link of the next one. */
  lemma FullSegment(g: Geometry, seg: Segment, next: nat, bs: seq<Placed>, scans: seq<SegmentScan>, first: nat, s: nat)
    requires s < |scans| && Holds(g, seg, bs) && AllWritten(bs) && TrueBatches(scans[s].batches, bs)
    requires seg.prev == LastFound(scans[..s], first) && next == LastFound(scans[..s + 1], first) && next == LastSeqno(bs, seg.prev)
    ensures |scans[s].batches| == |bs|
  {
    assert scans[..s + 1][..s] == scans[..s];
    var q := |scans[s].batches|;
    if q < |bs| {
      var n := |bs| - 1;
      assert Follows(g, seg, bs, n);
      if q == 0 {
        assert next == seg.prev;
        FirstBeyond(g, seg, bs, n);
      } else {
        assert TrueBatch(scans[s].batches[q - 1], bs[q - 1]);
        if q - 1 < n { Ordered(g, seg, bs, q - 1, n); }
      }
    }
  }

  lemma FirstBeyond(g: Geometry, seg: Segment, bs: seq<Placed>, n: nat)
    requires Holds(g, seg, bs) && AllWritten(bs) && n < |bs|
    ensures bs[n].seqno > seg.prev
  {
    assert Follows(g, seg, bs, 0);
    if n > 0 { Ordered(g, seg, bs, 0, n); }
  }

  /** Whatever cells a committed log lost: if the scan of what is left succeeds, it found the log's own
      batches from the first one on, every write it found is as it was written, and a write is missing only
      in the last batch it found. */
  lemma DamageNeverLies(g: Geometry, segs: seq<Segment>, hurt: seq<Segment>, stale: Stale, log: seq<seq<Placed>>) returns (scans: seq<SegmentScan>)
    requires Committed(g, segs, log) && AllHurt(segs, hurt) && ScanAll(g, hurt, stale).Ok?
    ensures Trusts(g, hurt, stale, scans) && TrueLog(scans, log)
    ensures ScanAll(g, hurt, stale).value.lastBatch == LastFound(scans, FirstLink(hurt))
  {
    ScanAllIs(g, hurt, stale);
    scans :| Trusts(g, hurt, stale, scans);
    assert LogIs(g, hurt, stale, FirstLink(hurt), scans);
    TrustedIsTrue(g, segs, hurt, stale, log, scans);
  }

  lemma TrustedIsTrue(g: Geometry, segs: seq<Segment>, hurt: seq<Segment>, stale: Stale, log: seq<seq<Placed>>, scans: seq<SegmentScan>)
    requires Committed(g, segs, log) && AllHurt(segs, hurt) && Trusts(g, hurt, stale, scans)
    ensures TrueLog(scans, log)
  {
    forall s: nat | s < |log| ensures Holds(g, hurt[s], log[s]) && AllWritten(log[s]) {
      assert Holds(g, segs[s], log[s]) && Hurt(segs[s], hurt[s]);
      HurtHolds(g, segs[s], hurt[s], log[s]);
    }
    forall s {:trigger scans[s]} | 0 <= s < |log| ensures TrueBatches(scans[s].batches, log[s]) { FoundSegment(g, hurt, stale, scans, log, s); }
    forall s {:trigger scans[s]} | 0 <= s < |log| - 1 ensures |scans[s].batches| == |log[s]| {
      FoundSegment(g, hurt, stale, scans, log, s);
      FoundSegment(g, hurt, stale, scans, log, s + 1);
      assert segs[s + 1].prev == LastSeqno(log[s], segs[s].prev) && Hurt(segs[s], hurt[s]) && Hurt(segs[s + 1], hurt[s + 1]);
      FullSegment(g, hurt[s], hurt[s + 1].prev, log[s], scans, FirstLink(hurt), s);
    }
  }

  /** And if it reaches the log's last batch, as an open demands of the batch its metainfo names, no batch
      is missing. */
  lemma NothingLost(g: Geometry, segs: seq<Segment>, hurt: seq<Segment>, stale: Stale, log: seq<seq<Placed>>) returns (scans: seq<SegmentScan>)
    requires Committed(g, segs, log) && AllHurt(segs, hurt) && ScanAll(g, hurt, stale).Ok? && segs != []
    requires ScanAll(g, hurt, stale).value.lastBatch >= LastSeqno(log[|log| - 1], segs[|segs| - 1].prev)
    ensures Trusts(g, hurt, stale, scans) && TrueLog(scans, log) && |scans[|log| - 1].batches| == |log[|log| - 1]|
  {
    scans := DamageNeverLies(g, segs, hurt, stale, log);
    var n := |log| - 1;
    assert Holds(g, segs[n], log[n]) && AllWritten(log[n]) && Hurt(segs[n], hurt[n]);
    HurtHolds(g, segs[n], hurt[n], log[n]);
    FoundSegment(g, hurt, stale, scans, log, n);
    ReachesEnd(g, hurt[n], log[n], scans, FirstLink(hurt));
  }

  lemma ReachesEnd(g: Geometry, seg: Segment, bs: seq<Placed>, scans: seq<SegmentScan>, first: nat)
    requires scans != [] && Holds(g, seg, bs) && AllWritten(bs) && TrueBatches(scans[|scans| - 1].batches, bs)
    requires seg.prev == LastFound(scans[..|scans| - 1], first) && LastFound(scans, first) >= LastSeqno(bs, seg.prev)
    ensures |scans[|scans| - 1].batches| == |bs|
  {
    var found := scans[|scans| - 1].batches;
    var q, n := |found|, |bs| - 1;
    if q <= n {
      if q == 0 { FirstBeyond(g, seg, bs, n); }
      else {
        assert TrueBatch(found[q - 1], bs[q - 1]);
        if q - 1 < n { Ordered(g, seg, bs, q - 1, n); }
      }
    }
  }
}
