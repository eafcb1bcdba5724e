/** What the scan does not depend on: the records of intact entries, and a recycled file's
    older batches. */
module Redundancy {
  import opened Format
  import opened Ops
  import opened Recover
  import opened Log
  import opened Verdict
  import opened Evidence

  // ---- damaged records ----

  /** The same segment with some of its records damaged or wiped. */
  predicate RecordsDamaged(seg: Segment, hurt: Segment) {
    && hurt.first == seg.first && hurt.prev == seg.prev && hurt.entries == seg.entries
    && |hurt.slots| == |seg.slots|
    && forall j | 0 <= j < |seg.slots| :: hurt.slots[j] == seg.slots[j] || !hurt.slots[j].Valid?
  }

  /** A committed batch: nothing discarded, every entry intact. */
  predicate Intact(seg: Segment, b: Placed) {
    |b.entries| == |b.live| && b.firm && forall i | 0 <= i < |b.entries| :: b.live[i] && EntryOk(seg, b, i)
  }

  lemma {:induction false} IntactSurvives(seg: Segment, b: Placed, i: nat)
    requires WellFormed(b) && b.at + |b.entries| <= |seg.slots| && Intact(seg, b) && i < |b.entries|
    ensures Survives(seg, b, i)
  {
    if i > 0 {
      IntactSurvives(seg, b, i - 1);
    }
  }

  lemma IntactIsWhole(seg: Segment, b: Placed)
    requires WellFormed(b) && b.at + |b.entries| <= |seg.slots| && Intact(seg, b)
    ensures Whole(seg, b) && Visible(seg, b) && Firm(seg, b) && Kept(seg, b) == b
  {
    forall i | 0 <= i < |b.entries| ensures !Expect(seg, b, i).Lost? {
      IntactSurvives(seg, b, i);
    }
    WholeIsVisible(seg, b);
  }

  lemma DamageStaysCoherent(g: Geometry, seg: Segment, hurt: Segment, b: Placed)
    requires Coherent(g, seg, b) && RecordsDamaged(seg, hurt)
    ensures Coherent(g, hurt, b)
  {
    forall i | 0 <= i < |b.entries| && Evident(hurt, b, i) ensures hurt.slots[b.at + i] == Valid(Rec(b, i)) {
      assert Evident(seg, b, i);
    }
    forall j | b.at + |b.entries| <= j < b.at + Span(|b.entries|) ensures !Fresh(hurt, j) {
      assert !Fresh(seg, j);
    }
    forall i | 0 <= i < |b.entries| && !b.live[i] && EntryOk(hurt, b, i) ensures i > 0 && !b.live[i - 1] {
      assert EntryOk(seg, b, i);
    }
  }

  lemma DamagedBatch(g: Geometry, seg: Segment, hurt: Segment, b: Placed)
    requires Coherent(g, seg, b) && RecordsDamaged(seg, hurt) && Intact(seg, b)
    ensures Coherent(g, hurt, b)
    ensures Whole(hurt, b) && Visible(hurt, b) && Firm(hurt, b) && Kept(hurt, b) == b
  {
    DamageStaysCoherent(g, seg, hurt, b);
    forall i | 0 <= i < |b.entries| ensures EntryOk(hurt, b, i) {
      assert EntryOk(seg, b, i);
    }
    IntactIsWhole(hurt, b);
  }

  predicate AllUnhurt(g: Geometry, hurt: Segment, bs: seq<Placed>) {
    forall k {:trigger Coherent(g, hurt, bs[k])} | 0 <= k < |bs| ::
      && Coherent(g, hurt, bs[k])
      && Whole(hurt, bs[k]) && Visible(hurt, bs[k]) && Firm(hurt, bs[k]) && Kept(hurt, bs[k]) == bs[k]
  }

  lemma BatchesUnhurt(g: Geometry, seg: Segment, hurt: Segment, bs: seq<Placed>)
    requires Holds(g, seg, bs) && RecordsDamaged(seg, hurt)
    requires forall k {:trigger Intact(seg, bs[k])} | 0 <= k < |bs| :: Intact(seg, bs[k])
    ensures AllUnhurt(g, hurt, bs)
  {
    forall k | 0 <= k < |bs|
      ensures Coherent(g, hurt, bs[k])
      ensures Whole(hurt, bs[k]) && Visible(hurt, bs[k]) && Firm(hurt, bs[k]) && Kept(hurt, bs[k]) == bs[k]
    {
      assert Intact(seg, bs[k]) && Coherent(g, seg, bs[k]);
      DamagedBatch(g, seg, hurt, bs[k]);
    }
  }

  lemma DamageStaysHeld(g: Geometry, seg: Segment, hurt: Segment, stale: Stale, bs: seq<Placed>)
    requires SegmentHolds(g, seg, stale, bs) && RecordsDamaged(seg, hurt)
    requires AllUnhurt(g, hurt, bs)
    ensures SegmentHolds(g, hurt, stale, bs) && AllWhole(hurt, bs) && KeptAll(hurt, bs) == bs
  {
    assert Holds(g, hurt, bs) by {
      forall k | 0 <= k < |bs| ensures Follows(g, hurt, bs, k) && Coherent(g, hurt, bs[k]) {
        assert Follows(g, seg, bs, k) && Coherent(g, hurt, bs[k]);
      }
      forall j | AtOf(bs, |bs|) <= j < |hurt.slots| ensures !Fresh(hurt, j) {
        assert !Fresh(seg, j);
      }
    }
    forall j | 0 <= j < |hurt.slots| && Fresh(hurt, j) ensures !stale.IsStale(hurt.slots[j].record.batch) {
      assert Fresh(seg, j);
    }
    forall k | 0 <= k < |bs|
      ensures Whole(hurt, bs[k]) && Visible(hurt, bs[k]) && Firm(hurt, bs[k]) && Kept(hurt, bs[k]) == bs[k]
      ensures !stale.IsStale(bs[k].seqno)
    {
      assert Coherent(g, hurt, bs[k]) && Visible(seg, bs[k]);
    }
  }

  lemma SameCursors(g: Geometry, segs: seq<Segment>, hurt: seq<Segment>, log: seq<seq<Placed>>)
    requires |segs| == |hurt| == |log|
    requires forall s {:trigger segs[s]} | 0 <= s < |segs| :: Inside(segs[s], log[s]) && KeptAll(segs[s], log[s]) == log[s]
    requires forall s {:trigger hurt[s]} | 0 <= s < |hurt| :: Inside(hurt[s], log[s]) && KeptAll(hurt[s], log[s]) == log[s]
    ensures Cursors(Scanned(g, segs, log)) == Cursors(Scanned(g, hurt, log))
  {
    forall s | 0 <= s < |segs|
      ensures Cursors(Scanned(g, segs, log))[s] == Cursors(Scanned(g, hurt, log))[s]
    {
      if log[s] != [] {
        var last := |log[s]| - 1;
        assert KeptAll(segs[s], log[s])[last] == log[s][last] == KeptAll(hurt[s], log[s])[last];
      }
    }
  }

  predicate AllIntact(segs: seq<Segment>, log: seq<seq<Placed>>) {
    && |segs| == |log|
    && forall s, k {:trigger Intact(segs[s], log[s][k])} | 0 <= s < |segs| && 0 <= k < |log[s]| :: Intact(segs[s], log[s][k])
  }

  predicate AllRecordsDamaged(segs: seq<Segment>, hurt: seq<Segment>) {
    |segs| == |hurt| && forall s {:trigger segs[s]} | 0 <= s < |segs| :: RecordsDamaged(segs[s], hurt[s])
  }

  lemma DamageStaysLogged(g: Geometry, segs: seq<Segment>, hurt: seq<Segment>, stale: Stale, log: seq<seq<Placed>>)
    requires LogHolds(g, segs, stale, log) && AllIntact(segs, log) && AllRecordsDamaged(segs, hurt)
    ensures LogHolds(g, hurt, stale, log)
    ensures forall s {:trigger hurt[s]} | 0 <= s < |hurt| :: Inside(hurt[s], log[s]) && KeptAll(hurt[s], log[s]) == log[s]
  {
    forall s | 0 <= s < |hurt|
      ensures SegmentHolds(g, hurt[s], stale, log[s]) && Inside(hurt[s], log[s]) && AllWhole(hurt[s], log[s])
      ensures KeptAll(hurt[s], log[s]) == log[s]
    {
      assert SegmentHolds(g, segs[s], stale, log[s]);
      BatchesUnhurt(g, segs[s], hurt[s], log[s]);
      DamageStaysHeld(g, segs[s], hurt[s], stale, log[s]);
    }
    forall s | 0 <= s < |hurt| ensures hurt[s].prev == LastBefore(hurt, log, s) {
      assert segs[s].prev == LastBefore(segs, log, s);
      assert RecordsDamaged(segs[s], hurt[s]) && (s > 0 ==> RecordsDamaged(segs[s - 1], hurt[s - 1]));
    }
  }

  /** The scan returns exactly this, and reports no damage. */
  predicate Returns(r: Result<Scan, OpenError>, last: nat, cursors: seq<(nat, nat)>, ops: seq<Op<Item>>) {
    && r.Ok? && r.value.lastBatch == last && r.value.cursors == cursors
    && Applies(Ok(r.value.verdicts), ops, true)
  }

  lemma IntactScan(g: Geometry, segs: seq<Segment>, stale: Stale, log: seq<seq<Placed>>)
    requires LogHolds(g, segs, stale, log)
    requires forall s, k {:trigger log[s][k]} | 0 <= s < |log| && 0 <= k < |log[s]| :: log[s][k].firm
    requires forall s {:trigger segs[s]} | 0 <= s < |segs| :: Inside(segs[s], log[s]) && KeptAll(segs[s], log[s]) == log[s]
    ensures Returns(ScanAll(g, segs, stale), LastBefore(segs, log, |segs|), Cursors(Scanned(g, segs, log)), LogOps(segs, log))
  {
    ScanAllFinds(g, segs, stale, log, true);
    assert KeptLog(segs, log) == log;
  }

  lemma HurtScan(g: Geometry, segs: seq<Segment>, hurt: seq<Segment>, stale: Stale, log: seq<seq<Placed>>)
    requires LogHolds(g, segs, stale, log) && AllIntact(segs, log) && AllRecordsDamaged(segs, hurt)
    ensures Returns(ScanAll(g, hurt, stale), LastBefore(segs, log, |segs|), Cursors(Scanned(g, segs, log)), LogOps(segs, log))
  {
    forall s, k | 0 <= s < |log| && 0 <= k < |log[s]| ensures log[s][k].firm {
      assert Intact(segs[s], log[s][k]);
    }
    DamageStaysLogged(g, segs, segs, stale, log);
    DamageStaysLogged(g, segs, hurt, stale, log);
    IntactScan(g, hurt, stale, log);
    SameCursors(g, segs, hurt, log);
    assert |segs| > 0 ==> RecordsDamaged(segs[|segs| - 1], hurt[|segs| - 1]);
    assert LastBefore(segs, log, |segs|) == LastBefore(hurt, log, |hurt|);
    assert seq(|segs|, s requires 0 <= s < |segs| => SegmentOps(segs[s].first, log[s]))
        == seq(|hurt|, s requires 0 <= s < |hurt| => SegmentOps(hurt[s].first, log[s]));
  }

  /** Damaging any set of persist records, even all of them, changes nothing recovery returns:
      each is rebuilt from its entry. */
  lemma RecordsAreRedundant(g: Geometry, segs: seq<Segment>, hurt: seq<Segment>, stale: Stale, log: seq<seq<Placed>>)
    requires LogHolds(g, segs, stale, log) && AllIntact(segs, log) && AllRecordsDamaged(segs, hurt)
    ensures ScanAll(g, segs, stale).Ok? && ScanAll(g, hurt, stale).Ok?
    ensures var a, b := ScanAll(g, segs, stale).value, ScanAll(g, hurt, stale).value;
            && a.lastBatch == b.lastBatch && a.cursors == b.cursors && a.verdicts.ops == b.verdicts.ops
            && b.verdicts.corrupt == [] && b.verdicts.ambiguous == []
  {
    HurtScan(g, segs, segs, stale, log);
    HurtScan(g, segs, hurt, stale, log);
  }

  // ---- recycled files ----

  /** The segment as a zero-filled file would hold it: only what was written since its header. */
  function ZeroFilled(seg: Segment): (z: Segment)
    ensures |z.slots| == |seg.slots|
  {
    seg.(slots := seq(|seg.slots|, j requires 0 <= j < |seg.slots| => if Fresh(seg, j) then seg.slots[j] else Zero),
         entries := map o | o in seg.entries && seg.entries[o].batch >= seg.first :: seg.entries[o])
  }

  lemma ViewSame(seg: Segment, stale: Stale, j: nat)
    requires j < |seg.slots|
    ensures View(seg, stale, j).Valid? <==> View(ZeroFilled(seg), stale, j).Valid?
    ensures View(seg, stale, j).Valid? ==> View(seg, stale, j) == View(ZeroFilled(seg), stale, j)
  {
    assert ZeroFilled(seg).slots[j] == if Fresh(seg, j) then seg.slots[j] else Zero;
  }

  lemma {:induction false} FirstValidSame(seg: Segment, stale: Stale, at: nat)
    requires at <= |seg.slots|
    ensures FirstValid(seg, stale, at) == FirstValid(ZeroFilled(seg), stale, at)
    decreases |seg.slots| - at
  {
    if at < |seg.slots| {
      ViewSame(seg, stale, at);
      FirstValidSame(seg, stale, at + 1);
    }
  }

  /** An entry either reads the same or is of no batch this segment could hold. */
  lemma ReadSame(g: Geometry, seg: Segment, offset: nat)
    ensures ReadEntry(g, seg, offset) == ReadEntry(g, ZeroFilled(seg), offset)
            || (ReadEntry(g, ZeroFilled(seg), offset).None? && ReadEntry(g, seg, offset).value.batch < seg.first)
  {
  }

  lemma ShapeSame(g: Geometry, seg: Segment, stale: Stale, at: nat, cursor: nat, last: nat)
    requires at <= |seg.slots|
    ensures ShapeAt(g, seg, stale, at, cursor, last) == ShapeAt(g, ZeroFilled(seg), stale, at, cursor, last)
  {
    FirstValidSame(seg, stale, at);
    var j := FirstValid(seg, stale, at);
    if j < |seg.slots| { ViewSame(seg, stale, j); }
    ReadSame(g, seg, cursor);
    assert IsHead(g, seg, stale, cursor, last) == IsHead(g, ZeroFilled(seg), stale, cursor, last);
  }

  lemma FoundHereSame(g: Geometry, seg: Segment, stale: Stale, f: Frame, i: nat, walk: Option<nat>)
    requires f.at + f.count <= |seg.slots| && f.batch >= seg.first && i < f.count
    ensures FoundHere(g, seg, stale, f, i, walk) == FoundHere(g, ZeroFilled(seg), stale, f, i, walk)
  {
    ViewSame(seg, stale, f.at + i);
    if walk.Some? { ReadSame(g, seg, walk.value); }
  }

  lemma {:induction false} FoundSame(g: Geometry, seg: Segment, stale: Stale, f: Frame, i: nat)
    requires f.at + f.count <= |seg.slots| && f.batch >= seg.first && i < f.count
    ensures FoundAt(g, seg, stale, f, i) == FoundAt(g, ZeroFilled(seg), stale, f, i)
  {
    if i > 0 {
      FoundSame(g, seg, stale, f, i - 1);
    }
    FoundHereSame(g, seg, stale, f, i, WalkAt(g, seg, stale, f, i));
  }

  lemma {:induction false} EndSame(g: Geometry, seg: Segment, stale: Stale, f: Frame, n: nat)
    requires f.at + f.count <= |seg.slots| && f.batch >= seg.first && n <= f.count
    ensures EntriesEnd(g, seg, stale, f, n) == EntriesEnd(g, ZeroFilled(seg), stale, f, n)
  {
    if n > 0 {
      EndSame(g, seg, stale, f, n - 1);
      FoundSame(g, seg, stale, f, n - 1);
    }
  }

  lemma FoundSlotsSame(g: Geometry, seg: Segment, stale: Stale, f: Frame)
    requires f.at + f.count <= |seg.slots| && f.batch >= seg.first
    ensures FoundSlots(g, seg, stale, f) == FoundSlots(g, ZeroFilled(seg), stale, f)
  {
    forall i | 0 <= i < f.count ensures FoundAt(g, seg, stale, f, i) == FoundAt(g, ZeroFilled(seg), stale, f, i) {
      FoundSame(g, seg, stale, f, i);
    }
  }

  lemma LookSame(g: Geometry, seg: Segment, stale: Stale, at: nat, cursor: nat, last: nat)
    ensures LookAt(g, seg, stale, at, cursor, last) == LookAt(g, ZeroFilled(seg), stale, at, cursor, last)
  {
    if at < |seg.slots| {
      ShapeSame(g, seg, stale, at, cursor, last);
      var shape := ShapeAt(g, seg, stale, at, cursor, last);
      if shape.Here? && at + shape.count <= |seg.slots| {
        var f := Frame(at, shape.batch, shape.count, cursor);
        FoundSlotsSame(g, seg, stale, f);
        EndSame(g, seg, stale, f, f.count);
      }
    }
  }

  lemma NewGoesBySame(g: Geometry, seg: Segment, stale: Stale, at: nat, cursor: nat, last: nat)
    ensures GoesBy(ScannerOf(g, ZeroFilled(seg), stale), LookOf(g, seg, stale), at, cursor, last)
  {
    ScanGoesBy(g, ZeroFilled(seg), stale, at, cursor, last);
    LookSame(g, seg, stale, at, cursor, last);
  }

  /** Two scans that see the same at every boundary find the same. */
  lemma {:induction false} SeeingDecides(scan: Scanner, other: Scanner, look: Look, slots: nat, at: nat, cursor: nat, last: nat)
    requires forall a: nat, c: nat, l: nat {:trigger GoesBy(scan, look, a, c, l)} :: GoesBy(scan, look, a, c, l)
    requires forall a: nat, c: nat, l: nat {:trigger GoesBy(other, look, a, c, l)} :: GoesBy(other, look, a, c, l)
    requires forall a: nat, c: nat, l: nat {:trigger look(a, c, l)} ::
               look(a, c, l).Ok? && look(a, c, l).value.Some? ==> a < slots && look(a, c, l).value.value.0.count > 0
    ensures scan(at, cursor, last) == other(at, cursor, last)
    decreases slots - at
  {
    assert GoesBy(scan, look, at, cursor, last) && GoesBy(other, look, at, cursor, last);
    var r := look(at, cursor, last);
    if r.Ok? && r.value.Some? {
      var x := r.value.value;
      SeeingDecides(scan, other, look, slots, at + Span(x.0.count), x.1, x.0.seqno);
    }
  }

  /** Scanning a recycled segment is scanning a zero-filled one holding the same new writes,
      whatever older batches the file still contains. */
  lemma RecycledScansLikeNew(g: Geometry, seg: Segment, stale: Stale, at: nat, cursor: nat, last: nat)
    ensures ScanFrom(g, seg, stale, at, cursor, last) == ScanFrom(g, ZeroFilled(seg), stale, at, cursor, last)
  {
    var scan, other, look := ScannerOf(g, seg, stale), ScannerOf(g, ZeroFilled(seg), stale), LookOf(g, seg, stale);
    forall a: nat, c: nat, l: nat {:trigger GoesBy(scan, look, a, c, l)} ensures GoesBy(scan, look, a, c, l) {
      ScanGoesBy(g, seg, stale, a, c, l);
    }
    forall a: nat, c: nat, l: nat {:trigger GoesBy(other, look, a, c, l)} ensures GoesBy(other, look, a, c, l) {
      NewGoesBySame(g, seg, stale, a, c, l);
    }
    SeeingDecides(scan, other, look, |seg.slots|, at, cursor, last);
  }

  /** Pass 2 does not see the older batches either. */
  lemma RecycledJudgesLikeNew(g: Geometry, seg: Segment, s: nat, b: BatchScan, isLast: bool)
    requires OwnRecords(seg, b)
    ensures JudgeBatch(g, seg, s, b, isLast) == JudgeBatch(g, ZeroFilled(seg), s, b, isLast)
  {
    forall i | 0 <= i < |b.slots|
      ensures JudgeSlot(g, seg, b, isLast, i) == JudgeSlot(g, ZeroFilled(seg), b, isLast, i)
    {
      if !b.slots[i].Lost? {
        ReadSame(g, seg, b.slots[i].record.offset);
        assert IsDamaged(g, seg, b.slots[i], isLast) == IsDamaged(g, ZeroFilled(seg), b.slots[i], isLast);
      }
    }
    assert SlotVerdicts(g, seg, b, isLast) == SlotVerdicts(g, ZeroFilled(seg), b, isLast);
  }

  // ---- the whole scan ----

  /** Every record found is of a batch the segment could hold. */
  predicate OwnRecords(seg: Segment, b: BatchScan) {
    forall i | 0 <= i < |b.slots| :: b.slots[i].Lost? || b.slots[i].record.batch >= seg.first
  }

  predicate AllOwn(seg: Segment, r: Result<SegmentScan, OpenError>) {
    r.Ok? ==> forall k {:trigger r.value.batches[k]} | 0 <= k < |r.value.batches| :: OwnRecords(seg, r.value.batches[k])
  }

  lemma FoundIsOwn(g: Geometry, seg: Segment, stale: Stale, f: Frame)
    requires f.at + f.count <= |seg.slots| && f.batch >= seg.first
    ensures OwnRecords(seg, BatchScan(f.batch, f.count, f.at, FoundSlots(g, seg, stale, f)))
  {
    forall i | 0 <= i < f.count
      ensures var found := FoundAt(g, seg, stale, f, i); found.Lost? || found.record.batch >= seg.first
    {
      var walk := WalkAt(g, seg, stale, f, i);
      assert FoundAt(g, seg, stale, f, i) == FoundHere(g, seg, stale, f, i, walk);
    }
  }

  lemma PrependOwn(seg: Segment, b: BatchScan, rest: Result<SegmentScan, OpenError>)
    requires OwnRecords(seg, b) && AllOwn(seg, rest)
    ensures AllOwn(seg, Prepend([b], rest))
  {
    if rest.Ok? {
      var all := [b] + rest.value.batches;
      forall k {:trigger all[k]} | 0 <= k < |all| ensures OwnRecords(seg, all[k]) {
        if k > 0 { assert all[k] == rest.value.batches[k - 1]; }
      }
    }
  }

  lemma {:induction false} ScanIsOwn(g: Geometry, seg: Segment, stale: Stale, at: nat, cursor: nat, last: nat)
    ensures AllOwn(seg, ScanFrom(g, seg, stale, at, cursor, last))
    decreases |seg.slots| - at
  {
    if at < |seg.slots| {
      var shape := ShapeAt(g, seg, stale, at, cursor, last);
      if shape.Here? && at + shape.count <= |seg.slots| {
        var f := Frame(at, shape.batch, shape.count, cursor);
        var next := AlignToBlock(EntriesEnd(g, seg, stale, f, f.count));
        FoundIsOwn(g, seg, stale, f);
        ScanIsOwn(g, seg, stale, at + Span(f.count), next, f.batch);
        PrependOwn(seg, BatchScan(f.batch, f.count, at, FoundSlots(g, seg, stale, f)), ScanFrom(g, seg, stale, at + Span(f.count), next, f.batch));
      }
    }
  }

  function AllZeroFilled(segs: seq<Segment>): (z: seq<Segment>)
    ensures |z| == |segs|
  {
    seq(|segs|, s requires 0 <= s < |segs| => ZeroFilled(segs[s]))
  }

  predicate ScansOwn(segs: seq<Segment>, scans: seq<SegmentScan>) {
    |scans| == |segs| && forall s {:trigger scans[s]} | 0 <= s < |segs| :: AllOwn(segs[s], Ok(scans[s]))
  }

  lemma {:induction false} SegmentsScanLikeNew(g: Geometry, segs: seq<Segment>, stale: Stale, last: nat)
    ensures ScanSegments(g, AllZeroFilled(segs), stale, last) == ScanSegments(g, segs, stale, last)
    ensures var r := ScanSegments(g, segs, stale, last); r.Ok? ==> ScansOwn(segs, r.value.0)
  {
    if segs != [] && segs[0].prev == last {
      RecycledScansLikeNew(g, segs[0], stale, 0, g.EntryStart(), last);
      ScanIsOwn(g, segs[0], stale, 0, g.EntryStart(), last);
      var scan := ScanSegment(g, segs[0], stale, last);
      assert AllZeroFilled(segs)[0] == ZeroFilled(segs[0]) && AllZeroFilled(segs)[1..] == AllZeroFilled(segs[1..]);
      if scan.Ok? {
        SegmentsScanLikeNew(g, segs[1..], stale, LastOf(scan.value, last));
        var r := ScanSegments(g, segs, stale, last);
        if r.Ok? { RestOwn(segs, r.value.0); }
      }
    }
  }

  lemma RestOwn(segs: seq<Segment>, scans: seq<SegmentScan>)
    requires |scans| == |segs| > 0 && AllOwn(segs[0], Ok(scans[0])) && ScansOwn(segs[1..], scans[1..])
    ensures ScansOwn(segs, scans)
  {
    forall s {:trigger scans[s]} | 0 <= s < |segs| ensures AllOwn(segs[s], Ok(scans[s])) {
      if s > 0 { assert scans[s] == scans[1..][s - 1] && segs[s] == segs[1..][s - 1]; }
    }
  }

  lemma SegmentJudgesLikeNew(g: Geometry, segs: seq<Segment>, scans: seq<SegmentScan>, s: nat)
    requires ScansOwn(segs, scans) && s < |segs|
    ensures BatchVerdicts(g, AllZeroFilled(segs), scans, s) == BatchVerdicts(g, segs, scans, s)
  {
    var z := AllZeroFilled(segs);
    assert AllOwn(segs[s], Ok(scans[s])) && z[s] == ZeroFilled(segs[s]);
    forall k | 0 <= k < |scans[s].batches|
      ensures JudgeBatch(g, z[s], s, scans[s].batches[k], IsLastBatch(scans, s, k))
              == JudgeBatch(g, segs[s], s, scans[s].batches[k], IsLastBatch(scans, s, k))
    {
      RecycledJudgesLikeNew(g, segs[s], s, scans[s].batches[k], IsLastBatch(scans, s, k));
    }
  }

  /** The scan of recycled segments, both passes, is the scan of zero-filled ones that hold the same new
      writes. */
  lemma RecycledIsLikeNew(g: Geometry, segs: seq<Segment>, stale: Stale)
    ensures ScanAll(g, AllZeroFilled(segs), stale) == ScanAll(g, segs, stale)
  {
    var z, last := AllZeroFilled(segs), if segs == [] then 0 else segs[0].prev;
    assert segs != [] ==> z[0] == ZeroFilled(segs[0]);
    SegmentsScanLikeNew(g, segs, stale, last);
    var r := ScanSegments(g, segs, stale, last);
    if r.Ok? {
      forall s | 0 <= s < |segs| ensures SegmentVerdicts(g, z, r.value.0)[s] == SegmentVerdicts(g, segs, r.value.0)[s] {
        SegmentJudgesLikeNew(g, segs, r.value.0, s);
      }
      assert SegmentVerdicts(g, z, r.value.0) == SegmentVerdicts(g, segs, r.value.0);
    }
  }
}
