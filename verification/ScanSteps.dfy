/** Recovery's scan of a disk any run can leave: it refuses nothing, finds the durable log, and
    settles the batch in flight. */
module ScanSteps {
  import opened Format
  import opened Ops
  import opened Recover
  import opened Log
  import opened Verdict
  import opened Writes
  import opened Tail
  import opened Spec
  import opened Runs
  import opened Invariant
  import opened DiskSteps

  // ---- one segment ----

  /** Whatever is evidence belongs to a batch of the log. */
  lemma {:induction false} FreshBelongs(g: Geometry, seg: Segment, bs: seq<Placed>, k: nat, j: nat) returns (i: nat)
    requires Holds(g, seg, bs) && k <= |bs| && AtOf(bs, k) <= j < |seg.slots| && Fresh(seg, j)
    ensures i < |bs| && bs[i].seqno == seg.slots[j].record.batch
    decreases |bs| - k
  {
    assert k < |bs|;
    assert Follows(g, seg, bs, k) && Coherent(g, seg, bs[k]);
    if j < AtOf(bs, k + 1) {
      i := k;
      assert j < bs[k].at + |bs[k].entries| && Evident(seg, bs[k], j - bs[k].at);
      assert seg.slots[j] == Valid(Rec(bs[k], j - bs[k].at));
    } else {
      i := FreshBelongs(g, seg, bs, k + 1, j);
    }
  }

  predicate SeqnosCurrent(bs: seq<Placed>, stale: Stale) {
    forall k {:trigger bs[k]} | 0 <= k < |bs| :: !stale.IsStale(bs[k].seqno)
  }

  lemma HeldNotStale(g: Geometry, seg: Segment, bs: seq<Placed>, stale: Stale)
    requires Holds(g, seg, bs) && SeqnosCurrent(bs, stale)
    ensures NoneStale(seg, stale)
  {
    forall j | 0 <= j < |seg.slots| && Fresh(seg, j) ensures !stale.IsStale(seg.slots[j].record.batch) {
      var i := FreshBelongs(g, seg, bs, 0, j);
      assert !stale.IsStale(bs[i].seqno);
    }
  }

  lemma SolidIsWhole(seg: Segment, b: Placed)
    requires WellFormed(b) && b.at + |b.entries| <= |seg.slots| && AllEvident(seg, b)
    ensures Whole(seg, b) && Visible(seg, b) && Kept(seg, b) == b
  {
    forall i | 0 <= i < |b.entries| ensures !Expect(seg, b, i).Lost? {
      assert Evident(seg, b, i);
    }
    WholeIsVisible(seg, b);
  }

  lemma SolidBatch(seg: Segment, bs: seq<Placed>, tail: Option<Placed>, k: nat)
    requires Inside(seg, bs) && k < |WithTail(bs, tail)|
    requires forall i {:trigger Solid(seg, bs[i])} | 0 <= i < |bs| :: Solid(seg, bs[i])
    requires tail.Some? ==> WellFormed(tail.value) && tail.value.at + |tail.value.entries| <= |seg.slots|
                            && Visible(seg, tail.value) && TailOk(seg, tail.value)
    ensures var b := WithTail(bs, tail)[k];
            && WellFormed(b) && b.at + |b.entries| <= |seg.slots| && Visible(seg, b) && Firm(seg, b)
            && (k < |bs| ==> Whole(seg, b))
  {
    if k < |bs| {
      assert WithTail(bs, tail)[k] == bs[k] && Solid(seg, bs[k]);
      SolidIsWhole(seg, bs[k]);
    } else {
      FirmWithin(seg, tail.value);
    }
  }

  /** The segment and its batch in flight, as the scan reads them. */
  lemma SegmentReads(g: Geometry, seg: Segment, bs: seq<Placed>, tail: Option<Placed>, stale: Stale)
    requires SegInv(g, seg, bs, tail) && SeqnosCurrent(WithTail(bs, tail), stale)
    requires tail.Some? ==> Visible(seg, tail.value)
    ensures SegmentHolds(g, seg, stale, WithTail(bs, tail))
  {
    var all := WithTail(bs, tail);
    HeldNotStale(g, seg, all, stale);
    assert tail.Some? ==> all[|bs|] == tail.value;
    forall k {:trigger Firm(seg, all[k])} {:trigger Visible(seg, all[k])} {:trigger Whole(seg, all[k])} | 0 <= k < |all|
      ensures Visible(seg, all[k]) && Firm(seg, all[k]) && !stale.IsStale(all[k].seqno) && (k < |bs| ==> Whole(seg, all[k]))
    {
      SolidBatch(seg, bs, tail, k);
    }
  }

  lemma SegmentWhole(g: Geometry, seg: Segment, bs: seq<Placed>)
    requires SegInv(g, seg, bs, None)
    ensures AllWhole(seg, bs)
  {
    forall k {:trigger Whole(seg, bs[k])} | 0 <= k < |bs| ensures Whole(seg, bs[k]) {
      assert Solid(seg, bs[k]);
      SolidIsWhole(seg, bs[k]);
    }
  }

  // ---- the log ----

  predicate TailVisible(d: Disk, tail: Option<Placed>) {
    TailInside(d, tail) && (tail.Some? ==> Visible(LastSegment(d), tail.value))
  }

  lemma MergedAt(log: seq<seq<Placed>>, tail: Option<Placed>, s: nat)
    requires s < |log|
    ensures Merged(log, tail)[s] == WithTail(log[s], TailAt(|log|, s, tail))
  {
  }

  lemma CurrentAt(log: seq<seq<Placed>>, tail: Option<Placed>, m: Meta, s: nat)
    requires NotStale(m, log, tail) && s < |log|
    ensures SeqnosCurrent(WithTail(log[s], TailAt(|log|, s, tail)), StaleOf(m))
  {
    var bs, t := log[s], TailAt(|log|, s, tail);
    forall k {:trigger WithTail(bs, t)[k]} | 0 <= k < |WithTail(bs, t)| ensures !StaleOf(m).IsStale(WithTail(bs, t)[k].seqno) {
      if k < |bs| { assert WithTail(bs, t)[k] == log[s][k]; }
    }
  }

  lemma ReadsAt(g: Geometry, d: Disk, log: seq<seq<Placed>>, tail: Option<Placed>, m: Meta, s: nat)
    requires Chained(Held(g), d.segs, log, tail) && TailVisible(d, tail) && NotStale(m, log, tail) && s < |d.segs|
    ensures SegmentHolds(g, d.segs[s], StaleOf(m), Merged(log, tail)[s])
    ensures s < |d.segs| - 1 ==> AllWhole(d.segs[s], Merged(log, tail)[s])
  {
    var t := TailAt(|d.segs|, s, tail);
    assert Held(g)(d.segs[s], log[s], t);
    MergedAt(log, tail, s);
    CurrentAt(log, tail, m, s);
    SegmentReads(g, d.segs[s], log[s], t, StaleOf(m));
    if s < |d.segs| - 1 { SegmentWhole(g, d.segs[s], log[s]); }
  }

  lemma MergedLinks(segs: seq<Segment>, log: seq<seq<Placed>>, tail: Option<Placed>, s: nat)
    requires |segs| == |log| && s < |segs|
    ensures LastBefore(segs, Merged(log, tail), s) == LastBefore(segs, log, s)
  {
    if tail.Some? { MergedLast(segs, log, tail.value); }
  }

  lemma AllRead(g: Geometry, d: Disk, log: seq<seq<Placed>>, tail: Option<Placed>, m: Meta)
    requires Chained(Held(g), d.segs, log, tail) && TailVisible(d, tail) && NotStale(m, log, tail)
    ensures forall s {:trigger SegmentHolds(g, d.segs[s], StaleOf(m), Merged(log, tail)[s])} | 0 <= s < |d.segs| ::
              SegmentHolds(g, d.segs[s], StaleOf(m), Merged(log, tail)[s])
  {
    forall s | 0 <= s < |d.segs| ensures SegmentHolds(g, d.segs[s], StaleOf(m), Merged(log, tail)[s]) {
      ReadsAt(g, d, log, tail, m, s);
    }
  }

  lemma EarlierWhole(g: Geometry, d: Disk, log: seq<seq<Placed>>, tail: Option<Placed>, m: Meta)
    requires Chained(Held(g), d.segs, log, tail) && TailVisible(d, tail) && NotStale(m, log, tail)
    ensures forall s {:trigger AllWhole(d.segs[s], Merged(log, tail)[s])} | 0 <= s < |d.segs| - 1 ::
              AllWhole(d.segs[s], Merged(log, tail)[s])
  {
    forall s | 0 <= s < |d.segs| - 1
      ensures AllWhole(d.segs[s], Merged(log, tail)[s])
    {
      ReadsAt(g, d, log, tail, m, s);
    }
  }

  lemma AllLinked(inv: SegmentInv, segs: seq<Segment>, log: seq<seq<Placed>>, tail: Option<Placed>)
    requires Chained(inv, segs, log, tail)
    ensures forall s {:trigger LastBefore(segs, Merged(log, tail), s)} | 0 <= s < |segs| ::
              segs[s].prev == LastBefore(segs, Merged(log, tail), s)
  {
    forall s | 0 <= s < |segs| ensures segs[s].prev == LastBefore(segs, Merged(log, tail), s) {
      assert segs[s].prev == LastBefore(segs, log, s);
      MergedLinks(segs, log, tail, s);
    }
  }

  lemma LogReads(g: Geometry, d: Disk, log: seq<seq<Placed>>, tail: Option<Placed>, m: Meta)
    requires Chained(Held(g), d.segs, log, tail) && TailVisible(d, tail) && NotStale(m, log, tail)
    ensures LogHolds(g, d.segs, StaleOf(m), Merged(log, tail))
  {
    AllRead(g, d, log, tail, m);
    EarlierWhole(g, d, log, tail, m);
    AllLinked(Held(g), d.segs, log, tail);
  }

  // ---- what recovery keeps ----

  /** The batch in flight as recovery keeps it. */
  function KeptTail(d: Disk, tail: Option<Placed>): Option<Placed>
    requires TailInside(d, tail)
  {
    if tail.Some? then Some(Kept(LastSegment(d), tail.value)) else None
  }

  lemma KeptSegment(g: Geometry, seg: Segment, bs: seq<Placed>, tail: Option<Placed>)
    requires SegInv(g, seg, bs, tail)
    ensures tail.Some? ==> WellFormed(tail.value) && tail.value.at + |tail.value.entries| <= |seg.slots|
    ensures KeptAll(seg, WithTail(bs, tail)) == WithTail(bs, if tail.Some? then Some(Kept(seg, tail.value)) else None)
  {
    var all := WithTail(bs, tail);
    assert tail.Some? ==> all[|bs|] == tail.value;
    forall k | 0 <= k < |bs| ensures Kept(seg, all[k]) == bs[k] {
      assert all[k] == bs[k] && Solid(seg, bs[k]);
      SolidIsWhole(seg, bs[k]);
    }
  }

  lemma KeptOf(g: Geometry, d: Disk, log: seq<seq<Placed>>, tail: Option<Placed>, s: nat)
    requires Chained(Held(g), d.segs, log, tail) && TailInside(d, tail) && s < |d.segs|
    ensures Inside(d.segs[s], Merged(log, tail)[s])
    ensures KeptAll(d.segs[s], Merged(log, tail)[s]) == Merged(log, KeptTail(d, tail))[s]
  {
    var t := TailAt(|d.segs|, s, tail);
    assert Held(g)(d.segs[s], log[s], t);
    MergedAt(log, tail, s);
    MergedAt(log, KeptTail(d, tail), s);
    KeptSegment(g, d.segs[s], log[s], t);
  }

  lemma KeptMerged(g: Geometry, d: Disk, log: seq<seq<Placed>>, tail: Option<Placed>)
    requires Chained(Held(g), d.segs, log, tail) && TailInside(d, tail)
    ensures forall s {:trigger Inside(d.segs[s], Merged(log, tail)[s])} | 0 <= s < |d.segs| :: Inside(d.segs[s], Merged(log, tail)[s])
    ensures KeptLog(d.segs, Merged(log, tail)) == Merged(log, KeptTail(d, tail))
  {
    var kept := KeptLog(d.segs, Merged(log, tail));
    forall s | 0 <= s < |d.segs|
      ensures Inside(d.segs[s], Merged(log, tail)[s]) && kept[s] == Merged(log, KeptTail(d, tail))[s]
    {
      KeptOf(g, d, log, tail, s);
    }
  }

  lemma CursorIs(g: Geometry, seg: Segment, bs: seq<Placed>)
    requires Inside(seg, bs)
    ensures var scan, kept := ScannedSegment(g, seg, bs), KeptAll(seg, bs);
            scan.persistNext == AtOf(kept, |bs|) && scan.entryNext == CursorOf(g, kept, |bs|)
  {
  }

  /** The next batch goes after what recovery kept. */
  lemma CursorsAre(g: Geometry, segs: seq<Segment>, log: seq<seq<Placed>>)
    requires |segs| == |log|
    requires forall s {:trigger Inside(segs[s], log[s])} | 0 <= s < |segs| :: Inside(segs[s], log[s])
    ensures CursorsAt(g, Cursors(Scanned(g, segs, log)), KeptLog(segs, log))
  {
    forall s | 0 <= s < |segs|
      ensures Cursors(Scanned(g, segs, log))[s]
              == (AtOf(KeptLog(segs, log)[s], |log[s]|), CursorOf(g, KeptLog(segs, log)[s], |log[s]|))
    {
      assert Inside(segs[s], log[s]);
      CursorIs(g, segs[s], log[s]);
    }
  }

  lemma KeptLast(d: Disk, log: seq<seq<Placed>>, tail: Option<Placed>)
    requires |d.segs| == |log| && TailInside(d, tail)
    ensures LastBefore(d.segs, Merged(log, KeptTail(d, tail)), |d.segs|) == LastBefore(d.segs, Merged(log, tail), |d.segs|)
  {
  }

  // ---- what recovery writes back ----

  lemma JoinLastRewrite(rs: seq<Result<Verdicts, OpenError>>)
    requires rs != [] && JoinAll(rs).Ok? && forall i | 0 <= i < |rs| - 1 :: NoRewrite(rs[i])
    ensures rs[|rs| - 1].Ok? && JoinAll(rs).value.rewrite == rs[|rs| - 1].value.rewrite
  {
    JoinNoRewrite(rs[..|rs| - 1]);
  }

  lemma JudgeOneRewrites(g: Geometry, segs: seq<Segment>, stale: Stale, log: seq<seq<Placed>>, s: nat, k: nat)
    requires LogHolds(g, segs, stale, log) && s < |segs| && k < |log[s]| && Inside(segs[s], log[s])
    ensures var r := JudgeBatch(g, segs[s], s, Scanned(g, segs, log)[s].batches[k], IsLastBatch(Scanned(g, segs, log), s, k));
            r.Ok? && r.value.rewrite == RewriteOf(segs[s], s, log[s][k], IsLastBatch(Scanned(g, segs, log), s, k))
  {
    var scans, seg, b := Scanned(g, segs, log), segs[s], log[s][k];
    assert SegmentHolds(g, seg, stale, log[s]) && Coherent(g, seg, b) && Firm(seg, b);
    var isLast := IsLastBatch(scans, s, k);
    assert isLast || Whole(seg, b) by {
      if s < |segs| - 1 { assert AllWhole(seg, log[s]); }
    }
    JudgeBatchApplies(g, seg, s, b, isLast);
  }

  lemma SolidAt(g: Geometry, d: Disk, log: seq<seq<Placed>>, tail: Option<Placed>, s: nat, k: nat)
    requires Chained(Held(g), d.segs, log, tail) && s < |d.segs| && k < |log[s]|
    ensures WellFormed(log[s][k]) && log[s][k].at + |log[s][k].entries| <= |d.segs[s].slots| && AllEvident(d.segs[s], log[s][k])
  {
    assert Held(g)(d.segs[s], log[s], TailAt(|d.segs|, s, tail));
    assert Solid(d.segs[s], log[s][k]);
  }

  /** A durable batch is not written back, */
  lemma DurableStays(g: Geometry, d: Disk, log: seq<seq<Placed>>, tail: Option<Placed>, stale: Stale, s: nat, k: nat)
    requires Chained(Held(g), d.segs, log, tail) && TailInside(d, tail) && LogHolds(g, d.segs, stale, Merged(log, tail))
    requires s < |d.segs| && k < |log[s]| && Inside(d.segs[s], Merged(log, tail)[s])
    ensures NoRewrite(BatchVerdicts(g, d.segs, Scanned(g, d.segs, Merged(log, tail)), s)[k])
  {
    MergedAt(log, tail, s);
    assert Merged(log, tail)[s][k] == log[s][k];
    SolidAt(g, d, log, tail, s, k);
    JudgeOneRewrites(g, d.segs, stale, Merged(log, tail), s, k);
  }

  /** nor is a segment without the batch in flight, */
  lemma SegmentStays(g: Geometry, d: Disk, log: seq<seq<Placed>>, tail: Option<Placed>, stale: Stale, s: nat)
    requires Chained(Held(g), d.segs, log, tail) && TailInside(d, tail) && LogHolds(g, d.segs, stale, Merged(log, tail))
    requires s < |d.segs| && Inside(d.segs[s], Merged(log, tail)[s]) && TailAt(|d.segs|, s, tail).None?
    ensures NoRewrite(JoinAll(BatchVerdicts(g, d.segs, Scanned(g, d.segs, Merged(log, tail)), s)))
  {
    var rs := BatchVerdicts(g, d.segs, Scanned(g, d.segs, Merged(log, tail)), s);
    MergedAt(log, tail, s);
    forall k | 0 <= k < |rs| ensures NoRewrite(rs[k]) {
      DurableStays(g, d, log, tail, stale, s, k);
    }
    JoinNoRewrite(rs);
  }

  lemma EarlierStay(g: Geometry, d: Disk, log: seq<seq<Placed>>, t: Placed, stale: Stale)
    requires Chained(Held(g), d.segs, log, Some(t)) && TailInside(d, Some(t)) && LogHolds(g, d.segs, stale, Merged(log, Some(t)))
    requires Inside(LastSegment(d), Merged(log, Some(t))[|d.segs| - 1])
    ensures var rs := BatchVerdicts(g, d.segs, Scanned(g, d.segs, Merged(log, Some(t))), |d.segs| - 1);
            forall k | 0 <= k < |rs| - 1 :: NoRewrite(rs[k])
  {
    var n, merged := |d.segs| - 1, Merged(log, Some(t));
    var rs := BatchVerdicts(g, d.segs, Scanned(g, d.segs, merged), n);
    assert merged[n] == log[n] + [t];
    forall k | 0 <= k < |rs| - 1 ensures NoRewrite(rs[k]) { DurableStays(g, d, log, Some(t), stale, n, k); }
  }

  /** and of the batch in flight, what recovery kept is. */
  lemma TailRewrites(g: Geometry, d: Disk, log: seq<seq<Placed>>, t: Placed, stale: Stale)
    requires Chained(Held(g), d.segs, log, Some(t)) && TailInside(d, Some(t)) && LogHolds(g, d.segs, stale, Merged(log, Some(t)))
    requires Inside(LastSegment(d), Merged(log, Some(t))[|d.segs| - 1])
    requires JoinAll(BatchVerdicts(g, d.segs, Scanned(g, d.segs, Merged(log, Some(t))), |d.segs| - 1)).Ok?
    ensures JoinAll(BatchVerdicts(g, d.segs, Scanned(g, d.segs, Merged(log, Some(t))), |d.segs| - 1)).value.rewrite
            == RewriteOf(LastSegment(d), |d.segs| - 1, t, true)
  {
    var n, merged := |d.segs| - 1, Merged(log, Some(t));
    var rs := BatchVerdicts(g, d.segs, Scanned(g, d.segs, merged), n);
    assert merged[n] == log[n] + [t];
    EarlierStay(g, d, log, t, stale);
    JudgeOneRewrites(g, d.segs, stale, merged, n, |log[n]|);
    JoinLastRewrite(rs);
  }

  function TailRewrite(d: Disk, tail: Option<Placed>): Option<Rewrite>
    requires TailInside(d, tail)
  {
    if tail.Some? then RewriteOf(LastSegment(d), |d.segs| - 1, tail.value, true) else None
  }

  lemma {:induction false} JoinOk(rs: seq<Result<Verdicts, OpenError>>, i: nat)
    requires JoinAll(rs).Ok? && i < |rs|
    ensures rs[i].Ok?
  {
    if i < |rs| - 1 {
      JoinOk(rs[..|rs| - 1], i);
    }
  }

  lemma RewriteIs(g: Geometry, d: Disk, log: seq<seq<Placed>>, tail: Option<Placed>, stale: Stale)
    requires Chained(Held(g), d.segs, log, tail) && TailInside(d, tail) && LogHolds(g, d.segs, stale, Merged(log, tail))
    requires JoinAll(SegmentVerdicts(g, d.segs, Scanned(g, d.segs, Merged(log, tail)))).Ok?
    ensures JoinAll(SegmentVerdicts(g, d.segs, Scanned(g, d.segs, Merged(log, tail)))).value.rewrite == TailRewrite(d, tail)
  {
    var rs := SegmentVerdicts(g, d.segs, Scanned(g, d.segs, Merged(log, tail)));
    KeptMerged(g, d, log, tail);
    forall s | 0 <= s < |rs| && TailAt(|d.segs|, s, tail).None? ensures NoRewrite(rs[s]) {
      assert Inside(d.segs[s], Merged(log, tail)[s]);
      SegmentStays(g, d, log, tail, stale, s);
    }
    if tail.Some? {
      JoinOk(rs, |rs| - 1);
      assert Inside(d.segs[|d.segs| - 1], Merged(log, tail)[|d.segs| - 1]);
      TailRewrites(g, d, log, tail.value, stale);
      JoinLastRewrite(rs);
    } else {
      JoinNoRewrite(rs);
    }
  }

  /** With a batch in flight, it is the last one. */
  lemma TailIsLast(g: Geometry, d: Disk, log: seq<seq<Placed>>, tail: Option<Placed>)
    requires Chained(Held(g), d.segs, log, tail) && TailInside(d, tail)
    ensures LastIsFirm(Scanned(g, d.segs, Merged(log, tail)), Merged(log, tail), tail.Some? && tail.value.firm)
  {
    if tail.Some? && tail.value.firm {
      var merged: seq<seq<Placed>>, n := Merged(log, tail), |d.segs| - 1;
      var scans := Scanned(g, d.segs, merged);
      KeptOf(g, d, log, tail, n);
      assert scans[n].batches != [];
      forall s, k {:trigger merged[s][k]} | 0 <= s < |scans| && s < |merged| && 0 <= k < |scans[s].batches| && k < |merged[s]| && IsLastBatch(scans, s, k)
        ensures merged[s][k].firm
      {
        assert s == n;
      }
    }
  }

  /** The scan refuses nothing, reports nothing corrupt, and finds the log with what it keeps of
      the batch in flight. */
  lemma ScanFindsLog(g: Geometry, d: Disk, log: seq<seq<Placed>>, tail: Option<Placed>, m: Meta)
    requires Chained(Held(g), d.segs, log, tail) && TailVisible(d, tail) && NotStale(m, log, tail)
    ensures var r, merged := ScanAll(g, d.segs, StaleOf(m)), Merged(log, KeptTail(d, tail));
            && r.Ok? && r.value.verdicts.rewrite == TailRewrite(d, tail) && r.value.verdicts.corrupt == []
            && OpsFit(r.value.verdicts.ops, LogOps(d.segs, merged))
            && r.value.lastBatch == LastBefore(d.segs, merged, |d.segs|) && CursorsAt(g, r.value.cursors, merged)
            && (tail.Some? && tail.value.firm ==> r.value.verdicts.ambiguous == [])
  {
    var firm := tail.Some? && tail.value.firm;
    LogReads(g, d, log, tail, m);
    TailIsLast(g, d, log, tail);
    ScanAllFinds(g, d.segs, StaleOf(m), Merged(log, tail), firm);
    KeptMerged(g, d, log, tail);
    CursorsAre(g, d.segs, Merged(log, tail));
    KeptLast(d, log, tail);
    RewriteIs(g, d, log, tail, StaleOf(m));
  }

  // ---- numbers ----

  /** The log's numbers grow through it. */
  lemma SegmentUpTo(g: Geometry, seg: Segment, bs: seq<Placed>, tail: Option<Placed>)
    requires SegInv(g, seg, bs, tail)
    ensures seg.prev <= LastSeqno(bs, seg.prev)
    ensures forall k {:trigger bs[k]} | 0 <= k < |bs| :: bs[k].seqno <= LastSeqno(bs, seg.prev)
    ensures tail.Some? ==> tail.value.seqno > LastSeqno(bs, seg.prev)
  {
    var all := WithTail(bs, tail);
    assert SeqnoOf(all, |bs|, seg.prev) == LastSeqno(bs, seg.prev);
    SeqnosGrow(g, seg, all, 0, |bs|);
    forall k {:trigger bs[k]} | 0 <= k < |bs| ensures bs[k].seqno <= LastSeqno(bs, seg.prev) {
      assert SeqnoOf(all, k + 1, seg.prev) == bs[k].seqno;
      SeqnosGrow(g, seg, all, k + 1, |bs|);
    }
    if tail.Some? { assert Follows(g, seg, all, |bs|); }
  }

  lemma {:induction false} LogUpTo(g: Geometry, d: Disk, log: seq<seq<Placed>>, tail: Option<Placed>, n: nat)
    requires Chained(Held(g), d.segs, log, tail) && n <= |d.segs|
    ensures forall s, k {:trigger log[s][k]} | 0 <= s < n && 0 <= k < |log[s]| :: log[s][k].seqno <= LastBefore(d.segs, log, n)
    ensures n == |d.segs| && tail.Some? ==> tail.value.seqno > LastBefore(d.segs, log, n)
  {
    if n > 0 {
      LogUpTo(g, d, log, tail, n - 1);
      assert Held(g)(d.segs[n - 1], log[n - 1], TailAt(|d.segs|, n - 1, tail));
      SegmentUpTo(g, d.segs[n - 1], log[n - 1], TailAt(|d.segs|, n - 1, tail));
      assert d.segs[n - 1].prev == LastBefore(d.segs, log, n - 1);
    }
  }
}
