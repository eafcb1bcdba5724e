/** A durable log is scarred when a put of its last batch lost its entry. Only then does the scan find
    something ambiguous in it, and no write of a later batch changes it. */
module Scars {
  import opened Format
  import opened Ops
  import opened Recover
  import opened Log
  import opened Verdict
  import opened Writes
  import opened Tail
  import opened Spec
  import opened Runs
  import opened Invariant
  import opened DiskSteps
  import opened ScanSteps

  predicate ScarAt(seg: Segment, b: Placed, i: nat) {
    i < |b.entries| == |b.live| && b.live[i] && b.entries[i].kind == Kind.Put && !EntryOk(seg, b, i)
  }

  ghost predicate ScarredBatch(seg: Segment, b: Placed) { exists i: nat :: ScarAt(seg, b, i) }

  /** Segment `s` holds the last batch of the log. */
  predicate LastAt(log: seq<seq<Placed>>, s: nat) {
    s < |log| && log[s] != [] && forall t | s < t < |log| :: log[t] == []
  }

  ghost predicate ScarredAt(segs: seq<Segment>, log: seq<seq<Placed>>, s: nat) {
    s < |segs| && LastAt(log, s) && ScarredBatch(segs[s], log[s][|log[s]| - 1])
  }

  ghost predicate Scarred(segs: seq<Segment>, log: seq<seq<Placed>>) { exists s: nat :: ScarredAt(segs, log, s) }

  // ---- what the scan makes of it ----

  predicate Quiet(r: Result<Verdicts, OpenError>) { r.Ok? && r.value.ambiguous == [] }

  lemma {:induction false} JoinQuiet(rs: seq<Result<Verdicts, OpenError>>)
    requires JoinAll(rs).Ok?
    ensures Quiet(JoinAll(rs)) <==> forall i | 0 <= i < |rs| :: Quiet(rs[i])
  {
    if rs != [] {
      JoinQuiet(rs[..|rs| - 1]);
    }
  }

  /** An entry a durable record names reads back exactly when it is there. */
  lemma EntryReads(g: Geometry, seg: Segment, b: Placed, i: nat)
    requires Coherent(g, seg, b) && i < |b.entries| && b.live[i]
    ensures IsDamaged(g, seg, Recorded(Rec(b, i)), true) <==> !EntryOk(seg, b, i)
  {
    OffGrows(b, i, |b.entries|);
    var r := Rec(b, i);
    var e := ReadEntry(g, seg, r.offset);
    if e.Some? && EntryMatches(r, e.value) { assert OwnEntry(b, r.offset, e.value); }
    if EntryOk(seg, b, i) { assert e == Some(b.entries[i]); }
  }

  lemma SlotScars(g: Geometry, seg: Segment, b: Placed, isLast: bool, i: nat)
    requires Coherent(g, seg, b) && Firm(seg, b) && AllEvident(seg, b) && i < |b.entries|
    ensures Quiet(JudgeSlot(g, seg, ScanOf(seg, b), isLast, i)) <==> !(isLast && ScarAt(seg, b, i))
  {
    assert Evident(seg, b, i) && ScanOf(seg, b).slots[i] == Recorded(Rec(b, i));
    if b.live[i] { EntryReads(g, seg, b, i); }
  }

  lemma BatchScars(g: Geometry, seg: Segment, s: nat, b: Placed, isLast: bool)
    requires Coherent(g, seg, b) && Firm(seg, b) && AllEvident(seg, b)
    ensures var r := JudgeBatch(g, seg, s, ScanOf(seg, b), isLast);
            r.Ok? && (Quiet(r) <==> !(isLast && ScarredBatch(seg, b)))
  {
    var rs := SlotVerdicts(g, seg, ScanOf(seg, b), isLast);
    forall i | 0 <= i < |b.entries| ensures Quiet(rs[i]) <==> !(isLast && ScarAt(seg, b, i)) {
      SlotScars(g, seg, b, isLast, i);
    }
    SolidIsWhole(seg, b);
    JudgeBatchApplies(g, seg, s, b, isLast);
    JoinQuiet(rs);
  }

  lemma LastIs(g: Geometry, segs: seq<Segment>, log: seq<seq<Placed>>, s: nat, k: nat)
    requires |segs| == |log| && s < |segs| && k < |log[s]|
    requires forall t {:trigger segs[t]} | 0 <= t < |segs| :: Inside(segs[t], log[t])
    ensures k < |Scanned(g, segs, log)[s].batches| == |log[s]|
    ensures IsLastBatch(Scanned(g, segs, log), s, k) <==> LastAt(log, s) && k == |log[s]| - 1
  {
    var scans := Scanned(g, segs, log);
    forall t | 0 <= t < |segs| ensures |scans[t].batches| == |log[t]| {
      assert Inside(segs[t], log[t]);
    }
    if IsLastBatch(scans, s, k) {
      forall t | s < t < |log| ensures log[t] == [] { assert scans[t].batches == []; }
    }
    if LastAt(log, s) && k == |log[s]| - 1 {
      forall t | s < t < |scans| ensures scans[t].batches == [] { assert log[t] == []; }
    }
  }

  /** Every batch of the log is durable and readable. */
  predicate Durable(g: Geometry, segs: seq<Segment>, log: seq<seq<Placed>>) {
    && |segs| == |log| && (forall t {:trigger segs[t]} | 0 <= t < |segs| :: Inside(segs[t], log[t]))
    && forall s, k {:trigger log[s][k]} | 0 <= s < |log| && 0 <= k < |log[s]| ::
         Coherent(g, segs[s], log[s][k]) && Firm(segs[s], log[s][k]) && AllEvident(segs[s], log[s][k])
  }

  lemma VerdictScars(g: Geometry, segs: seq<Segment>, log: seq<seq<Placed>>, s: nat, k: nat)
    requires Durable(g, segs, log) && s < |segs| && k < |log[s]|
    ensures var rs := BatchVerdicts(g, segs, Scanned(g, segs, log), s);
            |rs| == |log[s]| && (Quiet(rs[k]) <==> !(LastAt(log, s) && k == |log[s]| - 1 && ScarredBatch(segs[s], log[s][k])))
  {
    assert Inside(segs[s], log[s]) && Coherent(g, segs[s], log[s][k]);
    LastIs(g, segs, log, s, k);
    BatchScars(g, segs[s], s, log[s][k], IsLastBatch(Scanned(g, segs, log), s, k));
  }

  lemma SegmentScars(g: Geometry, segs: seq<Segment>, log: seq<seq<Placed>>, s: nat)
    requires Durable(g, segs, log) && s < |segs| && JoinAll(BatchVerdicts(g, segs, Scanned(g, segs, log), s)).Ok?
    ensures Quiet(JoinAll(BatchVerdicts(g, segs, Scanned(g, segs, log), s))) <==> !ScarredAt(segs, log, s)
  {
    var rs := BatchVerdicts(g, segs, Scanned(g, segs, log), s);
    assert Inside(segs[s], log[s]) && |rs| == |log[s]|;
    forall k | 0 <= k < |rs|
      ensures Quiet(rs[k]) <==> !(LastAt(log, s) && k == |log[s]| - 1 && ScarredBatch(segs[s], log[s][k]))
    {
      VerdictScars(g, segs, log, s, k);
    }
    JoinQuiet(rs);
  }

  lemma LogScars(g: Geometry, segs: seq<Segment>, log: seq<seq<Placed>>)
    requires Durable(g, segs, log) && JoinAll(SegmentVerdicts(g, segs, Scanned(g, segs, log))).Ok?
    ensures Quiet(JoinAll(SegmentVerdicts(g, segs, Scanned(g, segs, log)))) <==> !Scarred(segs, log)
  {
    var rs := SegmentVerdicts(g, segs, Scanned(g, segs, log));
    forall s | 0 <= s < |rs| ensures Quiet(rs[s]) <==> !ScarredAt(segs, log, s) {
      JoinOk(rs, s);
      SegmentScars(g, segs, log, s);
    }
    JoinQuiet(rs);
  }

  lemma ChainedIsDurable(g: Geometry, d: Disk, log: seq<seq<Placed>>)
    requires Chained(Held(g), d.segs, log, None)
    ensures Durable(g, d.segs, log)
  {
    forall t {:trigger d.segs[t]} | 0 <= t < |d.segs| ensures Inside(d.segs[t], log[t]) {
      assert Held(g)(d.segs[t], log[t], TailAt(|d.segs|, t, None));
    }
    forall s, k {:trigger log[s][k]} | 0 <= s < |log| && 0 <= k < |log[s]|
      ensures Coherent(g, d.segs[s], log[s][k]) && Firm(d.segs[s], log[s][k]) && AllEvident(d.segs[s], log[s][k])
    {
      assert Held(g)(d.segs[s], log[s], TailAt(|d.segs|, s, None));
      assert Solid(d.segs[s], log[s][k]) && Coherent(g, d.segs[s], log[s][k]);
    }
  }

  /** With nothing of a later batch on disk, the scan finds something ambiguous exactly when the log is
      scarred. */
  lemma ScanScars(g: Geometry, d: Disk, log: seq<seq<Placed>>, m: Meta)
    requires Chained(Held(g), d.segs, log, None) && NotStale(m, log, None)
    ensures var r := ScanAll(g, d.segs, StaleOf(m)); r.Ok? && (r.value.verdicts.ambiguous == [] <==> !Scarred(d.segs, log))
  {
    LogReads(g, d, log, None, m);
    ScanAllFinds(g, d.segs, StaleOf(m), log, false);
    ChainedIsDurable(g, d, log);
    LogScars(g, d.segs, log);
  }

  // ---- what later writes make of it ----

  predicate SameEntries(seg: Segment, now: Segment, b: Placed) {
    forall i | 0 <= i < |b.entries| == |b.live| && b.live[i] :: EntryOk(now, b, i) <==> EntryOk(seg, b, i)
  }

  lemma SameScars(seg: Segment, now: Segment, b: Placed)
    requires SameEntries(seg, now, b)
    ensures ScarredBatch(now, b) <==> ScarredBatch(seg, b)
  {
    forall i: nat ensures ScarAt(now, b, i) <==> ScarAt(seg, b, i) {
    }
  }

  /** Writing a batch's entries, whole or torn, leaves the live entries before them alone. */
  lemma TornEntriesApart(g: Geometry, seg: Segment, bs: seq<Placed>, t: Placed, torn: Segment)
    requires SegInv(g, seg, bs, Some(t)) && TornEntries(seg, t, torn) && bs != []
    ensures SameEntries(seg, torn, bs[|bs| - 1])
  {
    var all, n, b := bs + [t], |bs| - 1, bs[|bs| - 1];
    assert all[n] == b && all[|bs|] == t && Coherent(g, seg, all[n]) && Coherent(g, seg, t);
    BeforeLast(g, seg, all, n);
    SeqnoBelowLast(g, seg, all, n);
    LiveEndBounds(b, |b.entries|);
    forall i | 0 <= i < |b.entries| && b.live[i] ensures EntryOk(torn, b, i) <==> EntryOk(seg, b, i) {
      TornEntryStays(seg, t, torn, b, i);
    }
  }

  lemma EqualEntries(seg: Segment, now: Segment, b: Placed)
    requires now.entries == seg.entries
    ensures SameEntries(seg, now, b)
  {
    forall i | 0 <= i < |b.entries| == |b.live| ensures EntryOk(now, b, i) <==> EntryOk(seg, b, i) {
    }
  }

  /** The active segment changed, and the last batch in it kept its entries. */
  predicate Rewritten(segs: seq<Segment>, log: seq<seq<Placed>>, segs': seq<Segment>) {
    && |segs'| == |segs| == |log| > 0 && var n := |segs| - 1;
    && segs'[..n] == segs[..n] && (log[n] != [] ==> SameEntries(segs[n], segs'[n], log[n][|log[n]| - 1]))
  }

  lemma RewrittenScars(segs: seq<Segment>, log: seq<seq<Placed>>, segs': seq<Segment>)
    requires Rewritten(segs, log, segs')
    ensures Scarred(segs', log) <==> Scarred(segs, log)
  {
    var n := |segs| - 1;
    if log[n] != [] { SameScars(segs[n], segs'[n], log[n][|log[n]| - 1]); }
    forall s: nat ensures ScarredAt(segs', log, s) <==> ScarredAt(segs, log, s) {
      if s < n { assert segs'[..n][s] == segs[..n][s]; }
    }
  }

  lemma GrownScars(segs: seq<Segment>, log: seq<seq<Placed>>, seg: Segment)
    requires |segs| == |log|
    ensures Scarred(segs + [seg], log + [[]]) <==> Scarred(segs, log)
  {
    forall s: nat ensures ScarredAt(segs + [seg], log + [[]], s) <==> ScarredAt(segs, log, s) {
      assert s < |log| ==> (log + [[]])[s] == log[s] && (segs + [seg])[s] == segs[s];
      if LastAt(log + [[]], s) {
        forall t | s < t < |log| ensures log[t] == [] { assert (log + [[]])[t] == []; }
      }
    }
  }
}
