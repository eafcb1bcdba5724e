/** What the verdicts call damaged: on any disk, exactly the puts whose entry does not read back; on
    the disk of a journal, only puts of a batched commit that a crash cut. */
module Damage {
  import opened Format
  import opened Ops
  import opened Recover
  import opened Log
  import opened Verdict
  import opened Writes
  import opened Tail
  import opened Spec
  import opened Runs
  import opened Invariant
  import opened DiskSteps
  import opened MemSteps
  import opened ScanSteps

  // ---- the lists are the damaged puts ----

  function DamagedPut(op: Op<Located>, ordered: bool): seq<(nat, nat)> {
    if op.Put? && op.value.damaged && op.value.ordered == ordered then [(op.position, op.value.id)] else []
  }

  /** The damaged puts of ordered commits, or of batched ones, in the log's order. */
  function DamagedPuts(ops: seq<Op<Located>>, ordered: bool): seq<(nat, nat)> {
    if ops == [] then [] else DamagedPuts(ops[..|ops| - 1], ordered) + DamagedPut(ops[|ops| - 1], ordered)
  }

  lemma {:induction false} DamagedConcat(xs: seq<Op<Located>>, ys: seq<Op<Located>>, ordered: bool)
    ensures DamagedPuts(xs + ys, ordered) == DamagedPuts(xs, ordered) + DamagedPuts(ys, ordered)
    decreases |ys|
  {
    if ys == [] {
      assert xs + ys == xs;
    } else {
      assert (xs + ys)[..|xs + ys| - 1] == xs + ys[..|ys| - 1];
      DamagedConcat(xs, ys[..|ys| - 1], ordered);
    }
  }

  lemma {:induction false} DamagedIs(ops: seq<Op<Located>>, ordered: bool, x: (nat, nat)) returns (k: nat)
    requires x in DamagedPuts(ops, ordered)
    ensures k < |ops| && ops[k].Put? && ops[k].value.damaged && x == (ops[k].position, ops[k].value.id)
  {
    var n := |ops| - 1;
    if x in DamagedPuts(ops[..n], ordered) { k := DamagedIs(ops[..n], ordered, x); } else { k := n; }
  }

  /** What is called corrupt or ambiguous is what reads damaged. */
  predicate Names(v: Verdicts) { v.corrupt == DamagedPuts(v.ops, true) && v.ambiguous == DamagedPuts(v.ops, false) }

  predicate NamesIt(r: Result<Verdicts, OpenError>) { r.Ok? ==> Names(r.value) }

  lemma JoinNames(a: Verdicts, b: Verdicts)
    requires Names(a) && Names(b)
    ensures Names(Join(a, b))
  {
    DamagedConcat(a.ops, b.ops, true);
    DamagedConcat(a.ops, b.ops, false);
  }

  lemma {:induction false} JoinAllNames(rs: seq<Result<Verdicts, OpenError>>)
    requires forall i | 0 <= i < |rs| :: NamesIt(rs[i])
    ensures NamesIt(JoinAll(rs))
  {
    if rs != [] {
      var n := |rs| - 1;
      JoinAllNames(rs[..n]);
      if JoinAll(rs[..n]).Ok? && rs[n].Ok? { JoinNames(JoinAll(rs[..n]).value, rs[n].value); }
    }
  }

  lemma SlotNames(g: Geometry, seg: Segment, b: BatchScan, isLast: bool, i: nat)
    requires i < |b.slots|
    ensures NamesIt(JudgeSlot(g, seg, b, isLast, i))
  {
  }

  lemma BatchNames(g: Geometry, seg: Segment, s: nat, b: BatchScan, isLast: bool)
    ensures NamesIt(JudgeBatch(g, seg, s, b, isLast))
  {
    var rs := SlotVerdicts(g, seg, b, isLast);
    forall i | 0 <= i < |rs| ensures NamesIt(rs[i]) { SlotNames(g, seg, b, isLast, i); }
    JoinAllNames(rs);
  }

  lemma SegmentNames(g: Geometry, segs: seq<Segment>, scans: seq<SegmentScan>, s: nat)
    requires |segs| == |scans| && s < |scans|
    ensures NamesIt(JoinAll(BatchVerdicts(g, segs, scans, s)))
  {
    var rs := BatchVerdicts(g, segs, scans, s);
    forall k | 0 <= k < |rs| ensures NamesIt(rs[k]) {
      BatchNames(g, segs[s], s, scans[s].batches[k], IsLastBatch(scans, s, k));
    }
    JoinAllNames(rs);
  }

  /** On any disk at all, the scan calls corrupt exactly the damaged puts of ordered commits, and
      ambiguous exactly those of batched ones. */
  lemma ScanNames(g: Geometry, segs: seq<Segment>, stale: Stale)
    ensures var r := ScanAll(g, segs, stale); r.Ok? ==> Names(r.value.verdicts)
  {
    var pass1 := ScanSegments(g, segs, stale, if segs == [] then 0 else segs[0].prev);
    if pass1.Ok? {
      var rs := SegmentVerdicts(g, segs, pass1.value.0);
      forall s | 0 <= s < |rs| ensures NamesIt(rs[s]) { SegmentNames(g, segs, pass1.value.0, s); }
      JoinAllNames(rs);
    }
  }

  // ---- only soft cells are damaged ----

  /** A put of that identity at that position, from a batched commit that a crash cut. */
  predicate SoftPut(ops: seq<Op<Cell>>, x: (nat, nat)) {
    exists k | 0 <= k < |ops| :: ops[k].Put? && ops[k].position == x.0 && ops[k].value.id == x.1 && ops[k].value.soft
  }

  /** A put of that identity at that position in a batched commit. */
  predicate BatchedPut(f: Flight, x: (nat, nat)) {
    !f.ordered && exists k | 0 <= k < |f.ops| :: f.ops[k].Put? && f.ops[k].position == x.0 && f.ops[k].value.id == x.1
  }

  predicate MayBeDamaged(a: Abs, x: (nat, nat)) { SoftPut(a.hist, x) || (a.flight.Some? && BatchedPut(a.flight.value, x)) }

  lemma BatchPut(first: nat, b: Placed, op: Op<Item>) returns (i: nat)
    requires WellFormed(b) && op in BatchOps(first, b) && op.Put?
    ensures i < |b.entries| && b.live[i] && EntryOp(b.entries[i]).Put? && EntryOp(b.entries[i]).position == op.position
    ensures op.value.at.id == op.value.cell.id == EntryOp(b.entries[i]).value.id && op.value.cell.soft == !b.firm
  {
    i := ConcatMember(seq(|b.entries|, i requires 0 <= i < |b.entries| => OpAt(first, b, i)), op);
  }

  lemma SegmentPut(first: nat, bs: seq<Placed>, op: Op<Item>)
    requires op in SegmentOps(first, bs) && op.Put?
    ensures op.value.at.id == op.value.cell.id
  {
    var k := ConcatMember(seq(|bs|, k requires 0 <= k < |bs| => if WellFormed(bs[k]) then BatchOps(first, bs[k]) else []), op);
    var i := BatchPut(first, bs[k], op);
  }

  lemma LogPut(segs: seq<Segment>, log: seq<seq<Placed>>, op: Op<Item>)
    requires |segs| == |log| && op in LogOps(segs, log) && op.Put?
    ensures op.value.at.id == op.value.cell.id
  {
    var s := ConcatMember(seq(|segs|, s requires 0 <= s < |segs| => SegmentOps(segs[s].first, log[s])), op);
    SegmentPut(segs[s].first, log[s], op);
  }

  /** A soft put of the durable log is one of the history. */
  lemma LogIsSoft(segs: seq<Segment>, w: Witness, op: Op<Item>)
    requires |segs| == |w.log| && EndsWith(w.abs.hist, CellOps(segs, w.log)) && op in LogOps(segs, w.log) && op.Put? && op.value.cell.soft
    ensures SoftPut(w.abs.hist, (op.position, op.value.at.id))
  {
    LogPut(segs, w.log, op);
    var ops := LogOps(segs, w.log);
    var k :| 0 <= k < |ops| && ops[k] == op;
    assert CellOps(segs, w.log)[k] == MapOp(CellOfItem, op);
    assert w.abs.hist[|w.abs.hist| - |ops| + k] == MapOp(CellOfItem, op);
  }

  lemma TailIsBatched(d: Disk, w: Witness, op: Op<Item>)
    requires TailInside(d, w.tail) && Pending(w.abs, w.tail) && op in TailOps(d, w.tail) && op.Put? && op.value.cell.soft
    ensures w.abs.flight.Some? && BatchedPut(w.abs.flight.value, (op.position, op.value.at.id))
  {
    var i := BatchPut(LastSegment(d).first, w.tail.value, op);
    assert w.abs.flight.value.ops[i] == EntryOp(w.tail.value.entries[i]);
  }

  lemma SoftMayBeDamaged(d: Disk, w: Witness, op: Op<Item>)
    requires Stands(d, w) && op in LogOps(d.segs, Merged(w.log, w.tail)) && op.Put? && op.value.cell.soft
    ensures MayBeDamaged(w.abs, (op.position, op.value.at.id))
  {
    TailOpsMerge(d, w.log, w.tail);
    if op in LogOps(d.segs, w.log) { LogIsSoft(d.segs, w, op); } else { TailIsBatched(d, w, op); }
  }

  /** Whatever the scan of a journal's disk calls ambiguous, a crash cut it in a batched commit. */
  lemma AmbiguousMayBe(g: Geometry, d: Disk, w: Witness, scan: Scan, x: (nat, nat))
    requires Stands(d, w) && ScanOk(g, d, w, scan) && Names(scan.verdicts) && x in scan.verdicts.ambiguous
    ensures MayBeDamaged(w.abs, x)
  {
    var k := DamagedIs(scan.verdicts.ops, false, x);
    var of := LogOps(d.segs, Merged(w.log, w.tail));
    assert OpFits(scan.verdicts.ops[k], of[k]);
    SoftMayBeDamaged(d, w, of[k]);
  }
}
