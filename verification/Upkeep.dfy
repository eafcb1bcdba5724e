/** What the journal does beside its callers' writes: segments it no longer needs go, one spare is kept for
    the next roll, and the metainfo names the end of the log. */
module Upkeep {
  import opened Format
  import opened Ops
  import opened Recover
  import opened Log
  import opened Verdict
  import opened Spec
  import opened Runs
  import opened Invariant
  import opened DiskSteps
  import opened ScanSteps
  import opened Refinement
  import opened Guarantees
  import opened Ambiguity

  // ---- dead segments ----

  /** The front segment holds a value that can be read, or it is the only one. */
  ghost predicate FrontIsNeeded(s: State) {
    |s.disk.segs| <= 1 || exists p: nat {:trigger s.mem.index[p]} :: p in s.mem.index && s.mem.index[p].segment == s.disk.segs[0].first
  }

  lemma SweptIsNeeded(g: Geometry, s: State, s': State)
    requires Next(g, s, s') && s'.pc == Ready && |s'.mem.cursors| == |s'.disk.segs|
    ensures FrontIsNeeded(s')
  {
    assert SweptStep(s, s');
    if |s'.disk.segs| > 1 {
      assert !IsDead(s'.mem, s'.disk.segs[0].first);
      var p :| p in s'.mem.index && s'.mem.index[p].segment == s'.disk.segs[0].first;
      assert s'.mem.index[p].segment == s'.disk.segs[0].first;
    }
  }

  /** Whenever a run leaves the journal open, no segment in front is kept for nothing. */
  lemma RunIsSwept(g: Geometry, run: seq<State>)
    requires g.Valid() && Run(g, run) && run[|run| - 1].pc == Ready
    ensures FrontIsNeeded(run[|run| - 1])
  {
    var w := WitnessOf(g, run);
    if |run| > 1 {
      assert Step(g, run, |run| - 2);
      SweptIsNeeded(g, run[|run| - 2], run[|run| - 1]);
    }
  }

  // ---- the spare ----

  /** A file goes by its header copies: it may be a second name of a segment they name. */
  predicate MayBe(spare: Spare, first: nat) {
    match spare
    case Own(a, b, _, _) => a == Names(first) || b == Names(first)
    case Alias(f) => f == first
  }

  predicate IsFree(spare: Spare, segs: seq<Segment>) { forall s | 0 <= s < |segs| :: !MayBe(spare, segs[s].first) }

  lemma FreeIs(spare: Spare, d: Disk)
    ensures NamedBatches(spare) * Firsts(d) == {} <==> IsFree(spare, d.segs)
  {
    if NamedBatches(spare) * Firsts(d) != {} {
      var f :| f in NamedBatches(spare) * Firsts(d);
      var s :| 0 <= s < |d.segs| && d.segs[s].first == f;
      assert MayBe(spare, d.segs[s].first);
    } else {
      forall s | 0 <= s < |d.segs| ensures !MayBe(spare, d.segs[s].first) {
        var f := d.segs[s].first;
        assert f in Firsts(d) && f !in NamedBatches(spare) * Firsts(d);
      }
    }
  }

  /** Open keeps exactly the first spare that is no second name of a listed segment, and none only when
      every spare may be one. */
  lemma {:induction false} KeepsFirstFree(d: Disk, spares: seq<Spare>) returns (k: nat)
    ensures k <= |spares| && forall i | 0 <= i < k :: !IsFree(spares[i], d.segs)
    ensures KeepOneSpare(spares, Firsts(d)) == if k < |spares| then [spares[k]] else []
    ensures k < |spares| ==> IsFree(spares[k], d.segs)
  {
    k := 0;
    if spares != [] {
      FreeIs(spares[0], d);
      if !IsFree(spares[0], d.segs) {
        var n := KeepsFirstFree(d, spares[1..]);
        k := n + 1;
        assert forall i | 1 <= i < k :: spares[i] == spares[1..][i - 1];
      }
    }
  }

  lemma PickedFirstFree(g: Geometry, s: State, s': State) returns (k: nat)
    requires PickStep(s, s')
    ensures k <= |s.disk.spares| && forall i | 0 <= i < k :: !IsFree(s.disk.spares[i], s.disk.segs)
    ensures s'.disk == s.disk.(spares := if k < |s.disk.spares| then [s.disk.spares[k]] else [])
    ensures k < |s.disk.spares| ==> IsFree(s.disk.spares[k], s.disk.segs)
  {
    k := KeepsFirstFree(s.disk, s.disk.spares);
  }

  /** A removed segment's file is kept for the next roll unless one is kept already, so a roll after a
      removal never creates a file. */
  lemma RemovedIsKept(g: Geometry, run: seq<State>, i: nat)
    requires g.Valid() && Run(g, run) && i + 1 < |run| && RemoveStep(run[i], run[i + 1])
    ensures |run[i + 1].disk.spares| == 1 && run[i + 1].disk.spares[0].Own?
    ensures run[i].disk.spares == [] ==>
              var spare, seg := run[i + 1].disk.spares[0], run[i].disk.segs[0];
              spare.slots == seg.slots && spare.entries == seg.entries && MayBe(spare, seg.first)
    ensures run[i].disk.spares != [] ==> run[i + 1].disk.spares == run[i].disk.spares
    ensures run[i + 1].disk.segs == run[i].disk.segs[1..]
  {
    var ws := RunWitnessed(g, run);
    assert InvAt(g, run, ws, i);
  }

  // ---- the metainfo names the end of the log ----

  lemma GenerationNames(g: Geometry, s: State, w: Witness, s': State)
    requires Inv(g, s, w) && GenerationBStep(s, s')
    ensures s.disk.b.Copy?
    ensures var m, was := s'.mem.meta, s.disk.b.meta;
            && m.lastBatch == m.openLast == s'.mem.lastBatch && m.generation == was.generation + 1 && m.seqno == was.seqno + 1
            && m.floor == was.floor && m.bytes == was.bytes && BothCopies(s'.disk, m)
  {
  }

  /** An open's metainfo, once it is in force: of the next generation, and naming the last batch the open
      found both as its last one and as the end of what earlier generations wrote. */
  lemma OpenNamesLast(g: Geometry, run: seq<State>, i: nat)
    requires g.Valid() && Run(g, run) && i + 1 < |run| && GenerationBStep(run[i], run[i + 1])
    ensures run[i].disk.b.Copy?
    ensures var m, was := run[i + 1].mem.meta, run[i].disk.b.meta;
            && m.lastBatch == m.openLast == run[i + 1].mem.lastBatch && m.generation == was.generation + 1 && m.seqno == was.seqno + 1
            && m.floor == was.floor && m.bytes == was.bytes && BothCopies(run[i + 1].disk, m)
  {
    var ws := RunWitnessed(g, run);
    assert InvAt(g, run, ws, i);
    GenerationNames(g, run[i], ws[i], run[i + 1]);
  }

  /** A commit's metainfo names the last batch that a scan of the disk it begins on finds. */
  lemma CommitNamesLast(g: Geometry, run: seq<State>, s': State, batch: Batch, plan: Plan)
    requires g.Valid() && Run(g, run) && BeginStep(g, run[|run| - 1], s', batch, plan) && plan.meta.Some?
    ensures var s, m := run[|run| - 1], plan.meta.value;
            && ScanBy(g, s.disk, s.mem.meta).Ok? && m.lastBatch == ScanBy(g, s.disk, s.mem.meta).value.lastBatch
            && m.seqno == s.mem.meta.seqno + 1 && m.generation == s.mem.meta.generation && m.openLast == s.mem.meta.openLast
  {
    var w := WitnessOf(g, run);
    ReadyFindsLast(g, run[|run| - 1], w);
  }

  lemma ReadyFindsLast(g: Geometry, s: State, w: Witness)
    requires Inv(g, s, w) && s.pc.Ready?
    ensures ScanBy(g, s.disk, s.mem.meta).Ok? && ScanBy(g, s.disk, s.mem.meta).value.lastBatch == s.mem.lastBatch
  {
    assert w.tail == None;
    ScanFindsLog(g, s.disk, w.log, None, s.mem.meta);
  }
}
