/** Batch numbers over whole runs: each batch takes a number above every number taken before it,
    whether that batch was committed, cut by a crash, removed with its segment or never written. */
module Numbering {
  import opened Format
  import opened Recover
  import opened Log
  import opened Writes
  import opened Runs
  import opened Invariant
  import opened Begin
  import opened Refinement
  import opened Guarantees

  // ---- what a state knows of a number taken before ----

  predicate IsOpen(pc: Pc) {
    || pc.Ready? || pc.Sweep? || pc.Roll? || pc.RollRename? || pc.PutEntries? || pc.PutRecords? || pc.PutBoth?
    || pc.MetaA? || pc.MetaB?
  }

  /** The highest number taken in this generation: the batch under way, else the last one. */
  function Taken(s: State): nat {
    match s.pc
    case Roll(plan) => plan.seqno
    case RollRename(plan) => plan.seqno
    case PutEntries(c) => if c.batch.Some? then c.batch.value.seqno else s.mem.lastBatch
    case PutRecords(c) => if c.batch.Some? then c.batch.value.seqno else s.mem.lastBatch
    case PutBoth(c) => if c.batch.Some? then c.batch.value.seqno else s.mem.lastBatch
    case MetaA(c) => if c.batch.Some? then c.batch.value.seqno else s.mem.lastBatch
    case MetaB(c) => if c.batch.Some? then c.batch.value.seqno else s.mem.lastBatch
    case _ => s.mem.lastBatch
  }

  predicate CopyKnows(c: MetaCell, n: nat) { c.Copy? ==> GenerationOf(n) <= c.meta.generation }

  /** No readable copy is of a generation before the number's, and an open journal has taken it or is
      of a later generation. */
  predicate Knows(s: State, n: nat) {
    && CopyKnows(s.disk.a, n) && CopyKnows(s.disk.b, n)
    && (IsOpen(s.pc) ==> NumberOk(n, s.mem.meta.generation, Taken(s)))
  }

  /** The generations in play, as every reachable state has them. */
  predicate Generations(s: State) {
    && (IsOpen(s.pc) ==>
          && 1 <= s.mem.meta.generation < 0x100_0000 && GenerationOf(s.mem.lastBatch) <= s.mem.meta.generation
          && s.disk.b == Copy(s.mem.meta) && s.mem.lastBatch <= Taken(s))
    && match s.pc {
         case MetaA(c) => c.meta.Some? ==> c.meta.value.generation == s.mem.meta.generation
         case MetaB(c) => c.meta.Some? ==> c.meta.value.generation == s.mem.meta.generation
         case RepairMeta(m, which) => which.A? ==> s.disk.b == Copy(m)
         case GenerationA(m, _) => s.disk.a.Copy? && m.generation == s.disk.a.meta.generation + 1
         case GenerationB(m, _) => s.disk.b.Copy? && m.generation == s.disk.b.meta.generation + 1
         case _ => true
       }
    && (s.pc.RepairMeta? && s.pc.which.B? ==> s.disk.a == Copy(s.pc.meta))
  }

  lemma InvGenerations(g: Geometry, s: State, w: Witness)
    requires Inv(g, s, w)
    ensures Generations(s)
  {
    if IsOpen(s.pc) {
      var generation, last := s.mem.meta.generation, s.mem.lastBatch;
      assert s.disk.b == Copy(s.mem.meta) && MetaOk(s.mem.meta, s.disk, w);
      LowerGeneration(last, Highest(s.mem, w.tail));
      if s.pc.Roll? || s.pc.RollRename? { NextBatchGrows(generation, last, last); }
    }
  }

  lemma LowerGeneration(n: nat, m: nat)
    ensures n <= m ==> GenerationOf(n) <= GenerationOf(m)
  {
    if n <= m { assert n / PER_GENERATION <= m / PER_GENERATION; }
  }

  // ---- one step ----

  lemma BeginKnows(g: Geometry, s: State, s': State, batch: Batch, plan: Plan, n: nat)
    requires BeginStep(g, s, s', batch, plan) && Generations(s) && Knows(s, n)
    ensures n < plan.seqno && Knows(s', n)
  {
    NextBatchGrows(s.mem.meta.generation, s.mem.lastBatch, n);
  }

  /** From its beginning on, a batch's number is known. */
  lemma BeginTakes(g: Geometry, s: State, w: Witness, s': State, batch: Batch, plan: Plan)
    requires BeginStep(g, s, s', batch, plan) && Inv(g, s, w) && batch.writes != []
    ensures Knows(s', plan.seqno)
  {
  }

  lemma WriteKnows(g: Geometry, s: State, s': State, n: nat)
    requires CreateStep(g, s, s') || AdoptStep(s, s') || RenameStep(g, s, s') || EntriesStep(s, s') || RecordsStep(s, s') || BothStep(s, s')
    requires Generations(s) && Knows(s, n)
    ensures Knows(s', n)
  {
  }

  lemma MetaKnows(s: State, s': State, n: nat)
    requires MetaAStep(s, s') || MetaBStep(s, s') || NoMetaStep(s, s') || RemoveStep(s, s') || SweptStep(s, s')
    requires Generations(s) && Knows(s, n)
    ensures Knows(s', n)
  {
  }

  lemma OpenKnows(g: Geometry, s: State, s': State, n: nat)
    requires OpenNext(g, s, s') && Generations(s) && Knows(s, n)
    ensures Knows(s', n)
  {
  }

  lemma CrashKnows(s: State, s': State, n: nat)
    requires CrashStep(s, s') && Generations(s) && Knows(s, n)
    ensures Knows(s', n)
  {
  }

  lemma NextKnows(g: Geometry, s: State, s': State, n: nat)
    requires Next(g, s, s') && Generations(s) && Knows(s, n)
    ensures Knows(s', n)
  {
    if OpenNext(g, s, s') { OpenKnows(g, s, s', n); }
    else if CrashStep(s, s') { CrashKnows(s, s', n); }
    else if batch, plan :| BeginStep(g, s, s', batch, plan) { BeginKnows(g, s, s', batch, plan, n); }
    else if MetaAStep(s, s') || MetaBStep(s, s') || NoMetaStep(s, s') || RemoveStep(s, s') || SweptStep(s, s') { MetaKnows(s, s', n); }
    else { WriteKnows(g, s, s', n); }
  }

  // ---- whole runs ----

  lemma GenerationsAt(g: Geometry, run: seq<State>, ws: seq<Witness>, i: nat)
    requires Witnessed(g, run, ws) && i < |run|
    ensures Generations(run[i])
  {
    assert InvAt(g, run, ws, i);
    InvGenerations(g, run[i], ws[i]);
  }

  lemma {:induction false} StaysKnown(g: Geometry, run: seq<State>, ws: seq<Witness>, i: nat, j: nat, n: nat)
    requires Run(g, run) && Witnessed(g, run, ws) && i <= j < |run| && Knows(run[i], n)
    ensures Knows(run[j], n)
    decreases j - i
  {
    if i < j {
      StaysKnown(g, run, ws, i, j - 1, n);
      assert Step(g, run, j - 1);
      GenerationsAt(g, run, ws, j - 1);
      NextKnows(g, run[j - 1], run[j], n);
    }
  }

  lemma TakenAt(g: Geometry, run: seq<State>, ws: seq<Witness>, i: nat, batch: Batch, plan: Plan)
    requires Witnessed(g, run, ws) && i + 1 < |run| && BeginStep(g, run[i], run[i + 1], batch, plan) && batch.writes != []
    ensures Knows(run[i + 1], plan.seqno)
  {
    assert InvAt(g, run, ws, i);
    BeginTakes(g, run[i], ws[i], run[i + 1], batch, plan);
  }

  /** No number is ever taken twice: along any run, through any crashes and opens, a batch's number is
      above the number of every batch begun before it. */
  lemma NumbersGrow(g: Geometry, run: seq<State>, i: nat, j: nat, batch: Batch, plan: Plan, batch': Batch, plan': Plan)
    requires g.Valid() && Run(g, run) && i < j < |run| - 1
    requires BeginStep(g, run[i], run[i + 1], batch, plan) && batch.writes != []
    requires BeginStep(g, run[j], run[j + 1], batch', plan')
    ensures plan.seqno < plan'.seqno
  {
    var ws := RunWitnessed(g, run);
    TakenAt(g, run, ws, i, batch, plan);
    StaysKnown(g, run, ws, i + 1, j, plan.seqno);
    GenerationsAt(g, run, ws, j);
    BeginKnows(g, run[j], run[j + 1], batch', plan', plan.seqno);
  }

  // ---- the numbers on disk ----

  /** The number an accepted batch takes is above every number anywhere on disk. */
  lemma NumberIsNew(g: Geometry, s: State, w: Witness, s': State, batch: Batch, plan: Plan)
    requires Inv(g, s, w) && BeginStep(g, s, s', batch, plan)
    ensures forall i {:trigger s.disk.segs[i]} | 0 <= i < |s.disk.segs| ::
              Below(s.disk.segs[i], plan.seqno) && s.disk.segs[i].first < plan.seqno
    ensures forall i {:trigger s.disk.spares[i]} | 0 <= i < |s.disk.spares| && s.disk.spares[i].Own? ::
              Below(Segment(plan.seqno, 0, s.disk.spares[i].slots, s.disk.spares[i].entries), plan.seqno)
  {
    var generation, last := s.mem.meta.generation, s.mem.lastBatch;
    forall i {:trigger s.disk.segs[i]} | 0 <= i < |s.disk.segs|
      ensures Below(s.disk.segs[i], plan.seqno) && s.disk.segs[i].first < plan.seqno
    {
      SegmentBelow(s.disk.segs[i], generation, last);
    }
    forall i {:trigger s.disk.spares[i]} | 0 <= i < |s.disk.spares| && s.disk.spares[i].Own?
      ensures Below(Segment(plan.seqno, 0, s.disk.spares[i].slots, s.disk.spares[i].entries), plan.seqno)
    {
      CellsBelow(s.disk.spares[i].slots, s.disk.spares[i].entries, generation, last);
    }
  }

  lemma RunNumbers(g: Geometry, run: seq<State>, s': State, batch: Batch, plan: Plan)
    requires g.Valid() && Run(g, run) && BeginStep(g, run[|run| - 1], s', batch, plan)
    ensures var d := run[|run| - 1].disk;
            && (forall i {:trigger d.segs[i]} | 0 <= i < |d.segs| :: Below(d.segs[i], plan.seqno) && d.segs[i].first < plan.seqno)
            && (forall i {:trigger d.spares[i]} | 0 <= i < |d.spares| && d.spares[i].Own? ::
                  Below(Segment(plan.seqno, 0, d.spares[i].slots, d.spares[i].entries), plan.seqno))
  {
    var w := WitnessOf(g, run);
    NumberIsNew(g, run[|run| - 1], w, s', batch, plan);
  }

}
