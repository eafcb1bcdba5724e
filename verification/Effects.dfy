/** What a commit does to what a caller reads, position by position, and what a crash may leave of it. */
module Effects {
  import opened Format
  import opened Ops
  import opened Recover
  import opened Log
  import opened Verdict
  import opened Spec
  import opened Runs
  import opened Invariant
  import opened MemSteps
  import opened Begin
  import opened Refinement

  // ---- contents ----

  /** A position holds what the last write that touches it put there, unless it lies below the floor. */
  lemma ContentsAre(a: Abs, p: nat)
    ensures p in Contents(a) <==> p >= a.floor && exists k: nat :: Decides(a.hist, k, p) && a.hist[k].Put?
    ensures p in Contents(a) ==> forall k: nat {:trigger a.hist[k]} | Decides(a.hist, k, p) :: a.hist[k] == Op.Put(p, Contents(a)[p])
  {
    LastWriter(a.hist, p);
    LastDecides(map[], a.hist, p);
  }

  predicate WriteTouches(w: Write, p: nat) {
    match w
    case PutWrite(q, _, _) => q == p
    case ClearWrite(start, end) => start <= p < end
  }

  /** Write `k` is the last of the batch that touches the position. */
  predicate WriteDecides(ws: seq<Write>, k: nat, p: nat) {
    k < |ws| && WriteTouches(ws[k], p) && forall j | k < j < |ws| :: !WriteTouches(ws[j], p)
  }

  /** What a position holds after these writes and this floor: nothing below it, else what the last write
      that touches it says, else what it held before. */
  ghost predicate Becomes(before: map<nat, Cell>, ws: seq<Write>, floor: nat, after: map<nat, Cell>, p: nat) {
    if p < floor then p !in after
    else
      && (forall k: nat {:trigger ws[k]} | WriteDecides(ws, k, p) ::
            match ws[k]
            case PutWrite(_, id, payload) => p in after && after[p] == Cell(id, payload, false)
            case ClearWrite(_, _) => p !in after)
      && ((forall k | 0 <= k < |ws| :: !WriteTouches(ws[k], p)) ==> if p in before then p in after && after[p] == before[p] else p !in after)
  }

  ghost predicate AllBecome(before: map<nat, Cell>, ws: seq<Write>, floor: nat, after: map<nat, Cell>) {
    forall p: nat :: Becomes(before, ws, floor, after, p)
  }

  lemma SameDecides(ws: seq<Write>, p: nat, k: nat)
    requires WriteDecides(ws, k, p)
    ensures Decides(WriteOps(ws), k, p)
  {
    var ops := WriteOps(ws);
    forall j | 0 <= j < |ws| ensures Touches(ops[j], p) <==> WriteTouches(ws[j], p) { }
  }

  lemma SameUntold(ws: seq<Write>, p: nat)
    requires forall k | 0 <= k < |ws| :: !WriteTouches(ws[k], p)
    ensures Untold(WriteOps(ws), p)
  {
    var ops := WriteOps(ws);
    forall j | 0 <= j < |ws| ensures !Touches(ops[j], p) { }
  }

  lemma WriteBecomes(before: map<nat, Cell>, ws: seq<Write>, p: nat)
    ensures Becomes(before, ws, 0, Fold(before, WriteOps(ws)), p)
  {
    LastDecides(before, WriteOps(ws), p);
    forall k: nat {:trigger ws[k]} | WriteDecides(ws, k, p) ensures Decides(WriteOps(ws), k, p) { SameDecides(ws, p, k); }
    if forall k | 0 <= k < |ws| :: !WriteTouches(ws[k], p) { SameUntold(ws, p); }
  }

  lemma WritesBecome(a: Abs, ws: seq<Write>, a': Abs)
    requires a'.hist == a.hist + WriteOps(ws) && a'.floor >= a.floor
    ensures AllBecome(Contents(a), ws, a'.floor, Contents(a'))
  {
    var before, after, floor := Contents(a), Contents(a'), a'.floor;
    FoldConcat(map[], a.hist, WriteOps(ws));
    forall p: nat ensures Becomes(before, ws, floor, after, p) { WriteBecomes(Fold(map[], a.hist), ws, p); }
  }

  // ---- a commit ----

  /** Two ways to begin the same step are the same commit. */
  lemma SameWrites(g: Geometry, s: State, s': State, batch: Batch, plan: Plan, other: Batch, chosen: Plan)
    requires BeginStep(g, s, s', batch, plan) && BeginStep(g, s, s', other, chosen)
    ensures batch.writes == other.writes && plan.meta == chosen.meta && (batch.writes != [] ==> plan.ordered == chosen.ordered)
  {
    if batch.writes != [] {
      assert plan.entries == chosen.entries && plan.ordered == chosen.ordered && plan.meta == chosen.meta;
      EntriesMean(plan.entries, batch.writes, plan.seqno, plan.ordered);
      EntriesMean(plan.entries, other.writes, plan.seqno, plan.ordered);
      forall i | 0 <= i < |batch.writes| ensures batch.writes[i] == other.writes[i] {
        assert WriteOps(batch.writes)[i] == WriteOps(other.writes)[i];
      }
    }
  }

  /** The abstract commit is the caller's batch, whichever way the step is read. */
  lemma BegunTakes(g: Geometry, s: State, s': State, a: Abs, a': Abs, batch: Batch, plan: Plan)
    requires BeginStep(g, s, s', batch, plan) && Simulates(g, s, s', a, a') && Shows(s, a)
    ensures a'.flight.Some? && Takes(a, batch, a'.flight.value.ordered, a')
    ensures batch.writes != [] ==> a'.flight.value.ordered == plan.ordered
  {
    var other, chosen :| BeginStep(g, s, s', other, chosen) && Takes(a, other, chosen.ordered, a');
    SameWrites(g, s, s', batch, plan, other, chosen);
  }

  lemma AbsStays(g: Geometry, s: State, s': State, a: Abs, a': Abs)
    requires Simulates(g, s, s', a, a') && Shows(s, a) && a.flight.Some? && Next(g, s, s') && s'.pc != Sweep
    ensures a' == a
  {
  }

  /** From the beginning of the commit on, until it returns or an open settles it. */
  predicate Pends(run: seq<State>, i: nat, j: nat) { i < j < |run| && forall k | i < k <= j :: run[k].pc != Sweep }

  lemma {:induction false} FlightPends(g: Geometry, run: seq<State>, abs: seq<Abs>, i: nat, j: nat)
    requires Run(g, run) && StandsFor(g, run, abs) && Pends(run, i, j) && abs[i + 1].flight.Some?
    ensures abs[j] == abs[i + 1]
    decreases j
  {
    if i + 1 < j {
      FlightPends(g, run, abs, i, j - 1);
      assert Step(g, run, j - 1) && StepMeans(g, run, abs, j - 1) && Shows(run[j - 1], abs[j - 1]);
      AbsStays(g, run[j - 1], run[j], abs[j - 1], abs[j]);
    }
  }

  lemma BegunPends(g: Geometry, run: seq<State>, abs: seq<Abs>, i: nat, j: nat, batch: Batch, plan: Plan)
    requires Run(g, run) && StandsFor(g, run, abs) && Pends(run, i, j) && BeginStep(g, run[i], run[i + 1], batch, plan)
    ensures abs[j].flight.Some? && Takes(abs[i], batch, abs[j].flight.value.ordered, abs[j])
    ensures batch.writes != [] ==> abs[j].flight.value.ordered == plan.ordered
  {
    assert StepMeans(g, run, abs, i) && Shows(run[i], abs[i]);
    BegunTakes(g, run[i], run[i + 1], abs[i], abs[i + 1], batch, plan);
    FlightPends(g, run, abs, i, j);
  }

  predicate IsReturn(s: State) { s.pc.MetaB? || (s.pc.MetaA? && s.pc.c.meta.None?) }

  /** The floor a commit of this batch installs. */
  predicate Raised(before: nat, asked: Option<nat>, floor: nat) {
    floor >= before && (asked.Some? ==> floor >= asked.value) && (floor == before || Some(floor) == asked)
  }

  /** A commit that returned: the floor is the higher of the old one and the batch's, the metainfo is the
      batch's if it has any, and every position at or above the floor holds what the batch's last write to
      it says, or what it held before; below the floor nothing is left. */
  lemma CommitShows(g: Geometry, run: seq<State>, abs: seq<Abs>, i: nat, j: nat, batch: Batch, plan: Plan)
    requires Run(g, run) && StandsFor(g, run, abs) && Pends(run, i, j) && BeginStep(g, run[i], run[i + 1], batch, plan)
    requires j + 1 < |run| && IsReturn(run[j]) && run[j + 1].pc == Sweep
    ensures Raised(abs[i].floor, batch.floor, abs[j + 1].floor)
    ensures abs[j + 1].bytes == if batch.meta.Some? then batch.meta.value else abs[i].bytes
    ensures AllBecome(Contents(abs[i]), batch.writes, abs[j + 1].floor, Contents(abs[j + 1]))
  {
    BegunPends(g, run, abs, i, j, batch, plan);
    assert StepMeans(g, run, abs, j);
    WritesBecome(abs[i], batch.writes, abs[j + 1]);
  }

  // ---- a commit that a crash cut ----

  lemma {:induction false} PartsAppend(ops: seq<Op<Cell>>, live: seq<bool>, soft: bool)
    requires |live| == |ops| > 0
    ensures var n := |ops| - 1;
            Survivors(ops, live, soft) == Survivors(ops[..n], live[..n], soft) + if live[n] then [Mark(ops[n], soft)] else []
  {
    var n := |ops| - 1;
    assert Parts(ops, live, soft)[..n] == Parts(ops[..n], live[..n], soft);
  }

  lemma {:induction false} PrefixLength(live: seq<bool>) returns (n: nat)
    requires Prefix(live)
    ensures n <= |live| && forall i | 0 <= i < |live| :: live[i] <==> i < n
  {
    n := 0;
    while n < |live| && live[n]
      invariant n <= |live| && forall i | 0 <= i < n :: live[i]
    {
      n := n + 1;
    }
  }

  lemma {:induction false} PrefixSurvives(ops: seq<Op<Cell>>, live: seq<bool>, n: nat)
    requires n <= |live| == |ops| && Hard(ops) && forall i | 0 <= i < |live| :: live[i] <==> i < n
    ensures Survivors(ops, live, false) == ops[..n]
    decreases |ops|
  {
    if n == |ops| {
      SurvivorsAll(ops, live);
      assert ops[..n] == ops;
    } else {
      var k := |ops| - 1;
      PartsAppend(ops, live, false);
      PrefixSurvives(ops[..k], live[..k], n);
      assert ops[..k][..n] == ops[..n];
    }
  }

  /** Positions in a batch, in order. */
  predicate Increasing(picks: seq<nat>, n: nat) {
    (forall i | 0 <= i < |picks| :: picks[i] < n) && forall i, j | 0 <= i < j < |picks| :: picks[i] < picks[j]
  }

  /** These writes of the batch, in their order, and whether their bytes may be gone. */
  function Picked(ops: seq<Op<Cell>>, picks: seq<nat>, soft: bool): (r: seq<Op<Cell>>)
    requires Increasing(picks, |ops|)
  {
    seq(|picks|, k requires 0 <= k < |picks| => Mark(ops[picks[k]], soft))
  }

  lemma PickedMore(ops: seq<Op<Cell>>, picks: seq<nat>, soft: bool)
    requires ops != [] && Increasing(picks, |ops| - 1)
    ensures var n := |ops| - 1;
            && Increasing(picks, |ops|) && Increasing(picks + [n], |ops|)
            && Picked(ops, picks, soft) == Picked(ops[..n], picks, soft)
            && Picked(ops, picks + [n], soft) == Picked(ops[..n], picks, soft) + [Mark(ops[n], soft)]
  {
  }

  lemma {:induction false} SomeSurvive(ops: seq<Op<Cell>>, live: seq<bool>, soft: bool) returns (picks: seq<nat>)
    requires |live| == |ops|
    ensures Increasing(picks, |ops|) && Survivors(ops, live, soft) == Picked(ops, picks, soft)
    decreases |ops|
  {
    picks := [];
    if ops != [] {
      var n := |ops| - 1;
      var before := SomeSurvive(ops[..n], live[..n], soft);
      PartsAppend(ops, live, soft);
      PickedMore(ops, before, soft);
      picks := if live[n] then before + [n] else before;
    }
  }

  lemma WritesAreHard(ws: seq<Write>)
    ensures Hard(WriteOps(ws))
  {
  }

  /** An ordered commit that a crash cut, once an open settled it: exactly a prefix of its writes took
      effect, and its floor and metainfo only with all of them. */
  lemma OrderedCutShows(g: Geometry, run: seq<State>, abs: seq<Abs>, i: nat, j: nat, batch: Batch, plan: Plan) returns (n: nat)
    requires Run(g, run) && StandsFor(g, run, abs) && Pends(run, i, j) && BeginStep(g, run[i], run[i + 1], batch, plan)
    requires j + 1 < |run| && run[j].pc.GenerationB? && run[j + 1].pc == Sweep && plan.ordered && batch.writes != []
    ensures n <= |batch.writes| && AllBecome(Contents(abs[i]), batch.writes[..n], abs[j + 1].floor, Contents(abs[j + 1]))
    ensures || (abs[j + 1].floor == abs[i].floor && abs[j + 1].bytes == abs[i].bytes)
            || (n == |batch.writes| && Raised(abs[i].floor, batch.floor, abs[j + 1].floor)
                && abs[j + 1].bytes == if batch.meta.Some? then batch.meta.value else abs[i].bytes)
  {
    BegunPends(g, run, abs, i, j, batch, plan);
    assert StepMeans(g, run, abs, j);
    var a, a' := abs[j], abs[j + 1];
    var live, soft :| RecoversWith(a, a', live, soft);
    WritesAreHard(batch.writes);
    n := PrefixLength(live);
    PrefixSurvives(a.flight.value.ops, live, n);
    assert WriteOps(batch.writes)[..n] == WriteOps(batch.writes[..n]);
    WritesBecome(abs[i], batch.writes[..n], a');
  }

  /** A batched one: some of its writes took effect, in their order. */
  lemma BatchedCutShows(g: Geometry, run: seq<State>, abs: seq<Abs>, i: nat, j: nat, batch: Batch, plan: Plan)
    returns (picks: seq<nat>, soft: bool)
    requires Run(g, run) && StandsFor(g, run, abs) && Pends(run, i, j) && BeginStep(g, run[i], run[i + 1], batch, plan)
    requires j + 1 < |run| && run[j].pc.GenerationB? && run[j + 1].pc == Sweep
    ensures Increasing(picks, |batch.writes|) && abs[j + 1].hist == abs[i].hist + Picked(WriteOps(batch.writes), picks, soft)
    ensures || (abs[j + 1].floor == abs[i].floor && abs[j + 1].bytes == abs[i].bytes)
            || (!soft && |picks| == |batch.writes| && Raised(abs[i].floor, batch.floor, abs[j + 1].floor)
                && abs[j + 1].bytes == if batch.meta.Some? then batch.meta.value else abs[i].bytes)
  {
    BegunPends(g, run, abs, i, j, batch, plan);
    assert StepMeans(g, run, abs, j);
    var a, a' := abs[j], abs[j + 1];
    var live, s :| RecoversWith(a, a', live, s);
    soft := s;
    picks := SomeSurvive(a.flight.value.ops, live, soft);
    if forall i | 0 <= i < |live| :: live[i] { AllSurvive(a.flight.value.ops, live, soft); }
  }

  lemma {:induction false} AllSurvive(ops: seq<Op<Cell>>, live: seq<bool>, soft: bool)
    requires |live| == |ops| && forall i | 0 <= i < |live| :: live[i]
    ensures |Survivors(ops, live, soft)| == |ops|
    decreases |ops|
  {
    if ops != [] {
      var n := |ops| - 1;
      AllSurvive(ops[..n], live[..n], soft);
      PartsAppend(ops, live, soft);
    }
  }
}
