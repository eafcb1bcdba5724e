/** Every run of the journal, crashes included, is a run of the abstract log. */
module Refinement {
  import opened Format
  import opened Ops
  import opened Recover
  import opened Log
  import opened Verdict
  import opened Spec
  import opened Runs
  import opened Invariant
  import opened Begin
  import opened RollSteps
  import opened PutSteps
  import opened CommitSteps
  import opened CrashSteps
  import opened OpenSteps
  import opened Reads

  /** What a step means to a caller: an accepted batch is in flight; a commit that returned took
      effect whole; a crash changes nothing by itself; and an open after it settles the commit
      that was in flight. Every other step is silent. */
  ghost predicate Simulates(g: Geometry, s: State, s': State, a: Abs, a': Abs) {
    if s'.pc == Down then a' == a
    else match s.pc
      case Ready => exists batch, plan :: BeginStep(g, s, s', batch, plan) && Takes(a, batch, plan.ordered, a')
      case MetaA(c) => if c.meta.None? then Commits(a, a') else a' == a
      case MetaB(_) => Commits(a, a')
      case GenerationB(_, _) => if a.flight.Some? then Recovers(a, a') else a' == a
      case _ => a' == a
  }

  // ---- one step ----

  lemma Begins(g: Geometry, s: State, w: Witness, s': State, batch: Batch, plan: Plan) returns (w': Witness)
    requires Inv(g, s, w) && BeginStep(g, s, s', batch, plan)
    ensures Inv(g, s', w') && Takes(w.abs, batch, plan.ordered, w'.abs) && w'.log == w.log
  {
    if batch.writes == [] {
      BeginMeta(Held(g), g, s, w, s', batch, plan);
      w' := Begun(s, w, batch, plan);
    } else if FitsActive(g, s, batch.writes) {
      w' := BeginPut(g, s, w, s', batch, plan);
    } else {
      BeginRoll(Held(g), g, s, w, s', batch, plan);
      w' := Begun(s, w, batch, plan);
    }
  }

  /** The step is silent, or it is the one its program counter says. */
  ghost predicate Kept(g: Geometry, s: State, s': State, w: Witness, w': Witness) {
    Inv(g, s', w') && Simulates(g, s, s', w.abs, w'.abs) && LogStays(w, w')
  }

  lemma BeginKeeps(g: Geometry, s: State, w: Witness, s': State) returns (w': Witness)
    requires Inv(g, s, w) && exists batch, plan :: BeginStep(g, s, s', batch, plan)
    ensures Kept(g, s, s', w, w')
  {
    var batch, plan :| BeginStep(g, s, s', batch, plan);
    w' := Begins(g, s, w, s', batch, plan);
  }

  lemma RollKeeps(g: Geometry, s: State, w: Witness, s': State) returns (w': Witness)
    requires Inv(g, s, w) && (CreateStep(g, s, s') || AdoptStep(s, s') || RenameStep(g, s, s'))
    ensures Kept(g, s, s', w, w')
  {
    w' := w;
    if CreateStep(g, s, s') { w' := Create(g, s, w, s'); }
    else if AdoptStep(s, s') { Adopt(Held(g), g, s, w, s'); }
    else { w' := Rename(g, s, w, s'); }
  }

  lemma PutKeeps(g: Geometry, s: State, w: Witness, s': State) returns (w': Witness)
    requires Inv(g, s, w) && (EntriesStep(s, s') || RecordsStep(s, s') || BothStep(s, s'))
    ensures Kept(g, s, s', w, w')
  {
    w' := w;
    if EntriesStep(s, s') { Entries(g, s, w, s'); }
    else if RecordsStep(s, s') { PutSteps.Records(g, s, w, s'); }
    else { w' := Both(g, s, w, s'); }
  }

  lemma MetaKeeps(g: Geometry, s: State, w: Witness, s': State) returns (w': Witness)
    requires Inv(g, s, w) && (MetaAStep(s, s') || MetaBStep(s, s') || NoMetaStep(s, s'))
    ensures Kept(g, s, s', w, w')
  {
    w' := w;
    if MetaAStep(s, s') { WriteMetaA(Held(g), g, s, w, s'); }
    else if MetaBStep(s, s') { WriteMetaB(g, s, w, s'); w' := CommittedWitness(w); }
    else { NoMeta(g, s, w, s'); w' := CommittedWitness(w); }
  }

  lemma SweepKeeps(g: Geometry, s: State, w: Witness, s': State) returns (w': Witness)
    requires Inv(g, s, w) && (RemoveStep(s, s') || SweptStep(s, s'))
    ensures Kept(g, s, s', w, w')
  {
    w' := w;
    if RemoveStep(s, s') { Remove(g, s, w, s'); w' := w.(log := w.log[1..]); }
  }

  lemma RepairKeeps(g: Geometry, s: State, w: Witness, s': State)
    requires Inv(g, s, w) && (OpenStep(s, s') || RepairStep(s, s') || PickStep(s, s'))
    ensures Kept(g, s, s', w, w)
  {
    if OpenStep(s, s') { Open(Held(g), g, s, w, s'); }
    else if RepairStep(s, s') { Repair(Held(g), g, s, w, s'); }
    else { Pick(Held(g), g, s, w, s'); }
  }

  lemma GenerationKeeps(g: Geometry, s: State, w: Witness, s': State) returns (w': Witness)
    requires Inv(g, s, w) && (GenerationAStep(s, s') || GenerationBStep(s, s'))
    ensures Kept(g, s, s', w, w')
  {
    if GenerationAStep(s, s') {
      StartsGeneration(g, s, w, s');
      w' := w;
    } else {
      Opens(g, s, w, s');
      w' := Recovered(s.disk, w, s.pc.meta);
    }
  }

  lemma RecoverKeeps(g: Geometry, s: State, w: Witness, s': State) returns (w': Witness)
    requires Inv(g, s, w) && (Runs.ScanStep(g, s, s') || WriteBackStep(s, s') || GenerationAStep(s, s') || GenerationBStep(s, s'))
    ensures Kept(g, s, s', w, w')
  {
    if Runs.ScanStep(g, s, s') {
      w' := Scans(g, s, w, s');
    } else if WriteBackStep(s, s') {
      WritesBack(g, s, w, s');
      w' := w;
    } else {
      w' := GenerationKeeps(g, s, w, s');
    }
  }

  lemma CrashSegments(g: Geometry, s: State, w: Witness, s': State) returns (w': Witness)
    requires Inv(g, s, w) && CrashStep(s, s') && (s.pc.Roll? || s.pc.RollRename? || s.pc.Sweep?)
    ensures Kept(g, s, s', w, w')
  {
    w' := w;
    if s'.disk != s.disk {
      if s.pc.Roll? { CrashRoll(Held(g), g, s, w, s'.disk); }
      else if s.pc.RollRename? { CrashRename(g, s, w, s'.disk); w' := w.(log := w.log + [[]]); }
      else { FrontSlots(g, s.disk, w); w' := CrashSweep(Held(g), g, s, w, s'.disk); }
    }
  }

  predicate InBatch(pc: Pc) { pc.PutEntries? || pc.PutRecords? || pc.PutBoth? || pc.WriteBack? }

  lemma CrashBatch(g: Geometry, s: State, w: Witness, s': State)
    requires Inv(g, s, w) && CrashStep(s, s') && InBatch(s.pc)
    ensures Kept(g, s, s', w, w)
  {
    if s'.disk != s.disk {
      if s.pc.WriteBack? { CrashWriteBack(g, s, w, s'.disk); } else { CrashPuts(g, s, w, s'.disk); }
    }
  }

  predicate InMeta(pc: Pc) { pc.MetaA? || pc.MetaB? || pc.RepairMeta? || pc.GenerationA? || pc.GenerationB? }

  lemma CrashMeta(g: Geometry, s: State, w: Witness, s': State)
    requires Inv(g, s, w) && CrashStep(s, s') && InMeta(s.pc)
    ensures Kept(g, s, s', w, w)
  {
    if s'.disk != s.disk {
      if s.pc.GenerationA? { CrashGenerationA(g, s, w, s'.disk); }
      else if s.pc.GenerationB? { CrashGenerationB(Held(g), g, s, w, s'.disk); }
      else { CrashMetas(Held(g), g, s, w, s'.disk); }
    }
  }

  lemma CrashElsewhere(g: Geometry, s: State, w: Witness, s': State)
    requires Inv(g, s, w) && CrashStep(s, s') && (s.pc.PickSpare? || s.pc.Down? || s.pc.Ready? || s.pc.Scanning?)
    ensures Kept(g, s, s', w, w)
  {
    if s.pc.PickSpare? { CrashPick(Held(g), g, s, w, s'.disk); }
  }

  lemma CrashKeeps(g: Geometry, s: State, w: Witness, s': State) returns (w': Witness)
    requires Inv(g, s, w) && CrashStep(s, s')
    ensures Kept(g, s, s', w, w')
  {
    w' := w;
    if s.pc.Roll? || s.pc.RollRename? || s.pc.Sweep? { w' := CrashSegments(g, s, w, s'); }
    else if InBatch(s.pc) { CrashBatch(g, s, w, s'); }
    else if InMeta(s.pc) { CrashMeta(g, s, w, s'); }
    else { CrashElsewhere(g, s, w, s'); }
  }

  lemma CommitKeeps(g: Geometry, s: State, w: Witness, s': State) returns (w': Witness)
    requires Inv(g, s, w) && CommitNext(g, s, s')
    ensures Kept(g, s, s', w, w')
  {
    if RemoveStep(s, s') || SweptStep(s, s') { w' := SweepKeeps(g, s, w, s'); }
    else if MetaAStep(s, s') || MetaBStep(s, s') || NoMetaStep(s, s') { w' := MetaKeeps(g, s, w, s'); }
    else if EntriesStep(s, s') || RecordsStep(s, s') || BothStep(s, s') { w' := PutKeeps(g, s, w, s'); }
    else if CreateStep(g, s, s') || AdoptStep(s, s') || RenameStep(g, s, s') { w' := RollKeeps(g, s, w, s'); }
    else { w' := BeginKeeps(g, s, w, s'); }
  }

  lemma NextKeeps(g: Geometry, s: State, w: Witness, s': State) returns (w': Witness)
    requires Inv(g, s, w) && Next(g, s, s')
    ensures Kept(g, s, s', w, w')
  {
    if CommitNext(g, s, s') { w' := CommitKeeps(g, s, w, s'); }
    else if CrashStep(s, s') { w' := CrashKeeps(g, s, w, s'); }
    else if OpenStep(s, s') || RepairStep(s, s') || PickStep(s, s') { RepairKeeps(g, s, w, s'); w' := w; }
    else { w' := RecoverKeeps(g, s, w, s'); }
  }

  // ---- whole runs ----

  ghost predicate Run(g: Geometry, run: seq<State>) {
    run != [] && Init(run[0]) && forall i {:trigger Step(g, run, i)} | 0 <= i < |run| - 1 :: Step(g, run, i)
  }

  ghost predicate Step(g: Geometry, run: seq<State>, i: nat)
    requires i < |run| - 1
  {
    Next(g, run[i], run[i + 1])
  }

  function Fresh(s: State): Witness { Witness(Abs([], 0, s.mem.meta.bytes, None), [], None) }

  lemma NoOps()
    ensures LogOps([], []) == [] && Above(Fold(map[], LogOps([], [])), 0) == map[]
  {
    assert LogOps([], []) == [];
  }

  lemma InitDisk(inv: SegmentInv, g: Geometry, s: State)
    requires Init(s)
    ensures DiskInvOf(inv, g, s.disk, Fresh(s))
  {
    NoOps();
    assert CellOps([], []) == [];
    assert Above(Fold(map[], CellOps([], [])), 0) == Contents(Fresh(s).abs);
  }

  lemma InitMem(g: Geometry, s: State)
    requires Init(s)
    ensures MemInv(g, s, Fresh(s))
  {
    NoOps();
  }

  lemma InitInv(g: Geometry, s: State)
    requires g.Valid() && Init(s)
    ensures Inv(g, s, Fresh(s))
  {
    InitDisk(Held(g), g, s);
    InitMem(g, s);
  }

  type Good = (State, Witness) -> bool
  type Moves = (State, State) -> bool
  type Means = (State, State, Witness, Witness) -> bool

  predicate MovesAt(moves: Moves, run: seq<State>, i: nat) { i + 1 < |run| ==> moves(run[i], run[i + 1]) }

  predicate MeansAt(means: Means, run: seq<State>, ws: seq<Witness>, i: nat) {
    i + 1 < |run| == |ws| ==> means(run[i], run[i + 1], ws[i], ws[i + 1])
  }

  predicate GoodAt(good: Good, run: seq<State>, ws: seq<Witness>, i: nat) { i < |run| == |ws| ==> good(run[i], ws[i]) }

  /** A run along which every step moves on from a good state has witnesses all along. */
  lemma {:induction false} Follow(good: Good, moves: Moves, means: Means, run: seq<State>, w: Witness) returns (ws: seq<Witness>)
    requires run != [] && good(run[0], w) && forall i {:trigger MovesAt(moves, run, i)} | 0 <= i < |run| :: MovesAt(moves, run, i)
    requires forall s, v, s' {:trigger good(s, v), moves(s, s')} | good(s, v) && moves(s, s') ::
               exists v' :: good(s', v') && means(s, s', v, v')
    ensures |ws| == |run| && ws[0] == w
    ensures forall i {:trigger GoodAt(good, run, ws, i)} | 0 <= i < |run| :: GoodAt(good, run, ws, i)
    ensures forall i {:trigger MeansAt(means, run, ws, i)} | 0 <= i < |run| :: MeansAt(means, run, ws, i)
    decreases |run|
  {
    var n := |run| - 1;
    if n == 0 {
      ws := [w];
    } else {
      var front := run[..n];
      forall i | 0 <= i < n ensures MovesAt(moves, front, i) { assert MovesAt(moves, run, i); }
      var before := Follow(good, moves, means, front, w);
      assert GoodAt(good, front, before, n - 1) && MovesAt(moves, run, n - 1);
      var v :| good(run[n], v) && means(run[n - 1], run[n], before[n - 1], v);
      ws := before + [v];
      forall i | 0 <= i < |run| ensures GoodAt(good, run, ws, i) { assert i < n ==> GoodAt(good, front, before, i); }
      forall i | 0 <= i < |run| ensures MeansAt(means, run, ws, i) { assert i < n ==> MeansAt(means, front, before, i); }
    }
  }

  /** What a caller sees of an open journal. */
  ghost predicate Shows(s: State, a: Abs) {
    && !s.pc.Refused?
    && (s.pc.Ready? ==>
          && a.flight.None? && s.mem.meta.floor == a.floor && s.mem.meta.bytes == a.bytes
          && forall p: nat :: ReadFits(ReadAt(s, p), Contents(a), p))
  }

  lemma InvShows(g: Geometry, s: State, w: Witness)
    requires Inv(g, s, w)
    ensures Shows(s, w.abs)
  {
    if s.pc.Ready? {
      forall p: nat ensures ReadFits(ReadAt(s, p), Contents(w.abs), p) { ReadIsRight(g, s, w, p); }
    }
  }

  /** The abstract run that a run of the journal stands for, step by step. */
  ghost predicate StandsFor(g: Geometry, run: seq<State>, abs: seq<Abs>) {
    && |abs| == |run| > 0 && abs[0] == Abs([], 0, run[0].mem.meta.bytes, None)
    && (forall i {:trigger abs[i]} | 0 <= i < |run| :: Shows(run[i], abs[i]))
    && (forall i {:trigger StepMeans(g, run, abs, i)} | 0 <= i < |run| - 1 :: StepMeans(g, run, abs, i))
  }

  ghost predicate StepMeans(g: Geometry, run: seq<State>, abs: seq<Abs>, i: nat)
    requires i < |run| - 1 && |abs| == |run|
  {
    Simulates(g, run[i], run[i + 1], abs[i], abs[i + 1])
  }

  ghost predicate InvAt(g: Geometry, run: seq<State>, ws: seq<Witness>, i: nat) { i < |run| == |ws| && Inv(g, run[i], ws[i]) }

  ghost predicate StandsAt(g: Geometry, run: seq<State>, ws: seq<Witness>, i: nat) {
    i + 1 < |run| == |ws| && Simulates(g, run[i], run[i + 1], ws[i].abs, ws[i + 1].abs) && LogStays(ws[i], ws[i + 1])
  }

  /** Every state of the run has its witness, and every step is the one it stands for. */
  ghost predicate Witnessed(g: Geometry, run: seq<State>, ws: seq<Witness>) {
    && |ws| == |run| > 0 && ws[0] == Fresh(run[0])
    && (forall i {:trigger InvAt(g, run, ws, i)} | 0 <= i < |run| :: InvAt(g, run, ws, i))
    && (forall i {:trigger StandsAt(g, run, ws, i)} | 0 <= i < |run| - 1 :: StandsAt(g, run, ws, i))
  }

  lemma NextIsGood(g: Geometry, good: Good, moves: Moves, means: Means, s: State, v: Witness, s': State)
    requires good == ((s: State, w: Witness) => Inv(g, s, w)) && moves == ((s: State, s': State) => Next(g, s, s'))
    requires means == ((s: State, s': State, w: Witness, w': Witness) => Simulates(g, s, s', w.abs, w'.abs) && LogStays(w, w'))
    requires good(s, v) && moves(s, s')
    ensures exists v' :: good(s', v') && means(s, s', v, v')
  {
    var v' := NextKeeps(g, s, v, s');
    assert good(s', v') && means(s, s', v, v');
  }

  lemma RunKeeps(g: Geometry, run: seq<State>, good: Good, moves: Moves, means: Means) returns (ws: seq<Witness>)
    requires g.Valid() && Run(g, run)
    requires good == ((s: State, w: Witness) => Inv(g, s, w)) && moves == ((s: State, s': State) => Next(g, s, s'))
    requires means == ((s: State, s': State, w: Witness, w': Witness) => Simulates(g, s, s', w.abs, w'.abs) && LogStays(w, w'))
    ensures |ws| == |run| && ws[0] == Fresh(run[0])
    ensures forall i {:trigger GoodAt(good, run, ws, i)} | 0 <= i < |run| :: GoodAt(good, run, ws, i)
    ensures forall i {:trigger MeansAt(means, run, ws, i)} | 0 <= i < |run| :: MeansAt(means, run, ws, i)
  {
    InitInv(g, run[0]);
    forall i | 0 <= i < |run| ensures MovesAt(moves, run, i) {
      if i < |run| - 1 { assert Step(g, run, i); }
    }
    forall s, v, s' | good(s, v) && moves(s, s') ensures exists v' :: good(s', v') && means(s, s', v, v') {
      NextIsGood(g, good, moves, means, s, v, s');
    }
    ws := Follow(good, moves, means, run, Fresh(run[0]));
  }

  lemma RunWitnessed(g: Geometry, run: seq<State>) returns (ws: seq<Witness>)
    requires g.Valid() && Run(g, run)
    ensures Witnessed(g, run, ws)
  {
    var good := (s: State, w: Witness) => Inv(g, s, w);
    var moves := (s: State, s': State) => Next(g, s, s');
    var means := (s: State, s': State, w: Witness, w': Witness) => Simulates(g, s, s', w.abs, w'.abs) && LogStays(w, w');
    ws := RunKeeps(g, run, good, moves, means);
    forall i | 0 <= i < |run| ensures InvAt(g, run, ws, i) { assert GoodAt(good, run, ws, i); }
    forall i | 0 <= i < |run| - 1 ensures StandsAt(g, run, ws, i) { assert MeansAt(means, run, ws, i); }
  }

  function AbsOf(ws: seq<Witness>): seq<Abs> { seq(|ws|, i requires 0 <= i < |ws| => ws[i].abs) }

  lemma WitnessesStand(g: Geometry, run: seq<State>, ws: seq<Witness>)
    requires Witnessed(g, run, ws)
    ensures StandsFor(g, run, AbsOf(ws))
  {
    var abs := AbsOf(ws);
    forall i {:trigger abs[i]} | 0 <= i < |run| ensures Shows(run[i], abs[i]) {
      assert InvAt(g, run, ws, i);
      InvShows(g, run[i], ws[i]);
    }
    forall i | 0 <= i < |run| - 1 ensures StepMeans(g, run, abs, i) {
      assert StandsAt(g, run, ws, i);
    }
  }

  /** Every run stands for an abstract run. */
  lemma RunRefines(g: Geometry, run: seq<State>) returns (abs: seq<Abs>)
    requires g.Valid() && Run(g, run)
    ensures StandsFor(g, run, abs)
  {
    var ws := RunWitnessed(g, run);
    WitnessesStand(g, run, ws);
    abs := AbsOf(ws);
  }
}
