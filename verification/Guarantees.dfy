/** What the refinement buys a caller, over whole runs: nothing committed is lost, the journal never
    gets stuck, and its metainfo never runs ahead of its log. */
module Guarantees {
  import opened Format
  import opened Ops
  import opened Recover
  import opened Log
  import opened Verdict
  import opened Writes
  import opened Spec
  import opened Runs
  import opened Invariant
  import opened DiskSteps
  import opened MemSteps
  import opened Begin
  import opened CommitSteps
  import opened ScanSteps
  import opened OpenSteps
  import opened Refinement

  // ---- durability ----

  lemma StepExtends(g: Geometry, s: State, s': State, a: Abs, a': Abs)
    requires Simulates(g, s, s', a, a')
    ensures a.hist <= a'.hist
  {
    if a' != a && !s.pc.Ready? && s.pc.GenerationB? && s'.pc != Down {
      var live, soft :| RecoversWith(a, a', live, soft);
    }
  }

  /** What took effect stays in effect, in its order, through every later commit and crash. */
  lemma {:induction false} HistoryGrows(g: Geometry, run: seq<State>, abs: seq<Abs>, i: nat, j: nat)
    requires StandsFor(g, run, abs) && i <= j < |run|
    ensures abs[i].hist <= abs[j].hist
    decreases j - i
  {
    if i < j {
      HistoryGrows(g, run, abs, i, j - 1);
      assert StepMeans(g, run, abs, j - 1);
      StepExtends(g, run[j - 1], run[j], abs[j - 1], abs[j]);
    }
  }

  /** A commit that returned is part of the history from then on. */
  lemma CommitLasts(g: Geometry, run: seq<State>, abs: seq<Abs>, i: nat, j: nat)
    requires StandsFor(g, run, abs) && i + 1 <= j < |run|
    requires (run[i].pc.MetaB? || (run[i].pc.MetaA? && run[i].pc.c.meta.None?)) && run[i + 1].pc == Sweep
    ensures abs[i].flight.Some? && abs[i].hist + abs[i].flight.value.ops <= abs[j].hist
  {
    assert StepMeans(g, run, abs, i);
    HistoryGrows(g, run, abs, i + 1, j);
  }

  predicate FloorRises(a: Abs) { a.flight.Some? ==> a.flight.value.floor >= a.floor }

  lemma StepFloor(g: Geometry, s: State, s': State, a: Abs, a': Abs)
    requires Simulates(g, s, s', a, a') && Shows(s, a) && FloorRises(a)
    ensures a.floor <= a'.floor && FloorRises(a')
  {
    if s.pc.GenerationB? && s'.pc != Down && a.flight.Some? {
      var live, soft :| RecoversWith(a, a', live, soft);
    } else if s.pc.Ready? && s'.pc != Down {
      var batch, plan :| BeginStep(g, s, s', batch, plan) && Takes(a, batch, plan.ordered, a');
    }
  }

  /** The floor never comes back down, whatever a crash does to the commit that raises it. */
  lemma {:induction false} FloorGrows(g: Geometry, run: seq<State>, abs: seq<Abs>, i: nat, j: nat)
    requires StandsFor(g, run, abs) && i <= j < |run|
    ensures abs[i].floor <= abs[j].floor && FloorRises(abs[j])
    decreases j, j - i
  {
    if j > 0 {
      FloorGrows(g, run, abs, if i < j then i else j - 1, j - 1);
      assert StepMeans(g, run, abs, j - 1) && Shows(run[j - 1], abs[j - 1]);
      StepFloor(g, run[j - 1], run[j], abs[j - 1], abs[j]);
    }
  }

  // ---- progress ----

  /** No step's condition can fail where the journal takes it. */
  lemma CommitGoesOn(g: Geometry, s: State, w: Witness) returns (s': State)
    requires Inv(g, s, w) && (s.pc.Roll? || s.pc.RollRename? || s.pc.Sweep?)
    ensures CommitNext(g, s, s')
  {
    match s.pc
    case Roll(plan) =>
      if s.disk.spares == [] {
        s' := State(s.disk.(segs := s.disk.segs + [NewSegment(g, plan.seqno, s.mem.lastBatch)]),
                    Starts(plan, 0, g.EntryStart()), RolledMem(g, s.mem));
        assert CreateStep(g, s, s');
      } else {
        var head := Names(plan.seqno);
        s' := State(s.disk.(spares := [s.disk.spares[0].(a := head, b := head)]), RollRename(plan), s.mem);
        assert AdoptStep(s, s');
      }
    case RollRename(plan) =>
      s' := State(s.disk.(segs := s.disk.segs + [Adopted(s)], spares := []), Starts(plan, 0, g.EntryStart()), RolledMem(g, s.mem));
      assert RenameStep(g, s, s');
    case Sweep =>
      if FrontIsDead(s) {
        s' := State(FrontRemoved(s.disk), Sweep, s.mem.(cursors := s.mem.cursors[1..]));
        assert RemoveStep(s, s');
      } else {
        s' := s.(pc := Ready);
        assert SweptStep(s, s');
      }
  }

  lemma BatchGoesOn(g: Geometry, s: State, w: Witness) returns (s': State)
    requires Inv(g, s, w) && (s.pc.PutEntries? || s.pc.PutRecords? || s.pc.PutBoth?)
    ensures CommitNext(g, s, s')
  {
    var c, n := s.pc.c, Active(s.disk);
    var b, seg := c.batch.value, s.disk.segs[n];
    if s.pc.PutEntries? {
      s' := State(PutSegment(s.disk, n, WriteEntries(seg, b)), PutRecords(c), s.mem);
      assert EntriesStep(s, s');
    } else if s.pc.PutRecords? {
      s' := State(PutSegment(s.disk, n, WriteRecords(seg, b)), MetaA(c), s.mem);
      assert RecordsStep(s, s');
    } else {
      s' := State(PutSegment(s.disk, n, WriteRecords(WriteEntries(seg, b), b)), MetaA(c.(batch := Some(b.(firm := true)))), s.mem);
      assert BothStep(s, s');
    }
  }

  lemma MetaGoesOn(g: Geometry, s: State, w: Witness) returns (s': State)
    requires Inv(g, s, w) && (s.pc.MetaA? || s.pc.MetaB?)
    ensures CommitNext(g, s, s')
  {
    var c := s.pc.c;
    if s.pc.MetaB? {
      s' := State(s.disk.(b := Copy(c.meta.value)), Sweep, Applied(s, c));
      assert MetaBStep(s, s');
    } else if c.meta.Some? {
      s' := State(s.disk.(a := Copy(c.meta.value)), MetaB(c), s.mem);
      assert MetaAStep(s, s');
    } else {
      s' := State(s.disk, Sweep, Applied(s, c));
      assert NoMetaStep(s, s');
    }
  }

  /** An open after any crash goes through: nothing is refused and nothing is out of place. */
  lemma OpenGoesOn(g: Geometry, s: State, w: Witness) returns (s': State)
    requires Inv(g, s, w) && (s.pc.Down? || s.pc.RepairMeta? || s.pc.PickSpare? || s.pc.Scanning?)
    requires s.pc.Scanning? ==> s.pc.meta.generation + 1 < 0x100_0000
    ensures OpenNext(g, s, s')
  {
    match s.pc
    case Down =>
      s' := s.(pc := match Choose(s.disk.a, s.disk.b) {
                       case Err(e) => Refused(e)
                       case Ok((meta, None)) => PickSpare(meta)
                       case Ok((meta, Some(which))) => RepairMeta(meta, which)
                     });
      assert OpenStep(s, s');
    case RepairMeta(m, which) =>
      s' := State(PutCopy(s.disk, which, Copy(m)), PickSpare(m), s.mem);
      assert RepairStep(s, s');
    case PickSpare(m) =>
      s' := State(s.disk.(spares := KeepOneSpare(s.disk.spares, Firsts(s.disk))), Scanning(m), s.mem);
      assert PickStep(s, s');
    case Scanning(m) =>
      s' := s.(pc := AfterScan(m, ScanAll(g, s.disk.segs, StaleOf(m))));
      assert Runs.ScanStep(g, s, s');
  }

  lemma WriteBackGoesOn(g: Geometry, s: State, w: Witness) returns (s': State)
    requires Inv(g, s, w) && s.pc.WriteBack?
    ensures OpenNext(g, s, s')
  {
    TailExtent(g, s.disk, w);
    var r := s.pc.scan.verdicts.rewrite.value;
    assert CanWriteBack(s.disk, r);
    s' := State(Backed(s.disk, r), GenerationA(NextGeneration(s.pc.meta, s.pc.scan.lastBatch), s.pc.scan), s.mem);
    assert WriteBackStep(s, s');
  }

  lemma GenerationGoesOn(g: Geometry, s: State) returns (s': State)
    requires s.pc.GenerationA? || s.pc.GenerationB?
    ensures OpenNext(g, s, s')
  {
    var m, scan := s.pc.meta, s.pc.scan;
    if s.pc.GenerationA? {
      s' := State(s.disk.(a := Copy(m)), GenerationB(m, scan), s.mem);
      assert GenerationAStep(s, s');
    } else {
      s' := State(s.disk.(b := Copy(m)), Sweep, Mem(m, Above(Fold(map[], scan.verdicts.ops), m.floor), scan.cursors, scan.lastBatch));
      assert GenerationBStep(s, s');
    }
  }

  predicate Waits(pc: Pc) { pc.Ready? || (pc.Scanning? && pc.meta.generation + 1 >= 0x100_0000) }

  /** In every state a run can reach, the journal waits for a caller or has a step to take. */
  lemma NeverStuck(g: Geometry, s: State, w: Witness) returns (s': State)
    requires Inv(g, s, w) && !Waits(s.pc)
    ensures CommitNext(g, s, s') || OpenNext(g, s, s')
  {
    if s.pc.WriteBack? { s' := WriteBackGoesOn(g, s, w); }
    else if s.pc.GenerationA? || s.pc.GenerationB? { s' := GenerationGoesOn(g, s); }
    else if s.pc.MetaA? || s.pc.MetaB? { s' := MetaGoesOn(g, s, w); }
    else if s.pc.PutEntries? || s.pc.PutRecords? || s.pc.PutBoth? { s' := BatchGoesOn(g, s, w); }
    else if s.pc.Roll? || s.pc.RollRename? || s.pc.Sweep? { s' := CommitGoesOn(g, s, w); }
    else { s' := OpenGoesOn(g, s, w); }
  }

  lemma WitnessOf(g: Geometry, run: seq<State>) returns (w: Witness)
    requires g.Valid() && Run(g, run)
    ensures Inv(g, run[|run| - 1], w)
  {
    var ws := RunWitnessed(g, run);
    assert InvAt(g, run, ws, |run| - 1);
    w := ws[|run| - 1];
  }

  /** At the end of any run nothing was refused, and a step is left to take. */
  lemma RunGoesOn(g: Geometry, run: seq<State>)
    requires g.Valid() && Run(g, run)
    ensures var s := run[|run| - 1];
            && !s.pc.Refused?
            && (!Waits(s.pc) ==> exists s' :: CommitNext(g, s, s') || OpenNext(g, s, s'))
  {
    var s := run[|run| - 1];
    var w := WitnessOf(g, run);
    if !Waits(s.pc) {
      var s' := NeverStuck(g, s, w);
    }
  }

  /** No index entry lies below the floor, and the segments come in the order of their numbers. */
  predicate InOrder(s: State) {
    && (forall p | p in s.mem.index :: p >= s.mem.meta.floor)
    && forall i, j {:trigger s.disk.segs[i], s.disk.segs[j]} | 0 <= i < j < |s.disk.segs| :: s.disk.segs[i].first < s.disk.segs[j].first
  }

  lemma StaysInOrder(g: Geometry, s: State, w: Witness)
    requires Inv(g, s, w) && (s.pc.Ready? || s.pc.Sweep?)
    ensures InOrder(s)
  {
  }

  /** Both are checked by the journal itself; they hold at the end of any run. */
  lemma RunInOrder(g: Geometry, run: seq<State>)
    requires g.Valid() && Run(g, run) && (run[|run| - 1].pc.Ready? || run[|run| - 1].pc.Sweep?)
    ensures InOrder(run[|run| - 1])
  {
    var w := WitnessOf(g, run);
    StaysInOrder(g, run[|run| - 1], w);
  }

  // ---- the scan ----

  lemma ScanIsClean(g: Geometry, d: Disk, w: Witness, m: Meta)
    requires DiskInvOf(Held(g), g, d, w) && d.a == Copy(m)
    ensures var r := ScanAll(g, d.segs, StaleOf(m)); r.Ok? && r.value.verdicts.corrupt == [] && r.value.lastBatch >= m.lastBatch
  {
    var w' := ScanOutcome(g, d, w, m);
  }

  /** However the run crashed, the scan after it calls nothing corrupt. */
  lemma RunScansClean(g: Geometry, run: seq<State>)
    requires g.Valid() && Run(g, run) && run[|run| - 1].pc.Scanning?
    ensures var s := run[|run| - 1]; var r := ScanAll(g, s.disk.segs, StaleOf(s.pc.meta));
            r.Ok? && r.value.verdicts.corrupt == [] && r.value.lastBatch >= s.pc.meta.lastBatch
  {
    var w := WitnessOf(g, run);
    ScanIsClean(g, run[|run| - 1].disk, w, run[|run| - 1].pc.meta);
  }

  // ---- the metainfo ----

  /** An operation the scan returns is this write, undamaged. */
  predicate OpIs(op: Op<Located>, of: Op<Cell>) {
    match of
    case Put(p, c) => op.Put? && op.position == p && op.value.id == c.id && !op.value.damaged
    case Clear(s, e) => op == Op.Clear(s, e)
  }

  /** What was found ends with these writes, every one of them. */
  predicate FindsAll(found: seq<Op<Located>>, ops: seq<Op<Cell>>) {
    |ops| <= |found| && forall k | 0 <= k < |ops| :: OpIs(found[|found| - |ops| + k], ops[k])
  }

  /** A scan by this metainfo reaches the batch it names; and it is the metainfo in force, or that of
      the commit in flight with every write of that commit found on disk. */
  ghost predicate Backs(g: Geometry, d: Disk, a: Abs, m: Meta) {
    var r := ScanAll(g, d.segs, StaleOf(m));
    && r.Ok? && m.lastBatch <= r.value.lastBatch
    && (|| (m.floor == a.floor && m.bytes == a.bytes)
        || (a.flight.Some? && var f := a.flight.value; m.floor == f.floor && m.bytes == f.bytes && FindsAll(r.value.verdicts.ops, f.ops)))
  }

  lemma BatchIds(first: nat, b: Placed, k: nat)
    requires WellFormed(b) && k < |BatchOps(first, b)|
    ensures var op := BatchOps(first, b)[k]; op.Put? ==> op.value.at.id == op.value.cell.id && op.value.cell.soft == !b.firm
  {
    var ops := BatchOps(first, b);
    var i := ConcatMember(seq(|b.entries|, i requires 0 <= i < |b.entries| => OpAt(first, b, i)), ops[k]);
  }

  predicate Sound(of: Op<Item>) { of.Put? ==> of.value.at.id == of.value.cell.id && !of.value.cell.soft }

  lemma OpIsFound(op: Op<Located>, of: Op<Item>)
    requires OpFits(op, of) && Sound(of)
    ensures OpIs(op, MapOp(CellOfItem, of))
  {
  }

  lemma EndIsFound(found: seq<Op<Located>>, before: seq<Op<Item>>, tail: seq<Op<Item>>, ops: seq<Op<Cell>>)
    requires OpsFit(found, before + tail) && |ops| == |tail|
    requires forall k {:trigger tail[k]} | 0 <= k < |tail| :: Sound(tail[k]) && ops[k] == MapOp(CellOfItem, tail[k])
    ensures FindsAll(found, ops)
  {
    forall k | 0 <= k < |tail| ensures OpIs(found[|found| - |tail| + k], ops[k]) {
      assert (before + tail)[|before| + k] == tail[k];
      OpIsFound(found[|before| + k], tail[k]);
    }
  }

  /** A batch whose every write is durable is found write by write, after all that was there before. */
  lemma FlightIsFound(d: Disk, w: Witness, found: seq<Op<Located>>)
    requires |d.segs| == |w.log| && TailInside(d, w.tail) && FlightDurable(d, w) && Pending(w.abs, w.tail)
    requires OpsFit(found, LogOps(d.segs, Merged(w.log, w.tail)))
    ensures FindsAll(found, w.abs.flight.value.ops)
  {
    TailOpsMerge(d, w.log, w.tail);
    CommitOps(d, w);
    var tail := TailOps(d, w.tail);
    forall k {:trigger tail[k]} | 0 <= k < |tail| ensures Sound(tail[k]) {
      BatchIds(LastSegment(d).first, w.tail.value, k);
    }
    EndIsFound(found, LogOps(d.segs, w.log), tail, MapOps(CellOfItem, tail));
  }

  lemma MetaIsBacked(g: Geometry, d: Disk, w: Witness, m: Meta)
    requires DiskInvOf(Held(g), g, d, w) && (d.a == Copy(m) || d.b == Copy(m))
    ensures Backs(g, d, w.abs, m)
  {
    var w' := ScanOutcome(g, d, w, m);
    InstallsIsBacked(g, d, w', m, ScanAll(g, d.segs, StaleOf(m)).value);
  }

  lemma InstallsIsBacked(g: Geometry, d: Disk, w: Witness, m: Meta, scan: Scan)
    requires Stands(d, w) && (d.a == Copy(m) || d.b == Copy(m)) && ScanOk(g, d, w, scan)
    ensures || (m.floor == w.abs.floor && m.bytes == w.abs.bytes)
            || (w.abs.flight.Some? && var f := w.abs.flight.value; m.floor == f.floor && m.bytes == f.bytes && FindsAll(scan.verdicts.ops, f.ops))
  {
    if FlightDurable(d, w) { FlightIsFound(d, w, scan.verdicts.ops); }
  }

  ghost predicate CopiesBacked(g: Geometry, d: Disk, a: Abs) {
    (d.a.Copy? || d.b.Copy?) && (d.a.Copy? ==> Backs(g, d, a, d.a.meta)) && (d.b.Copy? ==> Backs(g, d, a, d.b.meta))
  }

  lemma CopiesAreBacked(g: Geometry, d: Disk, w: Witness)
    requires DiskInvOf(Held(g), g, d, w)
    ensures CopiesBacked(g, d, w.abs)
  {
    if d.a.Copy? { MetaIsBacked(g, d, w, d.a.meta); }
    if d.b.Copy? { MetaIsBacked(g, d, w, d.b.meta); }
  }

  lemma BackedAt(g: Geometry, run: seq<State>, ws: seq<Witness>, i: nat)
    requires Witnessed(g, run, ws) && i < |run|
    ensures CopiesBacked(g, run[i].disk, ws[i].abs)
  {
    assert InvAt(g, run, ws, i);
    CopiesAreBacked(g, run[i].disk, ws[i]);
  }

  /** Whatever metainfo a run leaves on disk, torn or not: a copy is readable, and each readable one is
      backed by what the scan finds. */
  lemma RunVouches(g: Geometry, run: seq<State>) returns (abs: seq<Abs>)
    requires g.Valid() && Run(g, run)
    ensures StandsFor(g, run, abs) && CopiesBacked(g, run[|run| - 1].disk, abs[|run| - 1])
  {
    var ws := RunWitnessed(g, run);
    WitnessesStand(g, run, ws);
    BackedAt(g, run, ws, |run| - 1);
    abs := AbsOf(ws);
  }
}
