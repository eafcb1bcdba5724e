/** What a crash leaves ambiguous, over whole runs: damage is only ever called ambiguous, an ordered
    commit adds none, and it leaves none exactly when there was none before it. */
module Ambiguity {
  import opened Format
  import opened Ops
  import opened Recover
  import opened Log
  import opened Verdict
  import opened Writes
  import opened Tail
  import opened Spec
  import opened Runs
  import opened Invariant
  import opened DiskSteps
  import opened Begin
  import opened ScanSteps
  import opened OpenSteps
  import opened Damage
  import opened Scars
  import opened Refinement

  // ---- any commit ----

  /** The scan of the disk as it stands, by this metainfo. */
  function ScanBy(g: Geometry, d: Disk, m: Meta): Result<Scan, OpenError> { ScanAll(g, d.segs, StaleOf(m)) }

  /** Nothing is called corrupt, and what is called ambiguous comes from a batched commit that a crash
      cut: one of the history, or the one in flight. */
  predicate Reports(g: Geometry, d: Disk, m: Meta, a: Abs) {
    var r := ScanBy(g, d, m);
    r.Ok? && r.value.verdicts.corrupt == [] && forall x | x in r.value.verdicts.ambiguous :: MayBeDamaged(a, x)
  }

  lemma DiskReports(g: Geometry, d: Disk, w: Witness, m: Meta)
    requires DiskInvOf(Held(g), g, d, w) && d.a == Copy(m)
    ensures Reports(g, d, m, w.abs)
  {
    var w' := ScanOutcome(g, d, w, m);
    var scan := ScanBy(g, d, m).value;
    ScanNames(g, d.segs, StaleOf(m));
    forall x | x in scan.verdicts.ambiguous ensures MayBeDamaged(w.abs, x) { AmbiguousMayBe(g, d, w', scan, x); }
  }

  lemma ScanningReports(g: Geometry, s: State, w: Witness)
    requires Inv(g, s, w) && s.pc.Scanning?
    ensures Reports(g, s.disk, s.pc.meta, w.abs)
  {
    DiskReports(g, s.disk, w, s.pc.meta);
  }

  /** However a run crashed, batched or ordered, and however often. */
  lemma RunReports(g: Geometry, run: seq<State>) returns (abs: seq<Abs>)
    requires g.Valid() && Run(g, run) && run[|run| - 1].pc.Scanning?
    ensures StandsFor(g, run, abs) && Reports(g, run[|run| - 1].disk, run[|run| - 1].pc.meta, abs[|run| - 1])
  {
    var ws := RunWitnessed(g, run);
    abs := AbsOf(ws);
    WitnessesStand(g, run, ws);
    EndReports(g, run, ws);
  }

  lemma EndReports(g: Geometry, run: seq<State>, ws: seq<Witness>)
    requires Witnessed(g, run, ws) && run[|run| - 1].pc.Scanning?
    ensures Reports(g, run[|run| - 1].disk, run[|run| - 1].pc.meta, AbsOf(ws)[|run| - 1])
  {
    assert InvAt(g, run, ws, |run| - 1);
    ScanningReports(g, run[|run| - 1], ws[|run| - 1]);
  }

  predicate NoSoftPut(ops: seq<Op<Cell>>) { forall k | 0 <= k < |ops| :: ops[k].Put? ==> !ops[k].value.soft }

  /** After an ordered commit, or with none in flight, only soft cells of the history are ambiguous. */
  lemma OrderedReports(g: Geometry, d: Disk, m: Meta, a: Abs)
    requires Reports(g, d, m, a) && (a.flight.Some? ==> a.flight.value.ordered)
    ensures var r := ScanBy(g, d, m).value.verdicts;
            && (forall x | x in r.ambiguous :: SoftPut(a.hist, x)) && (NoSoftPut(a.hist) ==> r.ambiguous == [])
  {
    var r := ScanBy(g, d, m).value.verdicts;
    forall x | x in r.ambiguous ensures SoftPut(a.hist, x) { assert MayBeDamaged(a, x); }
    if r.ambiguous != [] {
      var x := r.ambiguous[0];
      assert SoftPut(a.hist, x);
      assert !NoSoftPut(a.hist);
    }
  }

  // ---- the durable log while a commit is in flight ----

  lemma TornApart(g: Geometry, seg: Segment, bs: seq<Placed>, t: Placed, mid: Segment, end: Segment)
    requires SegInv(g, seg, bs, Some(t)) && bs != []
    requires (mid == seg || TornEntries(seg, t, mid)) && end.entries == mid.entries
    ensures SameEntries(seg, end, bs[|bs| - 1])
  {
    if mid != seg { TornEntriesApart(g, seg, bs, t, mid); }
    EqualEntries(mid, end, bs[|bs| - 1]);
  }

  lemma TornMoves(g: Geometry, d: Disk, w: Witness, mid: Segment, end: Segment)
    requires Chained(Held(g), d.segs, w.log, w.tail) && w.tail.Some? && d.segs != []
    requires mid == LastSegment(d) || TornEntries(LastSegment(d), w.tail.value, mid)
    requires end.entries == mid.entries
    ensures Rewritten(d.segs, w.log, d.segs[|d.segs| - 1 := end])
  {
    var n := |d.segs| - 1;
    ActiveInv(g, d, w);
    if w.log[n] != [] { TornApart(g, LastSegment(d), w.log[n], w.tail.value, mid, end); }
  }

  /** The segments stay, one is added, or the active one is written without touching its last batch. */
  ghost predicate SegmentsMove(segs: seq<Segment>, log: seq<seq<Placed>>, segs': seq<Segment>) {
    segs' == segs || (exists seg :: segs' == segs + [seg]) || Rewritten(segs, log, segs')
  }

  lemma MovedScars(segs: seq<Segment>, log: seq<seq<Placed>>, segs': seq<Segment>, log': seq<seq<Placed>>)
    requires SegmentsMove(segs, log, segs') && |segs| == |log| && |segs'| == |log'| && (log' == log || log' == log + [[]])
    ensures Scarred(segs', log') <==> Scarred(segs, log)
  {
    if segs' != segs {
      if seg :| segs' == segs + [seg] { GrownScars(segs, log, seg); } else { RewrittenScars(segs, log, segs'); }
    }
  }

  lemma WrittenMoves(g: Geometry, d: Disk, w: Witness, d': Disk, entries: bool)
    requires Chained(Held(g), d.segs, w.log, w.tail) && w.tail.Some? && TailInside(d, w.tail)
    requires |d'.segs| == |d.segs| && d'.segs == d.segs[|d.segs| - 1 := LastSegment(d')]
    requires LastSegment(d').entries == if entries then WriteEntries(LastSegment(d), w.tail.value).entries else LastSegment(d).entries
    ensures SegmentsMove(d.segs, w.log, d'.segs)
  {
    if entries {
      WriteEntriesIsTorn(LastSegment(d), w.tail.value);
      TornMoves(g, d, w, WriteEntries(LastSegment(d), w.tail.value), LastSegment(d'));
    } else {
      TornMoves(g, d, w, LastSegment(d), LastSegment(d'));
    }
  }

  lemma CrashedMoves(g: Geometry, d: Disk, w: Witness, d': Disk, entries: bool, records: bool)
    requires Chained(Held(g), d.segs, w.log, w.tail) && w.tail.Some? && TailInside(d, w.tail)
    requires w.tail.value.at + Span(|w.tail.value.entries|) <= |LastSegment(d).slots|
    requires CrashedSegment(d, d', w.tail.value, entries, records)
    ensures SegmentsMove(d.segs, w.log, d'.segs)
  {
    var mid, end :| CrashedThrough(d, d', w.tail.value, entries, records, mid, end);
    TornMoves(g, d, w, mid, end);
  }

  /** A batch is being written, or written back. */
  predicate Aloft(g: Geometry, s: State, w: Witness) {
    && Chained(Held(g), s.disk.segs, w.log, w.tail) && w.tail.Some? && TailInside(s.disk, w.tail)
    && w.tail.value.at + Span(|w.tail.value.entries|) <= |LastSegment(s.disk).slots|
    && match s.pc {
         case PutEntries(c) => c.batch == w.tail
         case PutRecords(c) => c.batch == w.tail
         case PutBoth(c) => c.batch == w.tail
         case WriteBack(_, scan) => scan.verdicts.rewrite.Some? && scan.verdicts.rewrite.value.segment == |s.disk.segs| - 1
         case _ => false
       }
  }

  lemma IsAloft(g: Geometry, s: State, w: Witness)
    requires Inv(g, s, w) && InBatch(s.pc)
    ensures Aloft(g, s, w)
  {
    if s.pc.WriteBack? { TailExtent(g, s.disk, w); }
  }

  /** The active segment after a step or a crash, and how its entries came about. */
  predicate ActiveMoves(d: Disk, d': Disk) { d.segs != [] && |d'.segs| == |d.segs| && d'.segs == d.segs[|d.segs| - 1 := LastSegment(d')] }

  lemma StepWrites(s: State, s': State)
    requires EntriesStep(s, s') || RecordsStep(s, s') || BothStep(s, s')
    ensures ActiveMoves(s.disk, s'.disk)
    ensures LastSegment(s'.disk).entries
            == if s.pc.PutRecords? then LastSegment(s.disk).entries else WriteEntries(LastSegment(s.disk), s.pc.c.batch.value).entries
  {
  }

  lemma BackWrites(s: State, s': State)
    requires s.pc.WriteBack? && s.pc.scan.verdicts.rewrite.Some? && s.pc.scan.verdicts.rewrite.value.segment == |s.disk.segs| - 1
    requires (CrashStep(s, s') && s'.disk != s.disk) || WriteBackStep(s, s')
    ensures ActiveMoves(s.disk, s'.disk) && LastSegment(s'.disk).entries == LastSegment(s.disk).entries
  {
  }

  lemma PutMoves(g: Geometry, s: State, w: Witness, s': State)
    requires Aloft(g, s, w) && (EntriesStep(s, s') || RecordsStep(s, s') || BothStep(s, s'))
    ensures SegmentsMove(s.disk.segs, w.log, s'.disk.segs)
  {
    StepWrites(s, s');
    WrittenMoves(g, s.disk, w, s'.disk, !s.pc.PutRecords?);
  }

  lemma CrashMoves(g: Geometry, s: State, w: Witness, s': State)
    requires Aloft(g, s, w) && CrashStep(s, s') && !s.pc.WriteBack?
    ensures SegmentsMove(s.disk.segs, w.log, s'.disk.segs)
  {
    if s'.disk != s.disk { CrashedMoves(g, s.disk, w, s'.disk, !s.pc.PutRecords?, !s.pc.PutEntries?); }
  }

  lemma BackMoves(g: Geometry, s: State, w: Witness, s': State)
    requires Aloft(g, s, w) && s.pc.WriteBack? && (CrashStep(s, s') || WriteBackStep(s, s'))
    ensures SegmentsMove(s.disk.segs, w.log, s'.disk.segs)
  {
    if s'.disk != s.disk {
      BackWrites(s, s');
      WrittenMoves(g, s.disk, w, s'.disk, false);
    }
  }

  /** The step is one of those a batch being written can take. */
  lemma BatchSteps(g: Geometry, s: State, s': State)
    requires Next(g, s, s') && InBatch(s.pc)
    ensures CrashStep(s, s') || (if s.pc.WriteBack? then WriteBackStep(s, s') else EntriesStep(s, s') || RecordsStep(s, s') || BothStep(s, s'))
  {
  }

  lemma BatchMoves(g: Geometry, s: State, w: Witness, s': State)
    requires Aloft(g, s, w) && Next(g, s, s')
    ensures SegmentsMove(s.disk.segs, w.log, s'.disk.segs)
  {
    BatchSteps(g, s, s');
    if s.pc.WriteBack? { BackMoves(g, s, w, s'); }
    else if CrashStep(s, s') { CrashMoves(g, s, w, s'); }
    else { PutMoves(g, s, w, s'); }
  }

  lemma OtherMoves(g: Geometry, s: State, s': State)
    requires Next(g, s, s') && !s.pc.Sweep? && !InBatch(s.pc)
    ensures s'.disk.segs == s.disk.segs || (exists seg :: s'.disk.segs == s.disk.segs + [seg])
  {
  }

  lemma NextMoves(g: Geometry, s: State, w: Witness, s': State)
    requires Inv(g, s, w) && Next(g, s, s') && !s.pc.Sweep?
    ensures SegmentsMove(s.disk.segs, w.log, s'.disk.segs)
  {
    if InBatch(s.pc) {
      IsAloft(g, s, w);
      BatchMoves(g, s, w, s');
    } else {
      OtherMoves(g, s, s');
    }
  }

  // ---- an ordered commit, from its beginning to the scan after it was cut ----

  /** A commit in flight stays in flight until it returns or an open settles it. */
  lemma FlightStays(g: Geometry, s: State, s': State, a: Abs, a': Abs)
    requires Next(g, s, s') && Simulates(g, s, s', a, a') && a.flight.Some? && s'.pc != Sweep
    ensures a'.flight == a.flight
  {
  }

  lemma SegmentsLogged(g: Geometry, run: seq<State>, ws: seq<Witness>, i: nat)
    requires Witnessed(g, run, ws) && i < |run|
    ensures |run[i].disk.segs| == |ws[i].log|
  {
    assert InvAt(g, run, ws, i);
  }

  /** From the beginning of a commit on, until it returns or an open settles it. */
  predicate Unsettled(run: seq<State>, i: nat, j: nat) { i < j < |run| && forall k | i < k <= j :: run[k].pc != Sweep }

  lemma ScarsStepAt(g: Geometry, run: seq<State>, ws: seq<Witness>, k: nat)
    requires Run(g, run) && Witnessed(g, run, ws) && k + 1 < |run| && run[k].pc != Sweep && ws[k + 1].abs.flight.Some?
    ensures Scarred(run[k + 1].disk.segs, ws[k + 1].log) <==> Scarred(run[k].disk.segs, ws[k].log)
  {
    SegmentsMoveAt(g, run, ws, k);
    LogStaysAt(g, run, ws, k);
    SegmentsLogged(g, run, ws, k);
    SegmentsLogged(g, run, ws, k + 1);
    MovedScars(run[k].disk.segs, ws[k].log, run[k + 1].disk.segs, ws[k + 1].log);
  }

  lemma SegmentsMoveAt(g: Geometry, run: seq<State>, ws: seq<Witness>, k: nat)
    requires Run(g, run) && Witnessed(g, run, ws) && k + 1 < |run| && run[k].pc != Sweep
    ensures SegmentsMove(run[k].disk.segs, ws[k].log, run[k + 1].disk.segs)
  {
    assert Step(g, run, k) && InvAt(g, run, ws, k);
    NextMoves(g, run[k], ws[k], run[k + 1]);
  }

  lemma LogStaysAt(g: Geometry, run: seq<State>, ws: seq<Witness>, k: nat)
    requires Witnessed(g, run, ws) && k + 1 < |run|
    ensures LogStays(ws[k], ws[k + 1])
  {
    assert StandsAt(g, run, ws, k);
  }

  lemma FlightAt(g: Geometry, run: seq<State>, ws: seq<Witness>, k: nat)
    requires Run(g, run) && Witnessed(g, run, ws) && k + 1 < |run| && run[k + 1].pc != Sweep && ws[k].abs.flight.Some?
    ensures ws[k + 1].abs.flight == ws[k].abs.flight
  {
    assert Step(g, run, k) && StandsAt(g, run, ws, k);
    FlightStays(g, run[k], run[k + 1], ws[k].abs, ws[k + 1].abs);
  }

  lemma {:induction false} ScarsAlong(g: Geometry, run: seq<State>, ws: seq<Witness>, i: nat, j: nat)
    requires Run(g, run) && Witnessed(g, run, ws) && Unsettled(run, i, j) && run[i].pc == Ready && ws[i + 1].abs.flight.Some?
    ensures ws[j].abs.flight == ws[i + 1].abs.flight
    ensures Scarred(run[j].disk.segs, ws[j].log) <==> Scarred(run[i].disk.segs, ws[i].log)
    decreases j
  {
    if i < j - 1 {
      ScarsAlong(g, run, ws, i, j - 1);
      FlightAt(g, run, ws, j - 1);
    }
    ScarsStepAt(g, run, ws, j - 1);
  }

  lemma BegunAt(g: Geometry, run: seq<State>, ws: seq<Witness>, i: nat, batch: Batch, plan: Plan)
    requires Witnessed(g, run, ws) && i + 1 < |run| && BeginStep(g, run[i], run[i + 1], batch, plan)
    ensures run[i].pc == Ready && ws[i + 1].abs.flight.Some? && Ordered(ws[i + 1].abs.flight.value) == (plan.ordered || batch.writes == [])
  {
    assert StandsAt(g, run, ws, i);
    BegunOrdered(g, run[i], run[i + 1], ws[i].abs, ws[i + 1].abs, batch, plan);
  }

  /** Nothing of it can be soft: it is ordered, or it writes nothing. */
  predicate Ordered(f: Flight) { f.ordered || f.ops == [] }

  lemma BegunOrdered(g: Geometry, s: State, s': State, a: Abs, a': Abs, batch: Batch, plan: Plan)
    requires BeginStep(g, s, s', batch, plan) && Simulates(g, s, s', a, a')
    ensures a'.flight.Some? && Ordered(a'.flight.value) == (plan.ordered || batch.writes == [])
  {
    var other, chosen :| BeginStep(g, s, s', other, chosen) && Takes(a, other, chosen.ordered, a');
  }

  // ---- the scan before it and the scan after it ----

  lemma ReadyScars(g: Geometry, s: State, w: Witness)
    requires Inv(g, s, w) && s.pc.Ready?
    ensures var r := ScanBy(g, s.disk, s.mem.meta); r.Ok? && (r.value.verdicts.ambiguous == [] <==> !Scarred(s.disk.segs, w.log))
  {
    ScanScars(g, s.disk, w.log, s.mem.meta);
  }

  lemma OrderedTail(abs: Abs, tail: Option<Placed>)
    requires Pending(abs, tail) && abs.flight.Some? && Ordered(abs.flight.value)
    ensures tail.Some? ==> tail.value.firm
  {
  }

  lemma DiskScars(g: Geometry, d: Disk, w: Witness, m: Meta)
    requires DiskInvOf(Held(g), g, d, w) && d.a == Copy(m) && w.abs.flight.Some? && Ordered(w.abs.flight.value)
    ensures var r := ScanBy(g, d, m); r.Ok? && (r.value.verdicts.ambiguous == [] || Scarred(d.segs, w.log))
  {
    var w' := DropInvisible(g, d, w);
    OrderedTail(w'.abs, w'.tail);
    if w'.tail.Some? { ScanFindsLog(g, d, w'.log, w'.tail, m); } else { ScanScars(g, d, w'.log, m); }
  }

  lemma ScanningScars(g: Geometry, s: State, w: Witness)
    requires Inv(g, s, w) && s.pc.Scanning? && w.abs.flight.Some? && Ordered(w.abs.flight.value)
    ensures var r := ScanBy(g, s.disk, s.pc.meta); r.Ok? && (r.value.verdicts.ambiguous == [] || Scarred(s.disk.segs, w.log))
  {
    DiskScars(g, s.disk, w, s.pc.meta);
  }

  lemma ReadyAt(g: Geometry, run: seq<State>, ws: seq<Witness>, i: nat)
    requires Witnessed(g, run, ws) && i < |run| && run[i].pc.Ready?
    ensures var r := ScanBy(g, run[i].disk, run[i].mem.meta);
            r.Ok? && (r.value.verdicts.ambiguous == [] <==> !Scarred(run[i].disk.segs, ws[i].log))
  {
    assert InvAt(g, run, ws, i);
    ReadyScars(g, run[i], ws[i]);
  }

  lemma ScanningAt(g: Geometry, run: seq<State>, ws: seq<Witness>, j: nat)
    requires Witnessed(g, run, ws) && j < |run| && run[j].pc.Scanning? && ws[j].abs.flight.Some? && Ordered(ws[j].abs.flight.value)
    ensures var r := ScanBy(g, run[j].disk, run[j].pc.meta);
            r.Ok? && r.value.verdicts.corrupt == [] && (r.value.verdicts.ambiguous == [] || Scarred(run[j].disk.segs, ws[j].log))
  {
    assert InvAt(g, run, ws, j);
    ScanningReports(g, run[j], ws[j]);
    ScanningScars(g, run[j], ws[j]);
  }

  /** An ordered commit that is cut, wherever and however often, adds nothing to what was ambiguous. */
  lemma OrderedCutAddsNone(g: Geometry, run: seq<State>, i: nat, j: nat, batch: Batch, plan: Plan)
    requires g.Valid() && Run(g, run) && Unsettled(run, i, j) && run[j].pc.Scanning?
    requires BeginStep(g, run[i], run[i + 1], batch, plan) && plan.ordered
    ensures var before, after := ScanBy(g, run[i].disk, run[i].mem.meta), ScanBy(g, run[j].disk, run[j].pc.meta);
            && before.Ok? && after.Ok? && after.value.verdicts.corrupt == []
            && (before.value.verdicts.ambiguous == [] ==> after.value.verdicts.ambiguous == [])
  {
    var ws := RunWitnessed(g, run);
    BegunAt(g, run, ws, i, batch, plan);
    ScarsAlong(g, run, ws, i, j);
    ReadyAt(g, run, ws, i);
    ScanningAt(g, run, ws, j);
  }

  // ---- exactly when ----

  /** The run goes on with this commit, a crash before it returns, and an open up to its scan. */
  ghost predicate Cuts(g: Geometry, run: seq<State>, more: seq<State>, batch: Batch, plan: Plan) {
    && run != [] && more != [] && Run(g, run + more) && BeginStep(g, run[|run| - 1], more[0], batch, plan)
    && (forall k | 0 <= k < |more| :: more[k].pc != Sweep) && more[|more| - 1].pc.Scanning?
  }

  /** The scan under way finds nothing corrupt and nothing ambiguous. */
  predicate Clean(g: Geometry, s: State) {
    s.pc.Scanning? && var r := ScanBy(g, s.disk, s.pc.meta); r.Ok? && r.value.verdicts.corrupt == [] && r.value.verdicts.ambiguous == []
  }

  lemma CutIsClean(g: Geometry, run: seq<State>, more: seq<State>, batch: Batch, plan: Plan)
    requires g.Valid() && Cuts(g, run, more, batch, plan) && plan.ordered
    requires var r := ScanBy(g, run[|run| - 1].disk, run[|run| - 1].mem.meta); r.Ok? && r.value.verdicts.ambiguous == []
    ensures Clean(g, more[|more| - 1])
  {
    var all, i, j := run + more, |run| - 1, |run| + |more| - 1;
    assert all[i] == run[i] && all[i + 1] == more[0] && all[j] == more[|more| - 1];
    forall k | i < k <= j ensures all[k].pc != Sweep { assert all[k] == more[k - |run|]; }
    OrderedCutAddsNone(g, all, i, j, batch, plan);
  }

  // ---- a cut that shows what was there before ----

  /** The commit begins, power is lost at once, and the journal is opened up to its scan. */
  function CutAtOnce(s: State, s': State): seq<State> {
    var down := s'.(pc := Down);
    var picking := down.(pc := PickSpare(s.mem.meta));
    [s', down, picking, State(picking.disk.(spares := KeepOneSpare(picking.disk.spares, Firsts(picking.disk))), Scanning(s.mem.meta), picking.mem)]
  }

  lemma CutFalls(g: Geometry, s: State, s': State, batch: Batch, plan: Plan)
    requires BeginStep(g, s, s', batch, plan)
    ensures Next(g, s, s') && Next(g, s', s'.(pc := Down))
  {
    assert CommitNext(g, s, s');
    assert CrashStep(s', s'.(pc := Down));
  }

  lemma CutOpens(g: Geometry, down: State, m: Meta)
    requires down.pc == Down && BothCopies(down.disk, m)
    ensures var picking := down.(pc := PickSpare(m));
            && Next(g, down, picking)
            && Next(g, picking, State(down.disk.(spares := KeepOneSpare(down.disk.spares, Firsts(down.disk))), Scanning(m), down.mem))
  {
    var picking := down.(pc := PickSpare(m));
    assert OpenStep(down, picking);
    assert PickStep(picking, State(down.disk.(spares := KeepOneSpare(down.disk.spares, Firsts(down.disk))), Scanning(m), down.mem));
  }

  lemma CutAtOnceSteps(g: Geometry, s: State, s': State, batch: Batch, plan: Plan)
    requires BeginStep(g, s, s', batch, plan) && BothCopies(s.disk, s.mem.meta)
    ensures var more := CutAtOnce(s, s');
            && Next(g, s, more[0]) && more[0] == s' && s'.pc != Sweep
            && forall k {:trigger more[k]} | 0 <= k < |more| - 1 :: Next(g, more[k], more[k + 1])
  {
    CutFalls(g, s, s', batch, plan);
    CutOpens(g, s'.(pc := Down), s.mem.meta);
  }

  lemma RunExtends(g: Geometry, run: seq<State>, more: seq<State>)
    requires Run(g, run) && more != [] && Next(g, run[|run| - 1], more[0])
    requires forall k {:trigger more[k]} | 0 <= k < |more| - 1 :: Next(g, more[k], more[k + 1])
    ensures Run(g, run + more)
  {
    var all := run + more;
    forall i | 0 <= i < |all| - 1 ensures Step(g, all, i) {
      if i < |run| - 1 {
        assert Step(g, run, i) && all[i] == run[i] && all[i + 1] == run[i + 1];
      } else if i >= |run| {
        assert all[i] == more[i - |run|] && all[i + 1] == more[i - |run| + 1];
      }
    }
  }

  lemma CopiesAgree(g: Geometry, run: seq<State>)
    requires g.Valid() && Run(g, run) && run[|run| - 1].pc.Ready?
    ensures BothCopies(run[|run| - 1].disk, run[|run| - 1].mem.meta)
  {
    var ws := RunWitnessed(g, run);
    assert InvAt(g, run, ws, |run| - 1);
  }

  lemma CutAtOnceRuns(g: Geometry, run: seq<State>, s': State, batch: Batch, plan: Plan)
    requires Run(g, run) && BeginStep(g, run[|run| - 1], s', batch, plan)
    requires BothCopies(run[|run| - 1].disk, run[|run| - 1].mem.meta)
    ensures Run(g, run + CutAtOnce(run[|run| - 1], s')) && s'.pc != Sweep
  {
    CutAtOnceSteps(g, run[|run| - 1], s', batch, plan);
    RunExtends(g, run, CutAtOnce(run[|run| - 1], s'));
  }

  lemma CutAtOnceCuts(g: Geometry, run: seq<State>, s': State, batch: Batch, plan: Plan)
    requires g.Valid() && Run(g, run) && BeginStep(g, run[|run| - 1], s', batch, plan)
    ensures Cuts(g, run, CutAtOnce(run[|run| - 1], s'), batch, plan)
  {
    CopiesAgree(g, run);
    CutAtOnceRuns(g, run, s', batch, plan);
  }

  lemma ReadyScans(g: Geometry, run: seq<State>)
    requires g.Valid() && Run(g, run) && run[|run| - 1].pc.Ready?
    ensures ScanBy(g, run[|run| - 1].disk, run[|run| - 1].mem.meta).Ok?
  {
    var ws := RunWitnessed(g, run);
    ReadyAt(g, run, ws, |run| - 1);
  }

  /** An ordered commit leaves nothing corrupt and nothing ambiguous, however it is cut, exactly when
      the scan of the disk it begins on finds nothing ambiguous. */
  lemma OrderedCutIsClean(g: Geometry, run: seq<State>, s': State, batch: Batch, plan: Plan)
    requires g.Valid() && Run(g, run) && BeginStep(g, run[|run| - 1], s', batch, plan) && plan.ordered
    ensures var r := ScanBy(g, run[|run| - 1].disk, run[|run| - 1].mem.meta);
            && r.Ok?
            && (r.value.verdicts.ambiguous == [] <==> forall more | Cuts(g, run, more, batch, plan) :: Clean(g, more[|more| - 1]))
  {
    var s := run[|run| - 1];
    ReadyScans(g, run);
    CutAtOnceCuts(g, run, s', batch, plan);
    if ScanBy(g, s.disk, s.mem.meta).value.verdicts.ambiguous == [] {
      forall more | Cuts(g, run, more, batch, plan) ensures Clean(g, more[|more| - 1]) { CutIsClean(g, run, more, batch, plan); }
    } else {
      assert !Clean(g, CutAtOnce(s, s')[3]);
    }
  }
}
