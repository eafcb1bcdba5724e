/** Open: the metainfo is chosen and repaired, the log scanned, the batch in flight settled, and a
    new generation begun. */
module OpenSteps {
  import opened Format
  import opened Ops
  import opened Recover
  import opened Log
  import opened Verdict
  import opened Writes
  import opened Tail
  import opened Spec
  import opened Runs
  import opened Invariant
  import opened DiskSteps
  import opened MemSteps
  import opened Begin
  import opened PutSteps
  import opened ScanSteps
  import opened CommitSteps
  import opened CrashSteps

  // ---- the metainfo and the spare ----

  lemma Open(inv: SegmentInv, g: Geometry, s: State, w: Witness, s': State)
    requires InvOf(inv, g, s, w) && OpenStep(s, s')
    ensures InvOf(inv, g, s', w)
  {
  }

  /** The stale copy is written over with the value of the other one. */
  lemma RepairedKeeps(inv: SegmentInv, g: Geometry, d: Disk, w: Witness, which: Which, m: Meta)
    requires DiskInvOf(inv, g, d, w) && CopyAt(d, Other(which)) == Copy(m)
    ensures DiskInvOf(inv, g, PutCopy(d, which, Copy(m)), w) && BothCopies(PutCopy(d, which, Copy(m)), m)
  {
    TornCopyKeeps(inv, g, d, w, which, m, PutCopy(d, which, Copy(m)));
  }

  lemma Repair(inv: SegmentInv, g: Geometry, s: State, w: Witness, s': State)
    requires InvOf(inv, g, s, w) && RepairStep(s, s')
    ensures InvOf(inv, g, s', w)
  {
    RepairedKeeps(inv, g, s.disk, w, s.pc.which, s.pc.meta);
  }

  lemma AliasIsNamed(spare: Spare, firsts: set<nat>)
    requires spare.Alias? && spare.first in firsts
    ensures NamedBatches(spare) * firsts != {}
  {
    assert spare.first in NamedBatches(spare) * firsts;
  }

  /** The spare that is kept is a file of its own. */
  lemma {:induction false} KeptSpare(spares: seq<Spare>, firsts: set<nat>)
    requires forall i {:trigger spares[i]} | 0 <= i < |spares| :: spares[i].Alias? ==> spares[i].first in firsts
    ensures var kept := KeepOneSpare(spares, firsts);
            kept == [] || (|kept| == 1 && kept[0].Own? && kept[0] in spares)
  {
    if spares != [] {
      if spares[0].Alias? { AliasIsNamed(spares[0], firsts); }
      if NamedBatches(spares[0]) * firsts != {} {
        forall i {:trigger spares[1..][i]} | 0 <= i < |spares[1..]| ensures spares[1..][i].Alias? ==> spares[1..][i].first in firsts {
          assert spares[1..][i] == spares[i + 1];
        }
        KeptSpare(spares[1..], firsts);
      }
    }
  }

  lemma OneIsKept(g: Geometry, d: Disk)
    requires SparesOk(g, d)
    ensures var kept := KeepOneSpare(d.spares, Firsts(d));
            OneSpare(d.(spares := kept)) && forall x | x in kept :: x in d.spares
  {
    KeptSpare(d.spares, Firsts(d));
  }

  lemma Pick(inv: SegmentInv, g: Geometry, s: State, w: Witness, s': State)
    requires InvOf(inv, g, s, w) && PickStep(s, s')
    ensures InvOf(inv, g, s', w)
  {
    OneIsKept(g, s.disk);
    FewerSpares(inv, g, s.disk, w, s'.disk);
  }

  // ---- the scan ----

  lemma InvisibleAt(g: Geometry, d: Disk, w: Witness)
    requires Chained(Held(g), d.segs, w.log, w.tail) && TailInside(d, w.tail) && w.tail.Some?
    requires !Visible(LastSegment(d), w.tail.value)
    ensures !AllEvident(LastSegment(d), w.tail.value) && Held(g)(LastSegment(d), w.log[|w.log| - 1], None)
  {
    if AllEvident(LastSegment(d), w.tail.value) {
      SolidIsWhole(LastSegment(d), w.tail.value);
      assert false;
    }
    ActiveInv(g, d, w);
    InvisibleKeeps(g, LastSegment(d), w.log[|w.log| - 1], w.tail.value);
  }

  /** A batch of which nothing is left is gone. */
  lemma DropInvisible(g: Geometry, d: Disk, w: Witness) returns (w': Witness)
    requires DiskInvOf(Held(g), g, d, w)
    ensures DiskInvOf(Held(g), g, d, w') && w'.abs == w.abs && w'.log == w.log && TailVisible(d, w'.tail)
  {
    if w.tail.Some? && !Visible(LastSegment(d), w.tail.value) {
      InvisibleAt(g, d, w);
      TailDrops(Held(g), g, d, w);
      w' := w.(tail := None);
    } else {
      w' := w;
    }
  }

  lemma KeptPending(abs: Abs, seg: Segment, t: Placed, k: Placed)
    requires Pending(abs, Some(t)) && k == t.(live := k.live) && WellFormed(k) && PrefixOk(seg, k)
    ensures Pending(abs, Some(k))
  {
    if abs.flight.value.ordered {
      forall i, j | 0 <= i <= j < |k.live| && k.live[j] ensures k.live[i] {
        assert Reaches(seg, k, j);
      }
    }
  }

  lemma KeepTailOf(inv: SegmentInv, g: Geometry, d: Disk, w: Witness, k: Placed)
    requires DiskInvOf(inv, g, d, w) && w.tail.Some? && k == w.tail.value.(live := k.live) && WellFormed(k)
    requires inv(LastSegment(d), w.log[|w.log| - 1], Some(k)) && PrefixOk(LastSegment(d), k)
    requires AllEvident(LastSegment(d), w.tail.value) ==> k == w.tail.value
    ensures DiskInvOf(inv, g, d, w.(tail := Some(k)))
  {
    if !AllEvident(LastSegment(d), w.tail.value) {
      MissingIsUnvouched(d, w);
      KeptPending(w.abs, LastSegment(d), w.tail.value, k);
      assert d.segs[Active(d) := LastSegment(d)] == d.segs;
      TailWriteKeeps(inv, g, d, w, LastSegment(d), k);
    }
  }

  lemma KeptAtLast(g: Geometry, d: Disk, w: Witness)
    requires Chained(Held(g), d.segs, w.log, w.tail) && TailInside(d, w.tail) && w.tail.Some?
    ensures var k := Kept(LastSegment(d), w.tail.value);
            && Held(g)(LastSegment(d), w.log[|w.log| - 1], Some(k)) && PrefixOk(LastSegment(d), k)
            && (AllEvident(LastSegment(d), w.tail.value) ==> k == w.tail.value)
  {
    ActiveInv(g, d, w);
    KeptKeeps(g, LastSegment(d), w.log[|w.log| - 1], w.tail.value);
  }

  /** Of the others, recovery keeps what survives. */
  lemma KeepTail(g: Geometry, d: Disk, w: Witness)
    requires DiskInvOf(Held(g), g, d, w)
    ensures DiskInvOf(Held(g), g, d, w.(tail := KeptTail(d, w.tail)))
    ensures w.tail.Some? ==> PrefixOk(LastSegment(d), KeptTail(d, w.tail).value)
  {
    if w.tail.Some? {
      KeptAtLast(g, d, w);
      KeepTailOf(Held(g), g, d, w, Kept(LastSegment(d), w.tail.value));
    }
  }

  lemma SameTail(d: Disk, tail: Option<Placed>)
    requires TailInside(d, tail)
    ensures TailInside(d, KeptTail(d, tail))
    ensures tail.Some? ==> (AllEvident(LastSegment(d), KeptTail(d, tail).value) <==> AllEvident(LastSegment(d), tail.value))
  {
    if tail.Some? {
      var k := KeptTail(d, tail).value;
      forall i | 0 <= i < |k.entries| ensures Evident(LastSegment(d), k, i) <==> Evident(LastSegment(d), tail.value, i) {
      }
    }
  }

  /** What the scan returns of a disk whose batch in flight is visible. */
  lemma ScanReturns(g: Geometry, d: Disk, w: Witness, m: Meta)
    requires DiskInvOf(Held(g), g, d, w) && TailVisible(d, w.tail) && MetaOk(m, d, w)
    ensures var r, w' := ScanAll(g, d.segs, StaleOf(m)), w.(tail := KeptTail(d, w.tail));
            && r.Ok? && DiskInvOf(Held(g), g, d, w') && ScanOk(g, d, w', r.value)
            && r.value.verdicts.rewrite == TailRewrite(d, w.tail) && m.lastBatch <= r.value.lastBatch
  {
    ScanFindsLog(g, d, w.log, w.tail, m);
    KeepTail(g, d, w);
    KeptLast(d, w.log, w.tail);
    LogUpTo(g, d, w.log, w.tail, |d.segs|);
    if w.tail.Some? { MergedLast(d.segs, w.log, w.tail.value); }
  }

  /** Recovery's next state: the batch in flight is whole on disk, or its records are written back. */
  predicate RewriteFits(d: Disk, w: Witness, rewrite: Option<Rewrite>)
    requires TailInside(d, w.tail)
  {
    match rewrite
    case None => TailSolid(d, w)
    case Some(r) =>
      && w.tail.Some? && !AllEvident(LastSegment(d), w.tail.value)
      && r == Rewrite(|d.segs| - 1, w.tail.value.at, Verdict.Records(w.tail.value))
  }

  lemma ScanSettles(g: Geometry, s: State, w: Witness, m: Meta, scan: Scan)
    requires BothCopies(s.disk, m) && OneSpare(s.disk) && m.generation + 1 < 0x100_0000
    requires ScanOk(g, s.disk, w, scan) && m.lastBatch <= scan.lastBatch && RewriteFits(s.disk, w, scan.verdicts.rewrite)
    ensures PcInv(g, s.(pc := AfterScan(m, Ok(scan))), w)
  {
    if scan.verdicts.rewrite.Some? {
      assert PcInv(g, s.(pc := WriteBack(m, scan)), w);
    } else {
      assert PcInv(g, s.(pc := GenerationA(NextGeneration(m, scan.lastBatch), scan)), w);
    }
  }

  lemma RewriteSuits(d: Disk, w: Witness)
    requires TailInside(d, w.tail)
    ensures var w' := w.(tail := KeptTail(d, w.tail));
            TailInside(d, w'.tail) && RewriteFits(d, w', TailRewrite(d, w.tail))
  {
    SameTail(d, w.tail);
  }

  lemma ScanOutcome(g: Geometry, d: Disk, w: Witness, m: Meta) returns (w': Witness)
    requires DiskInvOf(Held(g), g, d, w) && (d.a == Copy(m) || d.b == Copy(m))
    ensures DiskInvOf(Held(g), g, d, w') && w'.abs == w.abs && w'.log == w.log
    ensures var r := ScanAll(g, d.segs, StaleOf(m));
            && r.Ok? && ScanOk(g, d, w', r.value) && RewriteFits(d, w', r.value.verdicts.rewrite)
            && m.lastBatch <= r.value.lastBatch
  {
    var w0 := DropInvisible(g, d, w);
    ScanReturns(g, d, w0, m);
    RewriteSuits(d, w0);
    w' := w0.(tail := KeptTail(d, w0.tail));
  }

  lemma ScansOf(inv: SegmentInv, g: Geometry, s: State, w: Witness, m: Meta, scan: Scan)
    requires g.Valid() && BothCopies(s.disk, m) && OneSpare(s.disk) && m.generation + 1 < 0x100_0000
    requires DiskInvOf(inv, g, s.disk, w) && ScanOk(g, s.disk, w, scan)
    requires RewriteFits(s.disk, w, scan.verdicts.rewrite) && m.lastBatch <= scan.lastBatch
    ensures InvOf(inv, g, s.(pc := AfterScan(m, Ok(scan))), w)
  {
    ScanSettles(g, s, w, m, scan);
  }

  lemma Scans(g: Geometry, s: State, w: Witness, s': State) returns (w': Witness)
    requires Inv(g, s, w) && Runs.ScanStep(g, s, s')
    ensures Inv(g, s', w') && w'.abs == w.abs && w'.log == w.log
  {
    w' := ScanOutcome(g, s.disk, w, s.pc.meta);
    ScansOf(Held(g), g, s, w', s.pc.meta, ScanAll(g, s.disk.segs, StaleOf(s.pc.meta)).value);
  }

  // ---- the records are written back ----

  lemma BlocksAreRecords(n: nat, t: Placed)
    requires |t.entries| == |t.live|
    ensures KeptBlocks(Rewrite(n, t.at, Verdict.Records(t))) == RecordBlocks(t)
  {
  }

  lemma ScanOkStays(g: Geometry, d: Disk, w: Witness, scan: Scan, seg: Segment)
    requires ScanOk(g, d, w, scan) && w.tail.Some? && CellsFrom(LastSegment(d), seg, w.tail.value.seqno)
    requires PrefixOk(seg, w.tail.value)
    ensures ScanOk(g, PutSegment(d, Active(d), seg), w, scan)
  {
    SameHeadersSameOps(d.segs, d.segs[Active(d) := seg], Merged(w.log, w.tail));
  }

  lemma TailRecords(inv: SegmentInv, g: Geometry, d: Disk, w: Witness, seg: Segment)
    requires DiskInvOf(inv, g, d, w) && w.tail.Some? && !AllEvident(LastSegment(d), w.tail.value)
    requires CellsFrom(LastSegment(d), seg, w.tail.value.seqno) && inv(seg, w.log[|w.log| - 1], w.tail)
    ensures DiskInvOf(inv, g, PutSegment(d, Active(d), seg), w)
  {
    MissingIsUnvouched(d, w);
    TailWriteKeeps(inv, g, d, w, seg, w.tail.value);
  }

  lemma WrittenBack(inv: SegmentInv, g: Geometry, s: State, w: Witness, s': State, seg: Segment)
    requires InvOf(inv, g, s, w) && s.pc.WriteBack?
    requires s' == State(PutSegment(s.disk, Active(s.disk), seg), GenerationA(NextGeneration(s.pc.meta, s.pc.scan.lastBatch), s.pc.scan), s.mem)
    requires CellsFrom(LastSegment(s.disk), seg, w.tail.value.seqno) && inv(seg, w.log[|w.log| - 1], w.tail)
    requires AllEvident(seg, w.tail.value) && PrefixOk(seg, w.tail.value)
    ensures InvOf(inv, g, s', w)
  {
    TailRecords(inv, g, s.disk, w, seg);
    ScanOkStays(g, s.disk, w, s.pc.scan, seg);
  }

  /** The extent fits: the batch in flight lies inside its segment. */
  lemma TailExtent(g: Geometry, d: Disk, w: Witness)
    requires Chained(Held(g), d.segs, w.log, w.tail) && w.tail.Some? && TailInside(d, w.tail)
    ensures w.tail.value.at + Span(|w.tail.value.entries|) <= |LastSegment(d).slots|
  {
    ActiveInv(g, d, w);
  }

  lemma WriteBackAt(g: Geometry, d: Disk, w: Witness)
    requires Chained(Held(g), d.segs, w.log, w.tail) && w.tail.Some? && TailInside(d, w.tail)
    requires PrefixOk(LastSegment(d), w.tail.value)
    requires w.tail.value.at + Span(|w.tail.value.entries|) <= |LastSegment(d).slots|
    ensures var now := WriteRecords(LastSegment(d), w.tail.value);
            && Held(g)(now, w.log[|w.log| - 1], w.tail) && AllEvident(now, w.tail.value) && PrefixOk(now, w.tail.value)
            && CellsFrom(LastSegment(d), now, w.tail.value.seqno)
  {
    ActiveInv(g, d, w);
    RecordsDone(g, LastSegment(d), w.log[|w.log| - 1], w.tail.value);
  }

  lemma WriteBackIs(s: State, s': State, t: Placed)
    requires WriteBackStep(s, s') && s.disk.segs != [] && |t.entries| == |t.live|
    requires t.at + Span(|t.entries|) <= |LastSegment(s.disk).slots|
    requires s.pc.scan.verdicts.rewrite == Some(Rewrite(|s.disk.segs| - 1, t.at, Verdict.Records(t)))
    ensures s' == State(PutSegment(s.disk, Active(s.disk), WriteRecords(LastSegment(s.disk), t)),
                        GenerationA(NextGeneration(s.pc.meta, s.pc.scan.lastBatch), s.pc.scan), s.mem)
  {
    BlocksAreRecords(|s.disk.segs| - 1, t);
  }

  lemma WritesBack(g: Geometry, s: State, w: Witness, s': State)
    requires Inv(g, s, w) && WriteBackStep(s, s')
    ensures Inv(g, s', w)
  {
    var t := w.tail.value;
    TailExtent(g, s.disk, w);
    WriteBackAt(g, s.disk, w);
    WriteBackIs(s, s', t);
    WrittenBack(Held(g), g, s, w, s', WriteRecords(LastSegment(s.disk), t));
  }

  lemma TornBackAt(g: Geometry, d: Disk, w: Witness, torn: Segment)
    requires Chained(Held(g), d.segs, w.log, w.tail) && w.tail.Some? && TailInside(d, w.tail)
    requires PrefixOk(LastSegment(d), w.tail.value)
    requires w.tail.value.at + Span(|w.tail.value.entries|) <= |LastSegment(d).slots|
    requires TornRecords(LastSegment(d), w.tail.value, torn)
    ensures Held(g)(torn, w.log[|w.log| - 1], w.tail) && CellsFrom(LastSegment(d), torn, w.tail.value.seqno)
  {
    ActiveInv(g, d, w);
    RecordsTorn(g, LastSegment(d), w.log[|w.log| - 1], w.tail.value, torn);
  }

  lemma TornBackIs(d: Disk, d': Disk, t: Placed)
    requires d.segs != [] && |t.entries| == |t.live| && t.at + Span(|t.entries|) <= |LastSegment(d).slots|
    requires TornWriteBack(d, d', Rewrite(|d.segs| - 1, t.at, Verdict.Records(t)))
    ensures d'.segs != [] && TornRecords(LastSegment(d), t, LastSegment(d')) && d' == PutSegment(d, Active(d), LastSegment(d'))
  {
    BlocksAreRecords(|d.segs| - 1, t);
  }

  lemma CrashWriteBack(g: Geometry, s: State, w: Witness, d: Disk)
    requires Inv(g, s, w) && s.pc.WriteBack? && CrashLeaves(s, d) && d != s.disk
    ensures DiskInvOf(Held(g), g, d, w)
  {
    TailExtent(g, s.disk, w);
    TornBackIs(s.disk, d, w.tail.value);
    TornBackAt(g, s.disk, w, LastSegment(d));
    TailRecords(Held(g), g, s.disk, w, LastSegment(d));
  }

  // ---- the new generation ----

  /** The new generation's metainfo vouches for the whole log and rules out everything older. */
  predicate UpTo(d: Disk, w: Witness)
    requires |d.segs| == |w.log|
  {
    && (forall s, k {:trigger w.log[s][k]} | 0 <= s < |w.log| && 0 <= k < |w.log[s]| ::
          w.log[s][k].seqno <= LastBefore(d.segs, w.log, |d.segs|))
    && (w.tail.Some? ==> w.tail.value.seqno > LastBefore(d.segs, w.log, |d.segs|))
  }

  lemma GenerationOk(m: Meta, d: Disk, w: Witness, last: nat)
    requires |d.segs| == |w.log| && TailInside(d, w.tail) && MetaOk(m, d, w) && TailSolid(d, w) && UpTo(d, w)
    requires last == LastBefore(d.segs, Merged(w.log, w.tail), |d.segs|) && m.generation + 1 < 0x100_0000
    ensures MetaOk(NextGeneration(m, last), d, w)
  {
    var m' := NextGeneration(m, last);
    if w.tail.Some? { MergedLast(d.segs, w.log, w.tail.value); }
    NumberedGrows(d, m.generation + 1, 0, m'.generation + 1, 0);
    forall s, k {:trigger w.log[s][k]} | 0 <= s < |w.log| && 0 <= k < |w.log[s]| ensures !StaleOf(m').IsStale(w.log[s][k].seqno) {
      assert w.log[s][k].seqno <= LastBefore(d.segs, w.log, |d.segs|);
    }
  }

  lemma WriteGenerationA(inv: SegmentInv, g: Geometry, d: Disk, w: Witness, scan: Scan, d': Disk)
    requires DiskInvOf(inv, g, d, w) && d.a.Copy? && d.b == d.a && ScanOk(g, d, w, scan) && TailSolid(d, w) && UpTo(d, w)
    requires d.a.meta.generation + 1 < 0x100_0000 && TornCopy(d, A, NextGeneration(d.a.meta, scan.lastBatch), d')
    ensures DiskInvOf(inv, g, d', w)
  {
    GenerationOk(d.a.meta, d, w, scan.lastBatch);
    TornCopyKeeps(inv, g, d, w, A, NextGeneration(d.a.meta, scan.lastBatch), d');
  }

  lemma GenerationAOf(inv: SegmentInv, g: Geometry, s: State, w: Witness, s': State)
    requires InvOf(inv, g, s, w) && GenerationAStep(s, s') && UpTo(s.disk, w)
    ensures InvOf(inv, g, s', w)
  {
    WriteGenerationA(inv, g, s.disk, w, s.pc.scan, s'.disk);
  }

  lemma StartsGeneration(g: Geometry, s: State, w: Witness, s': State)
    requires Inv(g, s, w) && GenerationAStep(s, s')
    ensures Inv(g, s', w)
  {
    LogUpTo(g, s.disk, w.log, w.tail, |s.disk.segs|);
    GenerationAOf(Held(g), g, s, w, s');
  }

  lemma CrashGenerationA(g: Geometry, s: State, w: Witness, d: Disk)
    requires Inv(g, s, w) && s.pc.GenerationA? && CrashLeaves(s, d) && d != s.disk
    ensures DiskInvOf(Held(g), g, d, w)
  {
    LogUpTo(g, s.disk, w.log, w.tail, |s.disk.segs|);
    WriteGenerationA(Held(g), g, s.disk, w, s.pc.scan, d);
  }

  lemma CrashGenerationB(inv: SegmentInv, g: Geometry, s: State, w: Witness, d: Disk)
    requires InvOf(inv, g, s, w) && s.pc.GenerationB? && CrashLeaves(s, d) && d != s.disk
    ensures DiskInvOf(inv, g, d, w)
  {
    TornCopyKeeps(inv, g, s.disk, w, B, s.pc.meta, d);
  }

  // ---- the journal is open ----

  function Recovered(d: Disk, w: Witness, m: Meta): Witness
    requires TailInside(d, w.tail)
  {
    Witness(Abs(w.abs.hist + MapOps(CellOfItem, TailOps(d, w.tail)), m.floor, m.bytes, None), Merged(w.log, w.tail), None)
  }

  /** Nothing of the commit in flight is left: none of its writes survived. */
  lemma RecoversNothing(a: Abs, m: Meta, durable: bool)
    requires a.flight.Some? && (durable ==> a.flight.value.ops == [])
    requires (m.floor == a.floor && m.bytes == a.bytes) || (durable && m.floor == a.flight.value.floor && m.bytes == a.flight.value.bytes)
    ensures Recovers(a, Abs(a.hist, m.floor, m.bytes, None))
  {
    var ops := a.flight.value.ops;
    var live := seq(|ops|, _ => false);
    SurvivorsNone(ops, live, false);
    assert a.hist + [] == a.hist;
    assert RecoversWith(a, Abs(a.hist, m.floor, m.bytes, None), live, false);
  }

  /** What recovery makes of the commit in flight is what a crash may keep of it. */
  lemma RecoveredIs(d: Disk, w: Witness, m: Meta)
    requires |d.segs| == |w.log| && TailInside(d, w.tail) && Pending(w.abs, w.tail) && Installs(m, d, w)
    ensures w.abs.flight.Some? ==> Recovers(w.abs, Recovered(d, w, m).abs)
    ensures w.abs.flight.None? ==> Recovered(d, w, m).abs == w.abs
  {
    var a := Recovered(d, w, m).abs;
    if w.tail.Some? {
      var t := w.tail.value;
      BatchSurvivors(LastSegment(d).first, t);
      assert RecoversWith(w.abs, a, t.live, !t.firm);
    } else {
      assert a.hist == w.abs.hist;
      if w.abs.flight.Some? { RecoversNothing(w.abs, m, FlightDurable(d, w)); }
    }
  }

  lemma RecoveredIndex(ops: seq<Op<Located>>, of: seq<Op<Item>>, floor: nat)
    requires OpsFit(ops, of)
    ensures Reflects(Above(Fold(map[], ops), floor), Above(Fold(map[], of), floor))
  {
    ReflectsFold(map[], map[], ops, of);
    ReflectsAbove(Fold(map[], ops), Fold(map[], of), floor);
  }

  lemma RecoveredMemory(g: Geometry, s: State, w: Witness, m: Meta, scan: Scan, d': Disk)
    requires ScanOk(g, s.disk, w, scan) && OneSpare(s.disk) && d'.segs == s.disk.segs && d'.spares == s.disk.spares
    requires m.lastBatch <= scan.lastBatch && Numbered(s.disk, m.generation, 0)
    requires NumberOk(scan.lastBatch, m.generation, 0) && m.generation >= 1
    ensures MemInv(g, State(d', Sweep, Mem(m, Above(Fold(map[], scan.verdicts.ops), m.floor), scan.cursors, scan.lastBatch)),
                   Recovered(s.disk, w, m))
  {
    RecoveredIndex(scan.verdicts.ops, LogOps(s.disk.segs, Merged(w.log, w.tail)), m.floor);
    NumberedGrows(s.disk, m.generation, 0, m.generation, scan.lastBatch);
    NumberedSame(s.disk, d', m.generation, scan.lastBatch);
  }

  lemma NumberedSame(d: Disk, d': Disk, generation: nat, last: nat)
    requires Numbered(d, generation, last) && d'.segs == d.segs && d'.spares == d.spares
    ensures Numbered(d', generation, last)
  {
  }

  lemma RecoveredDisk(inv: SegmentInv, g: Geometry, d: Disk, w: Witness, m: Meta)
    requires DiskInvOf(inv, g, d, w) && BothCopies(d, m) && Joins(g, d, w)
    requires w.tail.Some? ==> inv(LastSegment(d), w.log[|w.log| - 1] + [w.tail.value], None)
    ensures DiskInvOf(inv, g, d, Recovered(d, w, m))
  {
    Settle(inv, g, d, w, Recovered(d, w, m).abs);
  }

  lemma LastIsNumbered(d: Disk, w: Witness, m: Meta)
    requires |d.segs| == |w.log| && TailInside(d, w.tail) && MetaOk(m, d, w)
    ensures NumberOk(LastBefore(d.segs, Merged(w.log, w.tail), |d.segs|), m.generation + 1, 0)
  {
    if w.tail.Some? { MergedLast(d.segs, w.log, w.tail.value); }
  }

  lemma OpensDisk(inv: SegmentInv, g: Geometry, s: State, w: Witness, d': Disk)
    requires InvOf(inv, g, s, w) && s.pc.GenerationB? && d' == s.disk.(b := Copy(s.pc.meta)) && Joins(g, s.disk, w)
    requires w.tail.Some? ==> inv(LastSegment(s.disk), w.log[|w.log| - 1] + [w.tail.value], None)
    ensures DiskInvOf(inv, g, d', Recovered(s.disk, w, s.pc.meta))
  {
    TornCopyKeeps(inv, g, s.disk, w, B, s.pc.meta, d');
    assert Recovered(d', w, s.pc.meta) == Recovered(s.disk, w, s.pc.meta);
    RecoveredDisk(inv, g, d', w, s.pc.meta);
  }

  lemma OpensMemory(g: Geometry, s: State, w: Witness, before: Meta, scan: Scan, d': Disk)
    requires ScanOk(g, s.disk, w, scan) && OneSpare(s.disk) && d'.segs == s.disk.segs && d'.spares == s.disk.spares
    requires MetaOk(before, s.disk, w)
    ensures var m := NextGeneration(before, scan.lastBatch);
            MemInv(g, State(d', Sweep, Mem(m, Above(Fold(map[], scan.verdicts.ops), m.floor), scan.cursors, scan.lastBatch)),
                   Recovered(s.disk, w, m))
  {
    LastIsNumbered(s.disk, w, before);
    RecoveredMemory(g, s, w, NextGeneration(before, scan.lastBatch), scan, d');
  }

  lemma OpensOf(inv: SegmentInv, g: Geometry, s: State, w: Witness, s': State)
    requires InvOf(inv, g, s, w) && GenerationBStep(s, s') && Joins(g, s.disk, w)
    requires w.tail.Some? ==> inv(LastSegment(s.disk), w.log[|w.log| - 1] + [w.tail.value], None)
    ensures InvOf(inv, g, s', Recovered(s.disk, w, s.pc.meta))
  {
    OpensDisk(inv, g, s, w, s'.disk);
    OpensMemory(g, s, w, s.disk.b.meta, s.pc.scan, s'.disk);
  }

  lemma Opens(g: Geometry, s: State, w: Witness, s': State)
    requires Inv(g, s, w) && GenerationBStep(s, s')
    ensures Inv(g, s', Recovered(s.disk, w, s.pc.meta))
    ensures w.abs.flight.Some? ==> Recovers(w.abs, Recovered(s.disk, w, s.pc.meta).abs)
    ensures w.abs.flight.None? ==> Recovered(s.disk, w, s.pc.meta).abs == w.abs
  {
    TailJoins(g, s.disk, w);
    OpensOf(Held(g), g, s, w, s');
    RecoveredIs(s.disk, w, s.pc.meta);
  }
}
