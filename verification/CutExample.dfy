/** An ordered commit after which the scan does find something ambiguous: what a batched commit, cut
    before it, had left. */
module CutExample {
  import opened Format
  import opened Ops
  import opened Recover
  import opened Log
  import opened Verdict
  import opened Writes
  import opened Runs
  import opened Invariant
  import opened Refinement
  import opened Ambiguity

  const G := Geometry(1, 0, 1)
  const N: nat := 0x100_0000_0001

  const META0 := Meta(1, 0, 0, 1, 0, [])
  const META1 := Meta(2, 0, N, 2, N, [])

  const BATCHED := Batch([PutWrite(5, 9, [])], None, None)
  const ENTRY := Entry(Kind.Put, false, 0, 1, N, 5, 9, 0, 0, [])
  const PLAN := Plan(N, [ENTRY], false, None)

  const RECORD := Record(Kind.Put, false, 0, 1, N, 5, 9, 12288, 0, 0)

  /** The only segment: the crash left the record and not the entry. */
  function Torn(): (seg: Segment)
    ensures |seg.slots| == 64 && seg.slots[0] == Valid(RECORD) && forall j | 1 <= j < 64 :: seg.slots[j] == Zero
  {
    Segment(N, 0, seq(64, j => if j == 0 then Valid(RECORD) else Zero), map[])
  }

  const DAMAGED := Located(N, 8192, 12288, 0, 0, 9, N, 0, 1, false, true)
  const SCAN := Scan(N, [(64, 16384)], Verdicts([Op.Put(5, DAMAGED)], [], [(5, 9)], 0, 0, None))

  // ---- what the scan finds ----

  lemma TornBatch(stale: Stale)
    requires !stale.IsStale(N)
    ensures var f := Frame(0, N, 1, 12288);
            && ShapeAt(G, Torn(), stale, 0, 12288, 0) == Here(N, 1)
            && FoundSlots(G, Torn(), stale, f) == [Recorded(RECORD)] && EntriesEnd(G, Torn(), stale, f, 1) == 12352
  {
    var f := Frame(0, N, 1, 12288);
    assert View(Torn(), stale, 0) == Valid(RECORD);
    assert FirstValid(Torn(), stale, 0) == 0;
    assert FoundAt(G, Torn(), stale, f, 0) == Recorded(RECORD);
    assert WalkAt(G, Torn(), stale, f, 1) == Some(12352);
    assert EntriesEnd(G, Torn(), stale, f, 0) == 12288;
  }

  lemma TornSegment(stale: Stale)
    requires !stale.IsStale(N)
    ensures ScanSegment(G, Torn(), stale, 0) == Ok(SegmentScan([BatchScan(N, 1, 0, [Recorded(RECORD)])], 64, 16384))
  {
    TornBatch(stale);
    assert Span(1) == 64 && AlignToBlock(12352) == 16384;
    var rest := ScanFrom(G, Torn(), stale, 64, 16384, N);
    assert rest == Ok(SegmentScan([], 64, 16384));
    var b := BatchScan(N, 1, 0, FoundSlots(G, Torn(), stale, Frame(0, N, 1, 12288)));
    assert ScanFrom(G, Torn(), stale, 0, 12288, 0) == Prepend([b], rest);
    assert [b] + [] == [b];
  }

  lemma TornVerdict()
    ensures JudgeBatch(G, Torn(), 0, BatchScan(N, 1, 0, [Recorded(RECORD)]), true) == Ok(SCAN.verdicts)
  {
    var b := BatchScan(N, 1, 0, [Recorded(RECORD)]);
    assert IsDamaged(G, Torn(), b.slots[0], true);
    var rs := SlotVerdicts(G, Torn(), b, true);
    assert rs == [Ok(SCAN.verdicts)];
    JoinOne(SCAN.verdicts);
  }

  lemma JoinOne(v: Verdicts)
    ensures JoinAll([Ok(v)]) == Ok(v)
  {
    var rs: seq<Result<Verdicts, OpenError>> := [Ok(v)];
    assert rs[..0] == [];
    assert Join(NOTHING, v) == v;
  }

  lemma TornScan(stale: Stale)
    requires !stale.IsStale(N)
    ensures ScanAll(G, [Torn()], stale) == Ok(SCAN)
  {
    TornSegment(stale);
    var scans := [SegmentScan([BatchScan(N, 1, 0, [Recorded(RECORD)])], 64, 16384)];
    assert [Torn()][1..] == [];
    assert ScanSegments(G, [], stale, N) == Ok(([], N));
    assert [Torn()][0] == Torn() && LastOf(scans[0], 0) == N && scans == [scans[0]] + [];
    assert ScanSegments(G, [Torn()], stale, 0) == Ok((scans, N));
    assert IsLastBatch(scans, 0, 0);
    TornVerdict();
    assert BatchVerdicts(G, [Torn()], scans, 0) == [Ok(SCAN.verdicts)];
    JoinOne(SCAN.verdicts);
    assert SegmentVerdicts(G, [Torn()], scans) == [Ok(SCAN.verdicts)];
    assert Cursors(scans) == SCAN.cursors;
  }

  // ---- the run ----

  const EMPTY: Mem := Mem(META0, map[], [], 0)
  const ROLLED: Mem := Mem(META0, map[], [(0, 12288)], 0)
  const PLACED: Placed := Placed(N, 0, 12288, [ENTRY], [true], false)

  function DiskOf(a: Meta, b: Meta, segs: seq<Segment>): Disk { Disk(Copy(a), Copy(b), segs, []) }

  function Created(): State { State(DiskOf(META0, META0, []), Ready, EMPTY) }
  function Rolling(): State { State(DiskOf(META0, META0, []), Roll(PLAN), EMPTY) }
  function Writing(): State {
    State(DiskOf(META0, META0, [NewSegment(G, N, 0)]), PutBoth(Commit(Some(PLACED), None)), ROLLED)
  }
  function Cut(): State { State(DiskOf(META0, META0, [Torn()]), Down, ROLLED) }
  function Picking(): State { Cut().(pc := PickSpare(META0)) }
  function Looking(): State { Cut().(pc := Scanning(META0)) }
  function Starting(): State { Cut().(pc := GenerationA(META1, SCAN)) }
  function Started(): State { State(DiskOf(META1, META0, [Torn()]), GenerationB(META1, SCAN), ROLLED) }
  function Opened(): State {
    State(DiskOf(META1, META1, [Torn()]), Sweep, Mem(META1, Above(Fold(map[], SCAN.verdicts.ops), 0), SCAN.cursors, N))
  }
  function Waiting(): State { Opened().(pc := Ready) }

  lemma Sizes()
    ensures BlocksFor(1) == 1 && Span(1) == 64 && Footprint(0) == 64 && AlignToBlock(64) == 4096
    ensures WritesSize([PutWrite(5, 9, [])]) == 64 && WritesSize([PutWrite(6, 7, [])]) == 64
  {
    assert WritesSize([PutWrite(5, 9, [])][..0]) == 0 && WritesSize([PutWrite(6, 7, [])][..0]) == 0;
  }

  lemma Begins()
    ensures BeginStep(G, Created(), Rolling(), BATCHED, PLAN)
  {
    Sizes();
    assert EntryFor(ENTRY, BATCHED.writes[0], 0, 1, N, false);
    assert NextBatch(1, 0) == N && GenerationOf(N) == 1;
  }

  lemma Rolls()
    ensures CreateStep(G, Rolling(), Writing())
  {
    assert Place(PLAN, 0, 12288) == PLACED;
  }

  lemma TornIsTorn()
    ensures CrashedSegment(Writing().disk, Cut().disk, PLACED, true, true)
  {
    Sizes();
    var seg := NewSegment(G, N, 0);
    assert Rec(PLACED, 0) == RECORD;
    assert RecordBlocks(PLACED)[0] == Valid(RECORD);
    assert TornRecords(seg, PLACED, Torn());
    assert CrashedThrough(Writing().disk, Cut().disk, PLACED, true, true, seg, Torn());
  }

  lemma Crashes()
    ensures CrashStep(Writing(), Cut())
  {
    Sizes();
    TornIsTorn();
  }

  lemma Looks()
    ensures Next(G, Cut(), Picking()) && Next(G, Picking(), Looking())
  {
    assert OpenStep(Cut(), Picking()) && PickStep(Picking(), Looking());
  }

  lemma Scans()
    ensures Next(G, Looking(), Starting())
  {
    TornScan(StaleOf(META0));
    assert Runs.ScanStep(G, Looking(), Starting());
  }

  lemma Restarts()
    ensures Next(G, Starting(), Started()) && Next(G, Started(), Opened()) && Next(G, Opened(), Waiting())
  {
    assert GenerationAStep(Starting(), Started()) && GenerationBStep(Started(), Opened()) && SweptStep(Opened(), Waiting());
  }

  lemma Fails()
    ensures Next(G, Created(), Rolling()) && Next(G, Rolling(), Writing()) && Next(G, Writing(), Cut())
  {
    Begins();
    Rolls();
    Crashes();
    assert CommitNext(G, Created(), Rolling()) && CommitNext(G, Rolling(), Writing());
  }

  function History(): seq<State> { ToTheCut() + [Picking(), Looking()] + [Starting()] + [Started(), Opened(), Waiting()] }

  function ToTheCut(): seq<State> { [Created()] + [Rolling(), Writing(), Cut()] }

  lemma CutIsRun()
    ensures Run(G, ToTheCut())
  {
    Fails();
    RunExtends(G, [Created()], [Rolling(), Writing(), Cut()]);
  }

  lemma LooksOn()
    ensures Run(G, ToTheCut() + [Picking(), Looking()])
  {
    CutIsRun();
    Looks();
    RunExtends(G, ToTheCut(), [Picking(), Looking()]);
  }

  lemma ScansOn()
    ensures Run(G, ToTheCut() + [Picking(), Looking()] + [Starting()])
  {
    LooksOn();
    Scans();
    RunExtends(G, ToTheCut() + [Picking(), Looking()], [Starting()]);
  }

  lemma HistoryIsRun()
    ensures Run(G, History())
  {
    ScansOn();
    Restarts();
    RunExtends(G, ToTheCut() + [Picking(), Looking()] + [Starting()], [Started(), Opened(), Waiting()]);
  }

  // ---- the ordered commit ----

  const M: nat := 0x200_0000_0001
  const ORDERED := Batch([PutWrite(6, 7, [])], None, None)
  const NEXT := Plan(M, [Entry(Kind.Put, true, 0, 1, M, 6, 7, 0, 0, [])], true, None)

  lemma BeginsOrdered()
    ensures BeginStep(G, Waiting(), Waiting().(pc := Roll(NEXT)), ORDERED, NEXT)
  {
    Sizes();
    assert EntryFor(NEXT.entries[0], ORDERED.writes[0], 0, 1, M, true);
    assert NextBatch(2, N) == M && GenerationOf(M) == 2;
  }

  /** The ordered commit that begins on what the cut batched one left, and is cut itself before it wrote
      anything, is followed by a scan that calls that one's put ambiguous. */
  lemma OrderedCutCanBeAmbiguous() returns (more: seq<State>)
    ensures G.Valid() && Cuts(G, History(), more, ORDERED, NEXT) && NEXT.ordered
    ensures ScanBy(G, more[|more| - 1].disk, more[|more| - 1].pc.meta) == Ok(SCAN) && SCAN.verdicts.ambiguous == [(5, 9)]
  {
    var s' := Waiting().(pc := Roll(NEXT));
    HistoryIsRun();
    BeginsOrdered();
    CutAtOnceCuts(G, History(), s', ORDERED, NEXT);
    more := CutAtOnce(Waiting(), s');
    TornScan(StaleOf(META1));
  }
}
