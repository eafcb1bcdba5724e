/** Which batches a commit takes, which it refuses and why, and where it puts the ones it takes. */
module Admission {
  import opened Format
  import opened Ops
  import opened Recover
  import opened Log
  import opened Verdict
  import opened Tail
  import opened Spec
  import opened Runs
  import opened Invariant
  import opened Begin
  import opened Refinement
  import opened Guarantees
  import opened Effects
  import opened Batches

  datatype CommitError = BelowFloor(position: nat, floor: nat) | MetaTooLarge(len: nat) | BatchTooLarge

  predicate PutBelow(w: Write, floor: nat) { w.PutWrite? && w.position < floor }

  /** No put lies below the old floor or the one the batch asks for. */
  predicate NoneBelow(before: nat, batch: Batch) {
    forall i | 0 <= i < |batch.writes| && batch.writes[i].PutWrite? ::
      batch.writes[i].position >= before && (batch.floor.Some? ==> batch.writes[i].position >= batch.floor.value)
  }

  /** One segment with nothing else in it holds the records and the entries. */
  predicate Roomy(g: Geometry, ws: seq<Write>) {
    && |ws| <= 65535 && (forall i | 0 <= i < |ws| :: PayloadLen(ws[i]) < 0x1_0000_0000)
    && |ws| <= g.persistBlocks * 64 && WritesSize(ws) <= g.entryBlocks * 4096
  }

  lemma WholeBlocks(n: nat, blocks: nat)
    ensures BlocksFor(n) <= blocks <==> n <= blocks * 64
    ensures AlignToBlock(n) <= blocks * 4096 <==> n <= blocks * 4096
  {
  }

  /** What `fits` accepts: the blocks are whole, so it is the records and bytes that must fit. */
  lemma FitsIsRoomy(g: Geometry, ws: seq<Write>)
    ensures Runs.Fits(g, ws) <==> Roomy(g, ws)
  {
    WholeBlocks(|ws|, g.persistBlocks);
    WholeBlocks(WritesSize(ws), g.entryBlocks);
  }

  /** The checks of a commit, in their order; nothing is written before they pass. */
  method Check(g: Geometry, before: nat, batch: Batch) returns (r: Result<nat, CommitError>)
    ensures r.Ok? ==> Raised(before, batch.floor, r.value)
    ensures r.Ok? ==> NoneBelow(before, batch) && (batch.meta.Some? ==> |batch.meta.value| <= 4012) && Roomy(g, batch.writes)
    ensures r.Err? ==>
              match r.error
              case BelowFloor(p, floor) =>
                && Raised(before, batch.floor, floor) && p < floor
                && exists i | 0 <= i < |batch.writes| ::
                     batch.writes[i].PutWrite? && batch.writes[i].position == p && forall k | 0 <= k < i :: !PutBelow(batch.writes[k], floor)
              case MetaTooLarge(len) => NoneBelow(before, batch) && batch.meta.Some? && len == |batch.meta.value| > 4012
              case BatchTooLarge => NoneBelow(before, batch) && (batch.meta.Some? ==> |batch.meta.value| <= 4012) && !Roomy(g, batch.writes)
  {
    var floor := if batch.floor.Some? && batch.floor.value > before then batch.floor.value else before;
    for i := 0 to |batch.writes|
      invariant forall k | 0 <= k < i :: !PutBelow(batch.writes[k], floor)
    {
      if PutBelow(batch.writes[i], floor) { return Err(BelowFloor(batch.writes[i].position, floor)); }
    }
    if batch.meta.Some? && |batch.meta.value| > META_MAX { return Err(MetaTooLarge(|batch.meta.value|)); }
    FitsIsRoomy(g, batch.writes);
    if !Runs.Fits(g, batch.writes) { return Err(BatchTooLarge); }
    r := Ok(floor);
  }

  /** The batch passes every check against this floor, and changes something. */
  predicate Admissible(g: Geometry, before: nat, batch: Batch) {
    && NoneBelow(before, batch) && (batch.meta.Some? ==> |batch.meta.value| <= 4012) && Roomy(g, batch.writes)
    && (batch.writes != [] || batch.meta.Some? || (batch.floor.Some? && batch.floor.value > before))
  }

  function EntryOfWrite(w: Write, i: nat, count: nat, seqno: nat, ordered: bool): (e: Entry)
    ensures EntryFor(e, w, i, count, seqno, ordered)
  {
    match w
    case PutWrite(position, id, payload) => Entry(Kind.Put, ordered, i, count, seqno, position, id, |payload|, 0, payload)
    case ClearWrite(start, end) => Entry(Kind.Clear, ordered, i, count, seqno, start, end, 0, 0, [])
  }

  function PlanOf(s: State, batch: Batch, ordered: bool): Plan {
    var seqno := NextBatch(s.mem.meta.generation, s.mem.lastBatch);
    Plan(seqno, seq(|batch.writes|, i requires 0 <= i < |batch.writes| => EntryOfWrite(batch.writes[i], i, |batch.writes|, seqno, ordered)), ordered,
         if batch.meta.Some? || NewFloor(s, batch) != s.mem.meta.floor then Some(NextMeta(s, batch)) else None)
  }

  function BeginPc(g: Geometry, s: State, batch: Batch, plan: Plan): Pc {
    if batch.writes == [] then MetaA(Commit(None, plan.meta))
    else if FitsActive(g, s, batch.writes) then Starts(plan, s.mem.cursors[|s.mem.cursors| - 1].0, s.mem.cursors[|s.mem.cursors| - 1].1)
    else Roll(plan)
  }

  /** The number of the next batch fits the bits of its generation. */
  predicate Numberable(s: State) { GenerationOf(NextBatch(s.mem.meta.generation, s.mem.lastBatch)) == s.mem.meta.generation }

  /** A batch is taken exactly when it passes the checks: none is refused that passes, and none that
      fails is taken. */
  lemma TakenExactly(g: Geometry, s: State, batch: Batch, ordered: bool)
    requires s.pc == Ready && Numberable(s)
    ensures (exists s', plan :: BeginStep(g, s, s', batch, plan) && plan.ordered == ordered)
            <==> Admissible(g, s.mem.meta.floor, batch)
  {
    FitsIsRoomy(g, batch.writes);
    if Admissible(g, s.mem.meta.floor, batch) {
      var plan := PlanOf(s, batch, ordered);
      var s' := s.(pc := BeginPc(g, s, batch, plan));
      assert Accepts(g, s, batch) && EntriesFor(plan.entries, batch.writes, plan.seqno, ordered);
      assert BeginStep(g, s, s', batch, plan);
    }
  }

  // ---- the active segment or a new one ----

  /** Where the next batch goes is on whole blocks of both logs. */
  lemma CursorAligned(g: Geometry, seg: Segment, bs: seq<Placed>)
    requires Holds(g, seg, bs)
    ensures AtOf(bs, |bs|) % 64 == 0 && CursorOf(g, bs, |bs|) % 4096 == 0
  {
    EndAligned(g, 0);
    if bs != [] {
      LastAligned(g, seg, bs);
      SpanAligned(bs[|bs| - 1].at, |bs[|bs| - 1].entries|);
    }
  }

  lemma SlotsFit(at: nat, n: nat, blocks: nat)
    requires at % 64 == 0
    ensures at + Span(n) <= blocks * 64 <==> at + n <= blocks * 64
  {
    var q := at / 64;
    assert at == q * 64;
    if at + n <= blocks * 64 && n > 0 {
      assert n <= (blocks - q) * 64;
      WholeBlocks(n, blocks - q);
      assert Span(n) == BlocksFor(n) * 64;
    }
  }

  lemma BytesFit(g: Geometry, at: nat, n: nat)
    requires at % 4096 == 0
    ensures at + AlignToBlock(n) <= g.EntryEnd() <==> at + n <= g.EntryEnd()
  {
    var q, k := at / 4096, 2 + g.persistBlocks + g.gapBlocks + g.entryBlocks;
    assert at == q * 4096 && g.EntryEnd() == k * 4096;
    if at + n <= g.EntryEnd() && n > 0 {
      assert n <= (k - q) * 4096;
      WholeBlocks(n, k - q);
    }
  }

  /** The active segment has slots for the records and bytes for the entries. */
  predicate HasRoom(g: Geometry, s: State, ws: seq<Write>) {
    s.mem.cursors != [] && var (at, entryAt) := s.mem.cursors[|s.mem.cursors| - 1];
    at + |ws| <= g.Slots() && entryAt + WritesSize(ws) <= g.EntryEnd()
  }

  lemma FitsActiveIsRoom(g: Geometry, s: State, ws: seq<Write>)
    requires s.mem.cursors != [] ==> s.mem.cursors[|s.mem.cursors| - 1].0 % 64 == 0 && s.mem.cursors[|s.mem.cursors| - 1].1 % 4096 == 0
    ensures FitsActive(g, s, ws) <==> HasRoom(g, s, ws)
  {
    if s.mem.cursors != [] {
      var (at, entryAt) := s.mem.cursors[|s.mem.cursors| - 1];
      SlotsFit(at, |ws|, g.persistBlocks);
      BytesFit(g, entryAt, WritesSize(ws));
    }
  }

  lemma CursorsAligned(g: Geometry, s: State, w: Witness)
    requires Inv(g, s, w) && s.pc.Ready?
    ensures s.mem.cursors != [] ==> s.mem.cursors[|s.mem.cursors| - 1].0 % 64 == 0 && s.mem.cursors[|s.mem.cursors| - 1].1 % 4096 == 0
  {
    if s.mem.cursors != [] {
      ActiveInv(g, s.disk, w);
      CursorAligned(g, LastSegment(s.disk), w.log[|w.log| - 1]);
    }
  }

  /** Over every run: a commit takes a new segment exactly when its records or its entries do not fit what
      is left of the active one. */
  lemma RollsExactly(g: Geometry, run: seq<State>, s': State, batch: Batch, plan: Plan)
    requires g.Valid() && Run(g, run) && BeginStep(g, run[|run| - 1], s', batch, plan) && batch.writes != []
    ensures s'.pc.Roll? <==> !HasRoom(g, run[|run| - 1], batch.writes)
  {
    var w := WitnessOf(g, run);
    CursorsAligned(g, run[|run| - 1], w);
    FitsActiveIsRoom(g, run[|run| - 1], batch.writes);
  }
}
