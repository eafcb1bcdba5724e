/** A commit begins: the batch is checked, numbered and placed, in the active segment or in a
    new one. */
module Begin {
  import opened Format
  import opened Ops
  import opened Recover
  import opened Log
  import opened Verdict
  import opened Writes
  import opened Tail
  import opened Spec
  import opened Runs
  import opened Invariant
  import opened DiskSteps
  import opened MemSteps

  // ---- the placed batch ----

  lemma {:induction false} OffIsSize(b: Placed, ws: seq<Write>, i: nat)
    requires i <= |b.entries| == |ws| && forall k | 0 <= k < |ws| :: b.entries[k].len == PayloadLen(ws[k])
    ensures Off(b, i) == b.entryAt + WritesSize(ws[..i])
  {
    if i > 0 {
      OffIsSize(b, ws, i - 1);
      assert ws[..i][..i - 1] == ws[..i - 1];
    }
  }

  /** A batch that fits is well placed wherever there is room for it. */
  lemma PlacedFits(g: Geometry, plan: Plan, ws: seq<Write>, at: nat, entryAt: nat)
    requires EntriesFor(plan.entries, ws, plan.seqno, plan.ordered) && ws != []
    requires at + Span(|ws|) <= g.Slots() && g.EntryStart() <= entryAt
    requires entryAt + AlignToBlock(WritesSize(ws)) <= g.EntryEnd()
    ensures WellPlaced(g, Place(plan, at, entryAt))
  {
    var b := Place(plan, at, entryAt);
    forall i | 0 <= i < |ws| ensures EntryFor(b.entries[i], ws[i], i, |ws|, plan.seqno, plan.ordered) {
    }
    OffIsSize(b, ws, |ws|);
    assert ws[..|ws|] == ws;
  }

  /** What a caller's write does. */
  function WriteOp(w: Write): Op<Cell> {
    match w
    case PutWrite(position, id, payload) => Op.Put(position, Cell(id, payload, false))
    case ClearWrite(start, end) => Op.Clear(start, end)
  }

  function WriteOps(ws: seq<Write>): seq<Op<Cell>> {
    seq(|ws|, i requires 0 <= i < |ws| => WriteOp(ws[i]))
  }

  lemma EntriesMean(es: seq<Entry>, ws: seq<Write>, seqno: nat, ordered: bool)
    requires EntriesFor(es, ws, seqno, ordered)
    ensures EntryOps(es) == WriteOps(ws)
  {
    forall i | 0 <= i < |ws| ensures EntryOp(es[i]) == WriteOp(ws[i]) {
      assert EntryFor(es[i], ws[i], i, |ws|, seqno, ordered);
    }
  }

  /** The next number exceeds every number on disk. */
  lemma SegmentBelow(seg: Segment, generation: nat, last: nat)
    requires SegmentNumbered(seg, generation, last) && 1 <= generation < 0x100_0000 && GenerationOf(last) <= generation
    ensures Below(seg, NextBatch(generation, last)) && seg.first < NextBatch(generation, last)
  {
    CellsBelow(seg.slots, seg.entries, generation, last);
    NextBatchGrows(generation, last, seg.first);
  }

  lemma CellsBelow(slots: seq<Slot>, entries: map<nat, Entry>, generation: nat, last: nat)
    requires CellsNumbered(slots, entries, generation, last) && 1 <= generation < 0x100_0000 && GenerationOf(last) <= generation
    ensures forall j | 0 <= j < |slots| :: slots[j].Valid? ==> slots[j].record.batch < NextBatch(generation, last)
    ensures forall o | o in entries :: entries[o].batch < NextBatch(generation, last)
  {
    forall n: nat | NumberOk(n, generation, last) ensures n < NextBatch(generation, last) {
      NextBatchGrows(generation, last, n);
    }
  }

  // ---- the plan ----

  function FlightOf(s: State, batch: Batch, ordered: bool): Flight {
    Flight(WriteOps(batch.writes), ordered, NewFloor(s, batch),
           if batch.meta.Some? then batch.meta.value else s.mem.meta.bytes)
  }

  function Begun(s: State, w: Witness, batch: Batch, plan: Plan): Witness {
    w.(abs := w.abs.(flight := Some(FlightOf(s, batch, plan.ordered))))
  }

  /** The batch is in flight: its writes as they are, the higher of the two floors, and its metainfo or
      else the old one. */
  predicate Takes(a: Abs, batch: Batch, ordered: bool, a': Abs) {
    && a.flight.None? && a'.flight.Some? && a' == a.(flight := a'.flight)
    && var f := a'.flight.value;
    && f.ops == WriteOps(batch.writes) && f.ordered == ordered
    && f.floor >= a.floor && (batch.floor.Some? ==> f.floor >= batch.floor.value) && (f.floor == a.floor || Some(f.floor) == batch.floor)
    && (forall i | 0 <= i < |batch.writes| :: batch.writes[i].PutWrite? ==> batch.writes[i].position >= f.floor)
    && f.bytes == if batch.meta.Some? then batch.meta.value else a.bytes
  }

  lemma FlightIsTaken(g: Geometry, s: State, w: Witness, s': State, batch: Batch, plan: Plan)
    requires BeginStep(g, s, s', batch, plan) && w.abs.flight.None? && s.mem.meta.floor == w.abs.floor && s.mem.meta.bytes == w.abs.bytes
    ensures Takes(w.abs, batch, plan.ordered, Begun(s, w, batch, plan).abs)
  {
  }

  lemma BatchPlaced(g: Geometry, plan: Plan, ws: seq<Write>)
    requires EntriesFor(plan.entries, ws, plan.seqno, plan.ordered) && ws != [] && Fits(g, ws)
    ensures WellPlaced(g, Place(plan, 0, g.EntryStart()))
  {
    PlacedFits(g, plan, ws, 0, g.EntryStart());
  }

  lemma BeginPlans(g: Geometry, s: State, w: Witness, s': State, batch: Batch, plan: Plan)
    requires PcInv(g, s, w) && w.tail.None? && BeginStep(g, s, s', batch, plan) && batch.writes != []
    ensures var w' := Begun(s, w, batch, plan);
            MemInv(g, s, w') && PlanOk(g, plan, s, w')
  {
    EntriesMean(plan.entries, batch.writes, plan.seqno, plan.ordered);
    BatchPlaced(g, plan, batch.writes);
    forall i | 0 <= i < |plan.entries| ensures plan.entries[i].ordered == plan.ordered {
      assert EntryFor(plan.entries[i], batch.writes[i], i, |batch.writes|, plan.seqno, plan.ordered);
    }
  }

  lemma BeginMeta(inv: SegmentInv, g: Geometry, s: State, w: Witness, s': State, batch: Batch, plan: Plan)
    requires InvOf(inv, g, s, w) && BeginStep(g, s, s', batch, plan) && batch.writes == []
    ensures InvOf(inv, g, s', Begun(s, w, batch, plan)) && Takes(w.abs, batch, plan.ordered, Begun(s, w, batch, plan).abs)
  {
    FlightIsTaken(g, s, w, s', batch, plan);
    FlightBegins(inv, g, s.disk, w, FlightOf(s, batch, plan.ordered));
  }

  lemma BeginRoll(inv: SegmentInv, g: Geometry, s: State, w: Witness, s': State, batch: Batch, plan: Plan)
    requires InvOf(inv, g, s, w) && BeginStep(g, s, s', batch, plan) && batch.writes != []
    ensures InvOf(inv, g, s.(pc := Roll(plan)), Begun(s, w, batch, plan))
    ensures Takes(w.abs, batch, plan.ordered, Begun(s, w, batch, plan).abs)
  {
    FlightIsTaken(g, s, w, s', batch, plan);
    FlightBegins(inv, g, s.disk, w, FlightOf(s, batch, plan.ordered));
    BeginPlans(g, s, w, s', batch, plan);
  }

  // ---- the write starts ----

  predicate PlanReady(inv: SegmentInv, g: Geometry, s: State, w: Witness, plan: Plan) {
    && g.Valid() && DiskInvOf(inv, g, s.disk, w) && BothCopies(s.disk, s.mem.meta)
    && PlanOk(g, plan, s, w) && MemInvTo(g, s, w, plan.seqno)
  }

  /** The active segment takes the batch at its cursor. */
  predicate Accommodates(g: Geometry, seg: Segment, bs: seq<Placed>, t: Placed) {
    WellPlaced(g, t) && |seg.slots| == g.Slots() && NoRecords(seg, t)
  }

  lemma StartsWriting(inv: SegmentInv, g: Geometry, s: State, w: Witness, plan: Plan, at: nat, entryAt: nat)
    requires PlanReady(inv, g, s, w, plan) && s.disk.segs != [] && plan.seqno > s.mem.lastBatch
    requires Accommodates(g, LastSegment(s.disk), w.log[|w.log| - 1], Place(plan, at, entryAt))
    requires inv(LastSegment(s.disk), w.log[|w.log| - 1], Some(Place(plan, at, entryAt)))
    ensures InvOf(inv, g, s.(pc := Starts(plan, at, entryAt)), w.(tail := Some(Place(plan, at, entryAt))))
  {
    var t := Place(plan, at, entryAt);
    assert Unvouched(s.disk, w);
    assert Pending(w.abs, Some(t));
    TailBegins(inv, g, s.disk, w, t);
  }

  lemma CursorInside(g: Geometry, seg: Segment, bs: seq<Placed>)
    requires Holds(g, seg, bs)
    ensures g.EntryStart() <= CursorOf(g, bs, |bs|)
  {
    if bs != [] {
      var b := bs[|bs| - 1];
      assert Coherent(g, seg, b);
      LiveEndBounds(b, |b.entries|);
    }
  }

  lemma ActiveInv(g: Geometry, d: Disk, w: Witness)
    requires Chained(Held(g), d.segs, w.log, w.tail) && d.segs != []
    ensures SegInv(g, LastSegment(d), w.log[|w.log| - 1], w.tail)
  {
    assert TailAt(|d.segs|, |d.segs| - 1, w.tail) == w.tail;
  }

  lemma TakesBatch(g: Geometry, seg: Segment, bs: seq<Placed>, t: Placed)
    requires SegInv(g, seg, bs, None) && Below(seg, t.seqno) && seg.first <= t.seqno && LastSeqno(bs, seg.prev) < t.seqno
    requires WellPlaced(g, t) && AllLive(t) && t.at == AtOf(bs, |bs|) && t.entryAt == CursorOf(g, bs, |bs|)
    requires forall i | 0 <= i < |t.entries| :: t.entries[i].ordered ==> t.firm
    ensures SegInv(g, seg, bs, Some(t)) && Accommodates(g, seg, bs, t)
  {
    NewTail(g, seg, bs, t);
  }

  lemma HigherStill(g: Geometry, s: State, w: Witness, highest: nat, higher: nat)
    requires MemInvTo(g, s, w, highest) && highest <= higher && GenerationOf(higher) <= s.mem.meta.generation
    ensures MemInvTo(g, s, w, higher)
  {
    NumberedGrows(s.disk, s.mem.meta.generation, highest, s.mem.meta.generation, higher);
  }

  /** The number the batch takes is new. */
  lemma PlanIsNew(g: Geometry, s: State, w: Witness, plan: Plan)
    requires MemInv(g, s, w) && PlanOk(g, plan, s, w) && 1 <= s.mem.meta.generation < 0x100_0000
    ensures plan.seqno > s.mem.lastBatch
    ensures forall i {:trigger s.disk.segs[i]} | 0 <= i < |s.disk.segs| ::
              Below(s.disk.segs[i], plan.seqno) && s.disk.segs[i].first < plan.seqno
    ensures forall i {:trigger s.disk.spares[i]} | 0 <= i < |s.disk.spares| && s.disk.spares[i].Own? ::
              Below(Segment(plan.seqno, 0, s.disk.spares[i].slots, s.disk.spares[i].entries), plan.seqno)
  {
    var generation, last := s.mem.meta.generation, s.mem.lastBatch;
    NextBatchGrows(generation, last, last);
    forall i | 0 <= i < |s.disk.segs| ensures Below(s.disk.segs[i], plan.seqno) && s.disk.segs[i].first < plan.seqno {
      SegmentBelow(s.disk.segs[i], generation, last);
    }
    forall i | 0 <= i < |s.disk.spares| && s.disk.spares[i].Own?
      ensures Below(Segment(plan.seqno, 0, s.disk.spares[i].slots, s.disk.spares[i].entries), plan.seqno)
    {
      CellsBelow(s.disk.spares[i].slots, s.disk.spares[i].entries, generation, last);
    }
  }

  /** There is room in the active segment. */
  lemma ActiveTakes(g: Geometry, s: State, w: Witness, ws: seq<Write>, plan: Plan)
    requires Chained(Held(g), s.disk.segs, w.log, None) && MemInv(g, s, w) && PlanOk(g, plan, s, w)
    requires 1 <= s.mem.meta.generation < 0x100_0000 && ws != []
    requires EntriesFor(plan.entries, ws, plan.seqno, plan.ordered) && FitsActive(g, s, ws)
    ensures s.disk.segs != [] && plan.seqno > s.mem.lastBatch
    ensures var (at, entryAt) := s.mem.cursors[|s.mem.cursors| - 1];
            var t, seg, bs := Place(plan, at, entryAt), LastSegment(s.disk), w.log[|w.log| - 1];
            Accommodates(g, seg, bs, t) && Held(g)(seg, bs, Some(t))
  {
    var (at, entryAt) := s.mem.cursors[|s.mem.cursors| - 1];
    var t, seg, bs := Place(plan, at, entryAt), LastSegment(s.disk), w.log[|w.log| - 1];
    PlanIsNew(g, s, w, plan);
    ActiveInv(g, s.disk, w);
    CursorInside(g, seg, bs);
    PlacedFits(g, plan, ws, at, entryAt);
    TakesBatch(g, seg, bs, t);
  }

  lemma BeginPutOf(inv: SegmentInv, g: Geometry, s: State, w: Witness, s': State, batch: Batch, plan: Plan, at: nat, entryAt: nat)
    requires InvOf(inv, g, s, w) && BeginStep(g, s, s', batch, plan) && batch.writes != []
    requires s'.pc == Starts(plan, at, entryAt) && s.disk.segs != [] && plan.seqno > s.mem.lastBatch
    requires Accommodates(g, LastSegment(s.disk), w.log[|w.log| - 1], Place(plan, at, entryAt))
    requires inv(LastSegment(s.disk), w.log[|w.log| - 1], Some(Place(plan, at, entryAt)))
    ensures InvOf(inv, g, s', Begun(s, w, batch, plan).(tail := Some(Place(plan, at, entryAt))))
  {
    BeginRoll(inv, g, s, w, s', batch, plan);
    RollStarts(inv, g, s.(pc := Roll(plan)), Begun(s, w, batch, plan), plan, at, entryAt);
  }

  lemma RollStarts(inv: SegmentInv, g: Geometry, s: State, w: Witness, plan: Plan, at: nat, entryAt: nat)
    requires InvOf(inv, g, s, w) && s.pc == Roll(plan) && s.disk.segs != [] && plan.seqno > s.mem.lastBatch
    requires Accommodates(g, LastSegment(s.disk), w.log[|w.log| - 1], Place(plan, at, entryAt))
    requires inv(LastSegment(s.disk), w.log[|w.log| - 1], Some(Place(plan, at, entryAt)))
    ensures InvOf(inv, g, s.(pc := Starts(plan, at, entryAt)), w.(tail := Some(Place(plan, at, entryAt))))
  {
    HigherStill(g, s, w, s.mem.lastBatch, plan.seqno);
    StartsWriting(inv, g, s, w, plan, at, entryAt);
  }

  lemma BeginPut(g: Geometry, s: State, w: Witness, s': State, batch: Batch, plan: Plan) returns (w': Witness)
    requires Inv(g, s, w) && BeginStep(g, s, s', batch, plan) && batch.writes != [] && FitsActive(g, s, batch.writes)
    ensures Inv(g, s', w') && Takes(w.abs, batch, plan.ordered, w'.abs) && w'.log == w.log
  {
    var w1 := Begun(s, w, batch, plan);
    FlightIsTaken(g, s, w, s', batch, plan);
    BeginPlans(g, s, w, s', batch, plan);
    ActiveTakes(g, s, w1, batch.writes, plan);
    var (at, entryAt) := s.mem.cursors[|s.mem.cursors| - 1];
    BeginPutOf(Held(g), g, s, w, s', batch, plan, at, entryAt);
    w' := w1.(tail := Some(Place(plan, at, entryAt)));
  }
}
