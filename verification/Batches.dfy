/** A caller's batch: what fits one segment, and where an accepted one lands. */
module Batches {
  import opened Format
  import opened Ops
  import opened Recover
  import opened Log
  import opened Verdict
  import opened Writes
  import opened Tail
  import opened Runs
  import opened Invariant
  import opened Begin
  import opened Refinement
  import opened Guarantees
  import opened Effects

  /** A put of that many bytes, whatever they are. */
  function Another(len: Option<nat>): seq<Write> {
    if len.Some? then [PutWrite(0, 0, seq(len.value, _ => 0))] else []
  }

  /** What a batch's writes make of these contents. */
  function Meant(m: map<nat, Cell>, ws: seq<Write>): map<nat, Cell> { Fold(m, WriteOps(ws)) }

  lemma MeantNext(m: map<nat, Cell>, ws: seq<Write>, w: Write)
    ensures Meant(m, ws + [w]) == Ops.Apply(Meant(m, ws), WriteOp(w))
  {
    assert WriteOps(ws + [w]) == WriteOps(ws) + [WriteOp(w)];
    FoldConcat(m, WriteOps(ws), [WriteOp(w)]);
  }

  /** Position by position: what the last write that touches it says, or else what was there. */
  lemma MeantIs(m: map<nat, Cell>, ws: seq<Write>)
    ensures AllBecome(m, ws, 0, Meant(m, ws))
  {
    var after := Meant(m, ws);
    forall p: nat ensures Becomes(m, ws, 0, after, p) { WriteBecomes(m, ws, p); }
  }

  /** The range `start..end` is gone. */
  function Without(m: map<nat, Cell>, start: nat, end: nat): map<nat, Cell> {
    map p | p in m && (p < start || p >= end) :: m[p]
  }

  class Builder {
    var writes: seq<Write>
    var floor: Option<nat>
    var meta: Option<seq<int>>

    constructor ()
      ensures writes == [] && floor == None && meta == None
    {
      writes, floor, meta := [], None, None;
    }

    /** On any contents, the batch now does what it did and then the put. */
    method Put(position: nat, id: nat, payload: seq<int>)
      modifies `writes
      ensures writes == old(writes) + [PutWrite(position, id, payload)]
      ensures forall m: map<nat, Cell> :: Meant(m, writes) == Meant(m, old(writes))[position := Cell(id, payload, false)]
    {
      writes := writes + [PutWrite(position, id, payload)];
      forall m: map<nat, Cell> ensures Meant(m, writes) == Meant(m, old(writes))[position := Cell(id, payload, false)] {
        MeantNext(m, old(writes), PutWrite(position, id, payload));
      }
    }

    /** On any contents, the batch now does what it did and then the clear, also when the range is empty
        and nothing is written for it. */
    method Clear(start: nat, end: nat)
      modifies `writes
      ensures writes == old(writes) + if start < end then [ClearWrite(start, end)] else []
      ensures forall m: map<nat, Cell> :: Meant(m, writes) == Without(Meant(m, old(writes)), start, end)
    {
      if start < end { writes := writes + [ClearWrite(start, end)]; }
      forall m: map<nat, Cell> ensures Meant(m, writes) == Without(Meant(m, old(writes)), start, end) {
        if start < end { MeantNext(m, old(writes), ClearWrite(start, end)); }
      }
    }

    /** The floor is only ever raised. */
    method TruncatePrefix(to: nat)
      modifies `floor
      ensures floor.Some? && floor.value >= to && (old(floor).Some? ==> floor.value >= old(floor).value)
      ensures floor.value == to || floor == old(floor)
    {
      floor := Some(if floor.Some? && floor.value > to then floor.value else to);
    }

    method SetMeta(bytes: seq<int>)
      modifies `meta
      ensures meta == Some(bytes)
    {
      meta := Some(bytes);
    }

    method FitsWith(g: Geometry, another: Option<nat>) returns (fits: bool)
      ensures fits == Runs.Fits(g, writes + Another(another))
    {
      var all := writes + Another(another);
      if |all| > MAX_BATCH_RECORDS { return false; }
      var bytes: nat := 0;
      for i := 0 to |all|
        invariant bytes == WritesSize(all[..i])
        invariant forall k | 0 <= k < i :: PayloadLen(all[k]) < U32_LIMIT
        invariant bytes <= i * (U32_LIMIT + 72) < U64_LIMIT
      {
        if PayloadLen(all[i]) >= U32_LIMIT { return false; }
        bytes := bytes + Footprint(PayloadLen(all[i]));
        assert all[..i + 1][..i] == all[..i];
      }
      assert all[..|all|] == all;
      fits := BlocksFor(|all|) <= g.persistBlocks && AlignToBlock(bytes) <= g.entryBlocks * 4096;
    }

    /** What fits now still fits with one more put exactly when `FitsAnother` says so. */
    method FitsAnother(g: Geometry, position: nat, id: nat, payload: seq<int>) returns (fits: bool)
      ensures fits == Runs.Fits(g, writes + [PutWrite(position, id, payload)])
    {
      fits := FitsWith(g, Some(|payload|));
      FitsByLength(g, writes, Another(Some(|payload|))[0], PutWrite(position, id, payload));
    }
  }

  /** Only the lengths of the payloads count. */
  lemma FitsByLength(g: Geometry, ws: seq<Write>, a: Write, b: Write)
    requires PayloadLen(a) == PayloadLen(b)
    ensures Runs.Fits(g, ws + [a]) == Runs.Fits(g, ws + [b])
  {
    assert (ws + [a])[..|ws|] == ws && (ws + [b])[..|ws|] == ws;
    assert WritesSize(ws + [a]) == WritesSize(ws + [b]);
    forall i | 0 <= i <= |ws| ensures PayloadLen((ws + [a])[i]) == PayloadLen((ws + [b])[i]) {
    }
  }

  // ---- what preparing it relies on ----

  lemma {:induction false} SizeGrows(ws: seq<Write>, i: nat)
    requires i <= |ws|
    ensures WritesSize(ws[..i]) <= WritesSize(ws)
    ensures i < |ws| ==> WritesSize(ws[..i]) + Footprint(PayloadLen(ws[i])) <= WritesSize(ws)
    decreases |ws| - i
  {
    if i < |ws| {
      assert ws[..i + 1][..i] == ws[..i];
      SizeGrows(ws, i + 1);
    } else {
      assert ws[..i] == ws;
    }
  }

  /** The batch's number is new, its count and every length and offset fit their fields, and its
      records and entries fit one empty segment. */
  predicate Prepares(g: Geometry, s: State, batch: Batch, plan: Plan) {
    && plan.seqno > s.mem.lastBatch && |plan.entries| == |batch.writes| <= MAX_BATCH_RECORDS
    && (forall i | 0 <= i < |batch.writes| ::
          plan.entries[i].len == PayloadLen(batch.writes[i]) < U32_LIMIT && WritesSize(batch.writes[..i]) < U32_LIMIT)
    && BlocksFor(|plan.entries|) <= g.persistBlocks && AlignToBlock(WritesSize(batch.writes)) <= g.entryBlocks * BLOCK
  }

  lemma AcceptedPrepares(g: Geometry, s: State, w: Witness, s': State, batch: Batch, plan: Plan)
    requires Inv(g, s, w) && BeginStep(g, s, s', batch, plan)
    ensures Prepares(g, s, batch, plan)
  {
    NextBatchGrows(s.mem.meta.generation, s.mem.lastBatch, s.mem.lastBatch);
    FittingPrepares(g, s, batch, plan);
  }

  lemma FittingPrepares(g: Geometry, s: State, batch: Batch, plan: Plan)
    requires g.Valid() && Runs.Fits(g, batch.writes) && EntriesFor(plan.entries, batch.writes, plan.seqno, plan.ordered)
    requires plan.seqno > s.mem.lastBatch
    ensures Prepares(g, s, batch, plan)
  {
    forall i | 0 <= i < |batch.writes|
      ensures plan.entries[i].len == PayloadLen(batch.writes[i]) < U32_LIMIT && WritesSize(batch.writes[..i]) < U32_LIMIT
    {
      SizeGrows(batch.writes, i);
      assert EntryFor(plan.entries[i], batch.writes[i], i, |batch.writes|, plan.seqno, plan.ordered);
    }
  }

  /** Whatever batch is accepted at the end of any run. */
  lemma RunPrepares(g: Geometry, run: seq<State>, s': State, batch: Batch, plan: Plan)
    requires g.Valid() && Run(g, run) && BeginStep(g, run[|run| - 1], s', batch, plan)
    ensures Prepares(g, run[|run| - 1], batch, plan)
  {
    var w := WitnessOf(g, run);
    AcceptedPrepares(g, run[|run| - 1], w, s', batch, plan);
  }

  // ---- where it lands ----

  /** Whole blocks of its own, every offset within 32 bits. */
  predicate OnBlocks(g: Geometry, t: Placed) {
    (PERSIST_START + t.at * RECORD_SIZE) % BLOCK == 0 && t.entryAt % BLOCK == 0 && EntriesTo(t) <= g.EntryEnd() < U32_LIMIT
  }

  /** After the headers and inside the segment. */
  predicate InBounds(g: Geometry, t: Placed) {
    && WellPlaced(g, t)
    && (forall i | 0 <= i < |t.entries| :: g.EntryStart() <= Off(t, i) && Off(t, i) + Footprint(t.entries[i].len) <= g.EntryEnd())
    && PERSIST_START + (t.at + Span(|t.entries|)) * RECORD_SIZE <= g.PersistEnd() <= g.EntryStart()
  }

  /** The batch's blocks, clear of everything the segment keeps. */
  predicate Lands(g: Geometry, bs: seq<Placed>, t: Placed) {
    OnBlocks(g, t) && InBounds(g, t) && forall k {:trigger bs[k]} | 0 <= k < |bs| :: WellFormed(bs[k]) && ClearOf(bs[k], t)
  }

  /** No block of `t` holds a record or a live entry of `b`. */
  predicate ClearOf(b: Placed, t: Placed)
    requires WellFormed(b)
  {
    b.at + Span(|b.entries|) <= t.at && forall i | 0 <= i < |b.entries| && b.live[i] :: Off(b, i) + Footprint(b.entries[i].len) <= t.entryAt
  }

  lemma EarlierIsClear(g: Geometry, seg: Segment, bs: seq<Placed>, t: Placed, k: nat)
    requires Holds(g, seg, bs + [t]) && k < |bs|
    ensures WellFormed(bs[k]) && ClearOf(bs[k], t)
  {
    var all := bs + [t];
    assert all[k] == bs[k] && all[|bs|] == t && Coherent(g, seg, all[k]);
    BeforeLast(g, seg, all, k);
    LiveEndBounds(bs[k], |bs[k].entries|);
  }

  lemma PlacedInBounds(g: Geometry, t: Placed)
    requires WellPlaced(g, t)
    ensures InBounds(g, t)
  {
    forall i | 0 <= i < |t.entries| ensures g.EntryStart() <= Off(t, i) && Off(t, i) + Footprint(t.entries[i].len) <= g.EntryEnd() {
      OffGrows(t, i, |t.entries|);
    }
  }

  lemma SlotOnBlock(at: nat)
    requires at % 64 == 0
    ensures (PERSIST_START + at * RECORD_SIZE) % BLOCK == 0
  {
    var q := at / 64;
    assert PERSIST_START + at * RECORD_SIZE == (2 + q) * 4096;
  }

  lemma SpanAligned(at: nat, count: nat)
    requires at % 64 == 0
    ensures (at + Span(count)) % 64 == 0
  {
  }

  /** A batch never shares a persist block with the one before it, */
  lemma {:induction false} RecordsAligned(bs: seq<Placed>, k: nat)
    requires k < |bs| && forall i {:trigger AtOf(bs, i)} | 0 <= i < |bs| :: bs[i].at == AtOf(bs, i)
    ensures bs[k].at % 64 == 0
  {
    assert bs[k].at == AtOf(bs, k);
    if k > 0 {
      RecordsAligned(bs, k - 1);
      SpanAligned(bs[k - 1].at, |bs[k - 1].entries|);
    }
  }

  lemma PlacesOf(g: Geometry, seg: Segment, bs: seq<Placed>)
    requires Holds(g, seg, bs)
    ensures forall i {:trigger AtOf(bs, i)} | 0 <= i < |bs| :: bs[i].at == AtOf(bs, i)
  {
    forall i | 0 <= i < |bs| ensures bs[i].at == AtOf(bs, i) { assert Follows(g, seg, bs, i); }
  }

  lemma EndAligned(g: Geometry, value: nat)
    requires value <= g.EntryEnd()
    ensures g.EntryStart() % 4096 == 0 && AlignToBlock(value) <= g.EntryEnd()
  {
    assert g.EntryEnd() == (2 + g.persistBlocks + g.gapBlocks + g.entryBlocks) * 4096;
  }

  /** and on one of the entry log. */
  lemma EntriesAligned(g: Geometry, seg: Segment, bs: seq<Placed>, k: nat)
    requires Holds(g, seg, bs) && k < |bs|
    ensures bs[k].entryAt % 4096 == 0 && EntriesTo(bs[k]) <= g.EntryEnd()
  {
    assert Follows(g, seg, bs, k) && Coherent(g, seg, bs[k]);
    EndAligned(g, Off(bs[k], |bs[k].entries|));
  }

  /** Whatever batch is being written, it lands clear of the headers and of all that is kept. */
  lemma InFlightLands(g: Geometry, s: State, w: Witness)
    requires Inv(g, s, w) && (s.pc.PutEntries? || s.pc.PutRecords? || s.pc.PutBoth?)
    ensures s.pc.c.batch == w.tail && Lands(g, w.log[|w.log| - 1], w.tail.value)
  {
    var seg, bs, t := LastSegment(s.disk), w.log[|w.log| - 1], w.tail.value;
    ActiveInv(g, s.disk, w);
    LandsHere(g, seg, bs, t);
  }

  lemma AlignedOnBlocks(g: Geometry, t: Placed)
    requires g.Valid() && t.at % 64 == 0 && t.entryAt % 4096 == 0 && EntriesTo(t) <= g.EntryEnd()
    ensures OnBlocks(g, t)
  {
    SlotOnBlock(t.at);
  }

  lemma LastAligned(g: Geometry, seg: Segment, bs: seq<Placed>)
    requires Holds(g, seg, bs) && bs != []
    ensures var t := bs[|bs| - 1]; t.at % 64 == 0 && t.entryAt % 4096 == 0 && EntriesTo(t) <= g.EntryEnd()
  {
    PlacesOf(g, seg, bs);
    RecordsAligned(bs, |bs| - 1);
    EntriesAligned(g, seg, bs, |bs| - 1);
  }

  lemma LandsOnBlocks(g: Geometry, seg: Segment, bs: seq<Placed>, t: Placed)
    requires g.Valid() && Holds(g, seg, bs + [t])
    ensures OnBlocks(g, t)
  {
    LastAligned(g, seg, bs + [t]);
    AlignedOnBlocks(g, t);
  }

  lemma LandsHere(g: Geometry, seg: Segment, bs: seq<Placed>, t: Placed)
    requires g.Valid() && SegInv(g, seg, bs, Some(t))
    ensures Lands(g, bs, t)
  {
    forall k {:trigger bs[k]} | 0 <= k < |bs| ensures WellFormed(bs[k]) && ClearOf(bs[k], t) { EarlierIsClear(g, seg, bs, t, k); }
    PlacedInBounds(g, t);
    LandsOnBlocks(g, seg, bs, t);
  }

  /** The batch being written at the end of any run. */
  lemma RunLands(g: Geometry, run: seq<State>) returns (w: Witness)
    requires g.Valid() && Run(g, run)
    requires var pc := run[|run| - 1].pc; pc.PutEntries? || pc.PutRecords? || pc.PutBoth?
    ensures Inv(g, run[|run| - 1], w) && run[|run| - 1].pc.c.batch == w.tail && Lands(g, w.log[|w.log| - 1], w.tail.value)
  {
    w := WitnessOf(g, run);
    InFlightLands(g, run[|run| - 1], w);
  }
}
