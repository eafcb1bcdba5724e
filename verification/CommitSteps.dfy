/** A durable batch takes effect: the metainfo copies, memory, and the dead segments in front. */
module CommitSteps {
  import opened Format
  import opened Ops
  import opened Recover
  import opened Log
  import opened Verdict
  import opened Writes
  import opened Tail
  import opened Spec
  import opened Runs
  import opened Invariant
  import opened DiskSteps
  import opened MemSteps
  import opened Begin

  // ---- the metainfo ----

  lemma CommitMetaOk(m: Meta, s: State, w: Witness)
    requires |s.disk.segs| == |w.log| && TailInside(s.disk, w.tail) && MetaOk(s.mem.meta, s.disk, w)
    requires CommitMeta(Some(m), s, w.abs) && FlightDurable(s.disk, w)
    requires s.mem.lastBatch == LastBefore(s.disk.segs, w.log, |s.disk.segs|)
    ensures MetaOk(m, s.disk, w)
  {
  }

  lemma WriteMetaA(inv: SegmentInv, g: Geometry, s: State, w: Witness, s': State)
    requires InvOf(inv, g, s, w) && MetaAStep(s, s')
    ensures InvOf(inv, g, s', w)
  {
    var m := s.pc.c.meta.value;
    CommitMetaOk(m, s, w);
    TornCopyKeeps(inv, g, s.disk, w, A, m, s'.disk);
  }

  // ---- the history ----

  function Committed(abs: Abs): Abs
    requires abs.flight.Some?
  {
    Abs(abs.hist + abs.flight.value.ops, abs.flight.value.floor, abs.flight.value.bytes, None)
  }

  function CommittedWitness(w: Witness): Witness
    requires w.abs.flight.Some?
  {
    Witness(Committed(w.abs), Merged(w.log, w.tail), None)
  }

  lemma CommitOps(d: Disk, w: Witness)
    requires TailInside(d, w.tail) && FlightDurable(d, w) && Pending(w.abs, w.tail)
    ensures MapOps(CellOfItem, TailOps(d, w.tail)) == w.abs.flight.value.ops
  {
    if w.tail.Some? {
      var t := w.tail.value;
      BatchSurvivors(LastSegment(d).first, t);
      SurvivorsAll(EntryOps(t.entries), t.live);
    }
  }

  // ---- memory ----

  lemma {:induction false} LiveEndAll(b: Placed, n: nat)
    requires n <= |b.entries| == |b.live| && AllLive(b)
    ensures LiveEnd(b, n) == Off(b, n)
  {
  }

  /** Where the next batch goes, counted from the batch's own start. */
  lemma NextCursorIs(b: Placed)
    requires |b.entries| == |b.live| && AllLive(b) && b.entryAt % 4096 == 0
    ensures NextCursor(b) == b.entryAt + AlignToBlock(Off(b, |b.entries|) - b.entryAt)
  {
    LiveEndAll(b, |b.entries|);
    AlignShift(b.entryAt, Off(b, |b.entries|) - b.entryAt);
  }

  lemma AlignShift(base: nat, value: nat)
    requires base % 4096 == 0
    ensures AlignToBlock(base + value) == base + AlignToBlock(value)
  {
  }

  lemma AppliedCursors(g: Geometry, s: State, w: Witness, t: Placed)
    requires CursorsAt(g, s.mem.cursors, w.log) && w.log != [] && |t.entries| == |t.live| && AllLive(t) && t.entryAt % 4096 == 0
    ensures var n := |s.mem.cursors| - 1;
            CursorsAt(g, s.mem.cursors[n := (t.at + Span(|t.entries|), t.entryAt + AlignToBlock(Off(t, |t.entries|) - t.entryAt))],
                      Merged(w.log, Some(t)))
  {
    NextCursorIs(t);
  }

  lemma AppliedIndex(s: State, w: Witness, ops: seq<Op<Located>>, floor: nat)
    requires |s.disk.segs| == |w.log| && TailInside(s.disk, w.tail) && OpsFit(ops, TailOps(s.disk, w.tail))
    requires Reflects(s.mem.index, Above(Fold(map[], LogOps(s.disk.segs, w.log)), w.abs.floor)) && floor >= w.abs.floor
    ensures Reflects(Above(Fold(s.mem.index, ops), floor), Above(Fold(map[], LogOps(s.disk.segs, Merged(w.log, w.tail))), floor))
  {
    TailOpsMerge(s.disk, w.log, w.tail);
    ReflectsMore(s.mem.index, LogOps(s.disk.segs, w.log), w.abs.floor, ops, TailOps(s.disk, w.tail), floor);
  }

  predicate Joins(g: Geometry, d: Disk, w: Witness) {
    w.tail.Some? ==> d.segs != [] && |d.segs| == |w.log| && w.tail.value.entryAt % 4096 == 0
                     && w.tail.value.seqno > LastBefore(d.segs, w.log, |d.segs|)
  }

  lemma MemApplied(g: Geometry, s: State, w: Witness, c: Commit, d': Disk)
    requires MemInv(g, s, w) && WroteAll(c, s, w) && Joins(g, s.disk, w) && CanApply(s, c)
    requires d'.segs == s.disk.segs && d'.spares == s.disk.spares && w.abs.flight.value.floor >= w.abs.floor
    ensures MemInv(g, State(d', Sweep, Applied(s, c)), CommittedWitness(w))
  {
    if w.tail.Some? { MemAppliedBatch(g, s, w, c, d'); } else { AppliedIndex(s, w, [], w.abs.flight.value.floor); }
  }

  lemma MemFollows(g: Geometry, s: State, w: Witness, d': Disk, m: Mem)
    requires MemInv(g, s, w) && w.tail.Some? && w.abs.flight.Some? && s.disk.segs != [] && w.tail.value.seqno > s.mem.lastBatch
    requires Reflects(m.index, Above(Fold(map[], LogOps(s.disk.segs, Merged(w.log, w.tail))), m.meta.floor))
    requires CursorsAt(g, m.cursors, Merged(w.log, w.tail)) && m.lastBatch == w.tail.value.seqno
    requires m.meta.floor == w.abs.flight.value.floor && m.meta.bytes == w.abs.flight.value.bytes
    requires m.meta.generation == s.mem.meta.generation && m.meta.lastBatch <= s.mem.lastBatch
    requires d'.segs == s.disk.segs && d'.spares == s.disk.spares
    ensures MemInv(g, State(d', Sweep, m), CommittedWitness(w))
  {
    MergedLast(s.disk.segs, w.log, w.tail.value);
  }

  lemma AppliedReflects(s: State, w: Witness, c: Commit, floor: nat)
    requires |s.disk.segs| == |w.log| && w.tail.Some? && TailInside(s.disk, w.tail) && w.tail == c.batch && s.mem.cursors != []
    requires Reflects(s.mem.index, Above(Fold(map[], LogOps(s.disk.segs, w.log)), w.abs.floor)) && floor >= w.abs.floor
    requires floor == if c.meta.Some? then c.meta.value.floor else s.mem.meta.floor
    ensures Reflects(Applied(s, c).index, Above(Fold(map[], LogOps(s.disk.segs, Merged(w.log, w.tail))), floor))
  {
    var first := LastSegment(s.disk).first;
    BatchOpsFit(first, w.tail.value);
    AppliedIndex(s, w, PutOps(first, w.tail.value), floor);
  }

  lemma AppliedPlaces(g: Geometry, s: State, w: Witness, c: Commit)
    requires |s.disk.segs| == |w.log| && w.tail.Some? && TailInside(s.disk, w.tail) && w.tail == c.batch && s.mem.cursors != []
    requires CursorsAt(g, s.mem.cursors, w.log) && AllLive(w.tail.value) && w.tail.value.entryAt % 4096 == 0
    ensures CursorsAt(g, Applied(s, c).cursors, Merged(w.log, w.tail))
  {
    AppliedCursors(g, s, w, w.tail.value);
  }

  lemma MemAppliedBatch(g: Geometry, s: State, w: Witness, c: Commit, d': Disk)
    requires MemInv(g, s, w) && WroteAll(c, s, w) && Joins(g, s.disk, w) && CanApply(s, c) && w.tail.Some?
    requires d'.segs == s.disk.segs && d'.spares == s.disk.spares && w.abs.flight.value.floor >= w.abs.floor
    ensures MemInv(g, State(d', Sweep, Applied(s, c)), CommittedWitness(w))
  {
    AppliedReflects(s, w, c, w.abs.flight.value.floor);
    AppliedPlaces(g, s, w, c);
    MemFollows(g, s, w, d', Applied(s, c));
  }

  /** The commit returns: its writes, floor and metainfo are in effect. */
  lemma CommitReturns(inv: SegmentInv, g: Geometry, s: State, w: Witness, c: Commit, d': Disk)
    requires g.Valid() && DiskInvOf(inv, g, d', w) && MemInv(g, s, w) && WroteAll(c, s, w) && Joins(g, s.disk, w)
    requires CanApply(s, c) && d'.segs == s.disk.segs && d'.spares == s.disk.spares
    requires BothCopies(d', if c.meta.Some? then c.meta.value else s.mem.meta)
    requires w.tail.Some? ==> inv(LastSegment(d'), w.log[|w.log| - 1] + [w.tail.value], None)
    ensures InvOf(inv, g, State(d', Sweep, Applied(s, c)), CommittedWitness(w))
  {
    CommitOps(d', w);
    Settle(inv, g, d', w, Committed(w.abs));
    MemApplied(g, s, w, c, d');
  }

  lemma TailJoins(g: Geometry, d: Disk, w: Witness)
    requires Chained(Held(g), d.segs, w.log, w.tail) && TailInside(d, w.tail)
    requires w.tail.Some? ==> AllEvident(LastSegment(d), w.tail.value)
    ensures Joins(g, d, w)
    ensures w.tail.Some? ==> Held(g)(LastSegment(d), w.log[|w.log| - 1] + [w.tail.value], None)
  {
    if w.tail.Some? {
      var seg, bs, t := LastSegment(d), w.log[|w.log| - 1], w.tail.value;
      ActiveInv(g, d, w);
      JoinsLog(g, seg, bs, t);
      assert Follows(g, seg, bs + [t], |bs|);
      assert bs != [] ==> (bs + [t])[|bs| - 1] == bs[|bs| - 1];
    }
  }

  lemma MetaBOf(inv: SegmentInv, g: Geometry, s: State, w: Witness, s': State)
    requires InvOf(inv, g, s, w) && MetaBStep(s, s') && Joins(g, s.disk, w)
    requires w.tail.Some? ==> inv(LastSegment(s.disk), w.log[|w.log| - 1] + [w.tail.value], None)
    ensures InvOf(inv, g, s', CommittedWitness(w))
  {
    var m := s.pc.c.meta.value;
    TornCopyKeeps(inv, g, s.disk, w, B, m, s'.disk);
    CommitReturns(inv, g, s, w, s.pc.c, s'.disk);
  }

  lemma WriteMetaB(g: Geometry, s: State, w: Witness, s': State)
    requires Inv(g, s, w) && MetaBStep(s, s')
    ensures Inv(g, s', CommittedWitness(w))
  {
    TailJoins(g, s.disk, w);
    MetaBOf(Held(g), g, s, w, s');
  }

  lemma NoMetaOf(inv: SegmentInv, g: Geometry, s: State, w: Witness, s': State)
    requires InvOf(inv, g, s, w) && NoMetaStep(s, s') && Joins(g, s.disk, w)
    requires w.tail.Some? ==> inv(LastSegment(s.disk), w.log[|w.log| - 1] + [w.tail.value], None)
    ensures InvOf(inv, g, s', CommittedWitness(w))
  {
    CommitReturns(inv, g, s, w, s.pc.c, s'.disk);
  }

  lemma NoMeta(g: Geometry, s: State, w: Witness, s': State)
    requires Inv(g, s, w) && NoMetaStep(s, s')
    ensures Inv(g, s', CommittedWitness(w))
  {
    TailJoins(g, s.disk, w);
    NoMetaOf(Held(g), g, s, w, s');
  }

  // ---- the sweep ----

  lemma RemoveOf(inv: SegmentInv, g: Geometry, s: State, w: Witness, s': State)
    requires InvOf(inv, g, s, w) && RemoveStep(s, s') && |s.disk.segs[0].slots| == g.Slots()
    ensures InvOf(inv, g, s', w.(log := w.log[1..]))
  {
    DeadIsUnused(s.mem, s.disk.segs, w.log, w.abs.floor);
    FrontDrops(inv, g, s.disk, w);
    UnusedFrontDrops(s.disk.segs, w.log, w.abs.floor);
    NumberedFront(s.disk, s.mem.meta.generation, s.mem.lastBatch);
    ChainedDrops(inv, s.disk.segs, w.log);
  }

  lemma FrontSlots(g: Geometry, d: Disk, w: Witness)
    requires Chained(Held(g), d.segs, w.log, w.tail) && d.segs != []
    ensures |d.segs[0].slots| == g.Slots()
  {
    assert Held(g)(d.segs[0], w.log[0], TailAt(|d.segs|, 0, w.tail));
  }

  lemma Remove(g: Geometry, s: State, w: Witness, s': State)
    requires Inv(g, s, w) && RemoveStep(s, s')
    ensures Inv(g, s', w.(log := w.log[1..]))
  {
    FrontSlots(g, s.disk, w);
    RemoveOf(Held(g), g, s, w, s');
  }
}
