/** A roll: the batch starts a new segment, created or made of the spare. */
module RollSteps {
  import opened Format
  import opened Ops
  import opened Recover
  import opened Log
  import opened Verdict
  import opened Writes
  import opened Tail
  import opened Spec
  import opened Runs
  import opened Invariant
  import opened DiskSteps
  import opened MemSteps
  import opened Begin

  /** A segment with nothing of its own yet holds no batch, whatever its file held before. */
  lemma EmptySegment(g: Geometry, seg: Segment)
    requires |seg.slots| == g.Slots() && Below(seg, seg.first)
    ensures SegInv(g, seg, [], None)
  {
  }

  lemma EmptyTakes(g: Geometry, seg: Segment, plan: Plan)
    requires |seg.slots| == g.Slots() && Below(seg, seg.first) && seg.first == plan.seqno && seg.prev < plan.seqno
    requires WellPlaced(g, Place(plan, 0, g.EntryStart()))
    requires forall i | 0 <= i < |plan.entries| :: plan.entries[i].ordered == plan.ordered
    ensures Held(g)(seg, [], None)
    ensures Accommodates(g, seg, [], Place(plan, 0, g.EntryStart())) && Held(g)(seg, [], Some(Place(plan, 0, g.EntryStart())))
  {
    EmptySegment(g, seg);
    TakesBatch(g, seg, [], Place(plan, 0, g.EntryStart()));
  }

  predicate RollReady(inv: SegmentInv, g: Geometry, s: State, w: Witness, plan: Plan) {
    && g.Valid() && DiskInvOf(inv, g, s.disk, w) && BothCopies(s.disk, s.mem.meta)
    && MemInv(g, s, w) && PlanOk(g, plan, s, w)
  }

  lemma FirstIsNumbered(seg: Segment, generation: nat, last: nat)
    requires CellsNumbered(seg.slots, seg.entries, generation, last) && GenerationOf(seg.first) == generation
    requires GenerationOf(last) <= generation
    ensures SegmentNumbered(seg, generation + 1, 0)
    ensures last <= seg.first ==> SegmentNumbered(seg, generation, seg.first)
  {
    forall n: nat | n <= last ensures GenerationOf(n) <= generation {
      assert n / PER_GENERATION <= last / PER_GENERATION;
    }
  }

  lemma RolledMemory(g: Geometry, s: State, w: Witness, plan: Plan, seg: Segment, d': Disk)
    requires MemInv(g, s, w) && PlanOk(g, plan, s, w) && plan.seqno > s.mem.lastBatch
    requires seg.first == plan.seqno && seg.prev == s.mem.lastBatch
    requires CellsNumbered(seg.slots, seg.entries, s.mem.meta.generation, s.mem.lastBatch)
    requires d' == s.disk.(segs := s.disk.segs + [seg], spares := [])
    ensures MemInvTo(g, State(d', s.pc, RolledMem(g, s.mem)), w.(log := w.log + [[]]), plan.seqno)
  {
    var generation := s.mem.meta.generation;
    GrownOps(s.disk.segs, w.log, seg);
    NumberedGrows(s.disk, generation, s.mem.lastBatch, generation, plan.seqno);
    FirstIsNumbered(seg, generation, s.mem.lastBatch);
    NumberedGrown(s.disk, seg, d', generation, plan.seqno);
    var log', cursors' := w.log + [[]], s.mem.cursors + [(0, g.EntryStart())];
    forall i | 0 <= i < |log'| ensures cursors'[i] == (AtOf(log'[i], |log'[i]|), CursorOf(g, log'[i], |log'[i]|)) {
      if i < |w.log| { assert cursors'[i] == s.mem.cursors[i]; }
    }
  }

  lemma RolledDisk(inv: SegmentInv, g: Geometry, s: State, w: Witness, plan: Plan, seg: Segment, d': Disk)
    requires RollReady(inv, g, s, w, plan) && seg.first == plan.seqno && seg.prev == s.mem.lastBatch
    requires CellsNumbered(seg.slots, seg.entries, s.mem.meta.generation, s.mem.lastBatch)
    requires d' == s.disk.(segs := s.disk.segs + [seg], spares := d'.spares) && SparesFrom(s.disk, d')
    requires inv(seg, [], None)
    ensures DiskInvOf(inv, g, d', w.(log := w.log + [[]]))
    ensures plan.seqno > s.mem.lastBatch
  {
    PlanIsNew(g, s, w, plan);
    FirstIsNumbered(seg, s.mem.meta.generation, s.mem.lastBatch);
    assert Unvouched(s.disk, w);
    SegmentGrows(inv, g, s.disk, w, seg, d');
  }

  /** The new segment is listed and takes the batch. */
  lemma Rolled(inv: SegmentInv, g: Geometry, s: State, w: Witness, plan: Plan, seg: Segment, d': Disk)
    requires RollReady(inv, g, s, w, plan) && seg.first == plan.seqno && seg.prev == s.mem.lastBatch
    requires CellsNumbered(seg.slots, seg.entries, s.mem.meta.generation, s.mem.lastBatch)
    requires d' == s.disk.(segs := s.disk.segs + [seg], spares := [])
    requires inv(seg, [], None) && inv(seg, [], Some(Place(plan, 0, g.EntryStart())))
    requires Accommodates(g, seg, [], Place(plan, 0, g.EntryStart()))
    ensures InvOf(inv, g, State(d', Starts(plan, 0, g.EntryStart()), RolledMem(g, s.mem)),
                  w.(log := w.log + [[]], tail := Some(Place(plan, 0, g.EntryStart()))))
  {
    RolledDisk(inv, g, s, w, plan, seg, d');
    RolledMemory(g, s, w, plan, seg, d');
    var r, w1 := State(d', s.pc, RolledMem(g, s.mem)), w.(log := w.log + [[]]);
    StartsWriting(inv, g, r, w1, plan, 0, g.EntryStart());
  }

  lemma Create(g: Geometry, s: State, w: Witness, s': State) returns (w': Witness)
    requires Inv(g, s, w) && CreateStep(g, s, s')
    ensures Inv(g, s', w') && w'.abs == w.abs && w'.log == w.log + [[]]
  {
    var plan := s.pc.plan;
    var seg := NewSegment(g, plan.seqno, s.mem.lastBatch);
    PlanIsNew(g, s, w, plan);
    EmptyTakes(g, seg, plan);
    Rolled(Held(g), g, s, w, plan, seg, s'.disk);
    w' := w.(log := w.log + [[]], tail := Some(Place(plan, 0, g.EntryStart())));
  }

  lemma HeadersFrom(d: Disk, d': Disk)
    requires |d.spares| == |d'.spares| == 1 && d.spares[0].Own? && d'.spares[0].Own?
    requires d'.spares[0].slots == d.spares[0].slots && d'.spares[0].entries == d.spares[0].entries
    ensures SparesFrom(d, d')
  {
    assert d.spares[0].Own?;
  }

  lemma Adopt(inv: SegmentInv, g: Geometry, s: State, w: Witness, s': State)
    requires InvOf(inv, g, s, w) && AdoptStep(s, s')
    ensures InvOf(inv, g, s', w)
  {
    HeadersFrom(s.disk, s'.disk);
    SparesChange(inv, g, s.disk, w, s'.disk);
    NumberedSpares(s.disk, s'.disk, s.mem.meta.generation, s.mem.lastBatch);
  }

  lemma AdoptedIs(g: Geometry, s: State, w: Witness)
    requires s.pc.RollRename? && RollReady(Held(g), g, s, w, s.pc.plan) && s.disk.spares != [] && s.disk.spares[0].Own?
    ensures var seg := Adopted(s);
            && CellsNumbered(seg.slots, seg.entries, s.mem.meta.generation, s.mem.lastBatch)
            && Held(g)(seg, [], None) && Held(g)(seg, [], Some(Place(s.pc.plan, 0, g.EntryStart())))
            && Accommodates(g, seg, [], Place(s.pc.plan, 0, g.EntryStart()))
  {
    PlanIsNew(g, s, w, s.pc.plan);
    EmptyTakes(g, Adopted(s), s.pc.plan);
  }

  lemma Rename(g: Geometry, s: State, w: Witness, s': State) returns (w': Witness)
    requires Inv(g, s, w) && RenameStep(g, s, s')
    ensures Inv(g, s', w') && w'.abs == w.abs && w'.log == w.log + [[]]
  {
    var plan := s.pc.plan;
    AdoptedIs(g, s, w);
    Rolled(Held(g), g, s, w, plan, Adopted(s), s'.disk);
    w' := w.(log := w.log + [[]], tail := Some(Place(plan, 0, g.EntryStart())));
  }
}
