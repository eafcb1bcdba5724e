/** What every reachable state of the journal keeps, beside the abstract log it stands for. */
module Invariant {
  import opened Format
  import opened Ops
  import opened Recover
  import opened Log
  import opened Verdict
  import opened Writes
  import opened Tail
  import opened Spec
  import opened Runs

  /** The abstract state, the durable batches of each segment, and the batch in flight. */
  datatype Witness = Witness(abs: Abs, log: seq<seq<Placed>>, tail: Option<Placed>)

  /** While a commit is in flight the durable log gains at most a segment with nothing in it. */
  predicate LogStays(w: Witness, w': Witness) { w'.abs.flight.Some? ==> w'.log == w.log || w'.log == w.log + [[]] }

  // ---- the log ----

  function TailAt(n: nat, s: nat, tail: Option<Placed>): Option<Placed> { if s + 1 == n then tail else None }

  type SegmentInv = (Segment, seq<Placed>, Option<Placed>) -> bool

  function Held(g: Geometry): SegmentInv {
    (seg: Segment, bs: seq<Placed>, tail: Option<Placed>) => SegInv(g, seg, bs, tail)
  }

  /** Segment after segment, each linked to the last batch before it; only the last one has a
      batch in flight. */
  predicate Chained(inv: SegmentInv, segs: seq<Segment>, log: seq<seq<Placed>>, tail: Option<Placed>) {
    && |segs| == |log| && (tail.Some? ==> segs != [])
    && (forall s {:trigger TailAt(|segs|, s, tail)} | 0 <= s < |segs| :: inv(segs[s], log[s], TailAt(|segs|, s, tail)))
    && (forall s {:trigger LastBefore(segs, log, s)} | 0 <= s < |segs| :: segs[s].prev == LastBefore(segs, log, s))
    && (forall s, t {:trigger segs[s], segs[t]} | 0 <= s < t < |segs| :: segs[s].first < segs[t].first)
  }

  /** The log once the batch in flight joined it. */
  function Merged(log: seq<seq<Placed>>, tail: Option<Placed>): seq<seq<Placed>> {
    if tail.Some? && log != [] then log[|log| - 1 := log[|log| - 1] + [tail.value]] else log
  }

  function LastSegment(d: Disk): Segment
    requires d.segs != []
  {
    d.segs[|d.segs| - 1]
  }

  // ---- numbers ----

  predicate NumberOk(n: nat, generation: nat, last: nat) { n <= last || GenerationOf(n) < generation }

  predicate CellsNumbered(slots: seq<Slot>, entries: map<nat, Entry>, generation: nat, last: nat) {
    && (forall j | 0 <= j < |slots| :: slots[j].Valid? ==> NumberOk(slots[j].record.batch, generation, last))
    && (forall o | o in entries :: NumberOk(entries[o].batch, generation, last))
  }

  predicate SegmentNumbered(seg: Segment, generation: nat, last: nat) {
    NumberOk(seg.first, generation, last) && CellsNumbered(seg.slots, seg.entries, generation, last)
  }

  /** Every number on disk, aborted batches included, is at most `last` or of an earlier generation. */
  predicate Numbered(d: Disk, generation: nat, last: nat) {
    && (forall s {:trigger d.segs[s]} | 0 <= s < |d.segs| :: SegmentNumbered(d.segs[s], generation, last))
    && (forall s {:trigger d.spares[s]} | 0 <= s < |d.spares| ::
          d.spares[s].Own? ==> CellsNumbered(d.spares[s].slots, d.spares[s].entries, generation, last))
  }

  // ---- the abstract state ----

  function EntryOp(e: Entry): Op<Cell> {
    if e.kind == Kind.Clear then Op.Clear(e.position, e.id) else Op.Put(e.position, Cell(e.id, e.payload, false))
  }

  function EntryOps(es: seq<Entry>): seq<Op<Cell>> {
    seq(|es|, i requires 0 <= i < |es| => EntryOp(es[i]))
  }

  function CellOps(segs: seq<Segment>, log: seq<seq<Placed>>): seq<Op<Cell>>
    requires |segs| == |log|
  {
    MapOps(CellOfItem, LogOps(segs, log))
  }

  /** The batch in flight on disk is the commit in flight, or what a crash left of it. */
  predicate Pending(abs: Abs, tail: Option<Placed>) {
    match tail
    case None => true
    case Some(t) =>
      && abs.flight.Some? && WellFormed(t) && EntryOps(t.entries) == abs.flight.value.ops
      && MayKeep(abs.flight.value, t.live, !t.firm)
  }

  /** The log is the end of the history, and says all of it that is above the floor. */
  predicate Matches(segs: seq<Segment>, w: Witness)
    requires |segs| == |w.log|
  {
    && EndsWith(w.abs.hist, CellOps(segs, w.log))
    && Above(Fold(map[], CellOps(segs, w.log)), w.abs.floor) == Contents(w.abs)
  }

  // ---- metainfo ----

  predicate TailInside(d: Disk, tail: Option<Placed>) {
    tail.Some? ==> d.segs != [] && WellFormed(tail.value) && tail.value.at + |tail.value.entries| <= |LastSegment(d).slots|
  }

  /** Every write of the commit in flight is on disk. */
  predicate FlightDurable(d: Disk, w: Witness)
    requires TailInside(d, w.tail)
  {
    w.abs.flight.Some? &&
    match w.tail
    case None => w.abs.flight.value.ops == []
    case Some(t) => AllLive(t) && t.firm && AllEvident(LastSegment(d), t) && AllEntries(LastSegment(d), t)
  }

  predicate NotStale(m: Meta, log: seq<seq<Placed>>, tail: Option<Placed>) {
    && (forall s, k {:trigger log[s][k]} | 0 <= s < |log| && 0 <= k < |log[s]| :: !StaleOf(m).IsStale(log[s][k].seqno))
    && (tail.Some? ==> !StaleOf(m).IsStale(tail.value.seqno))
  }

  /** The metainfo is the old one, or the commit's once all of the commit is on disk. */
  predicate Installs(m: Meta, d: Disk, w: Witness)
    requires TailInside(d, w.tail)
  {
    || (m.floor == w.abs.floor && m.bytes == w.abs.bytes)
    || (FlightDurable(d, w) && m.floor == w.abs.flight.value.floor && m.bytes == w.abs.flight.value.bytes)
  }

  /** The metainfo never vouches for a batch the disk might lose. */
  predicate Vouches(m: Meta, d: Disk, w: Witness)
    requires TailInside(d, w.tail) && |d.segs| == |w.log|
  {
    || m.lastBatch <= LastBefore(d.segs, w.log, |d.segs|)
    || (w.tail.Some? && AllEvident(LastSegment(d), w.tail.value) && m.lastBatch <= w.tail.value.seqno)
  }

  predicate MetaOk(m: Meta, d: Disk, w: Witness)
    requires TailInside(d, w.tail) && |d.segs| == |w.log|
  {
    && 1 <= m.generation < 0x100_0000
    && Installs(m, d, w) && Vouches(m, d, w) && NotStale(m, w.log, w.tail) && Numbered(d, m.generation + 1, 0)
    && NumberOk(LastBefore(d.segs, w.log, |d.segs|), m.generation + 1, 0)
    && (w.tail.Some? ==> NumberOk(w.tail.value.seqno, m.generation + 1, 0))
  }

  predicate MetasOk(d: Disk, w: Witness)
    requires TailInside(d, w.tail) && |d.segs| == |w.log|
  {
    && (d.a.Copy? || d.b.Copy?)
    && (d.a.Copy? && d.b.Copy? && d.a.meta.seqno == d.b.meta.seqno ==> d.a == d.b)
    && (d.a.Copy? ==> MetaOk(d.a.meta, d, w)) && (d.b.Copy? ==> MetaOk(d.b.meta, d, w))
  }

  // ---- spares ----

  predicate SparesOk(g: Geometry, d: Disk) {
    forall s {:trigger d.spares[s]} | 0 <= s < |d.spares| ::
      match d.spares[s]
      case Own(_, _, slots, _) => |slots| == g.Slots()
      case Alias(first) => first in Firsts(d)
  }

  predicate OneSpare(d: Disk) { d.spares == [] || (|d.spares| == 1 && d.spares[0].Own?) }

  // ---- the disk, in every state ----

  /** What is on disk stands for the abstract state. */
  predicate Stands(d: Disk, w: Witness) {
    && |d.segs| == |w.log| && TailInside(d, w.tail)
    && Pending(w.abs, w.tail) && Matches(d.segs, w) && MetasOk(d, w)
    && (w.abs.flight.Some? ==> w.abs.flight.value.floor >= w.abs.floor)
  }

  predicate DiskInvOf(inv: SegmentInv, g: Geometry, d: Disk, w: Witness) {
    Chained(inv, d.segs, w.log, w.tail) && SparesOk(g, d) && Stands(d, w)
  }

  // ---- memory ----

  /** The index is these items: at their places, and only soft ones may be marked damaged. */
  predicate Reflects(index: map<nat, Located>, items: map<nat, Item>) {
    && index.Keys == items.Keys
    && forall p | p in items :: Undamaged(index[p]) == items[p].at && (index[p].damaged ==> items[p].cell.soft)
  }

  predicate CursorsAt(g: Geometry, cursors: seq<(nat, nat)>, log: seq<seq<Placed>>) {
    && |cursors| == |log|
    && forall s {:trigger cursors[s]} | 0 <= s < |log| :: cursors[s] == (AtOf(log[s], |log[s]|), CursorOf(g, log[s], |log[s]|))
  }

  function Highest(m: Mem, tail: Option<Placed>): nat { if tail.Some? then tail.value.seqno else m.lastBatch }

  /** Memory follows the log; no number on disk exceeds `highest` in this generation. */
  predicate MemInvTo(g: Geometry, s: State, w: Witness, highest: nat) {
    && |s.disk.segs| == |w.log|
    && Reflects(s.mem.index, Above(Fold(map[], LogOps(s.disk.segs, w.log)), w.abs.floor))
    && CursorsAt(g, s.mem.cursors, w.log)
    && s.mem.lastBatch == LastBefore(s.disk.segs, w.log, |s.disk.segs|) && s.mem.meta.lastBatch <= s.mem.lastBatch
    && s.mem.meta.floor == w.abs.floor && s.mem.meta.bytes == w.abs.bytes
    && GenerationOf(highest) <= s.mem.meta.generation
    && Numbered(s.disk, s.mem.meta.generation, highest)
    && OneSpare(s.disk)
  }

  predicate MemInv(g: Geometry, s: State, w: Witness) { MemInvTo(g, s, w, Highest(s.mem, w.tail)) }

  predicate BothCopies(d: Disk, m: Meta) { d.a == Copy(m) && d.b == Copy(m) }

  /** The commit's metainfo, when it changes any. */
  predicate CommitMeta(meta: Option<Meta>, s: State, abs: Abs) {
    abs.flight.Some? && var f := abs.flight.value;
    match meta
    case None => f.floor == abs.floor && f.bytes == abs.bytes
    case Some(m) =>
      m == s.mem.meta.(seqno := s.mem.meta.seqno + 1, floor := f.floor, bytes := f.bytes, lastBatch := s.mem.lastBatch)
  }

  /** The batch is prepared but has no place yet. */
  predicate PlanOk(g: Geometry, plan: Plan, s: State, w: Witness) {
    && w.tail == None && CommitMeta(plan.meta, s, w.abs)
    && EntryOps(plan.entries) == w.abs.flight.value.ops && plan.ordered == w.abs.flight.value.ordered
    && (forall i | 0 <= i < |plan.entries| :: plan.entries[i].ordered == plan.ordered)
    && WellPlaced(g, Place(plan, 0, g.EntryStart()))
    && GenerationOf(plan.seqno) == s.mem.meta.generation
    && plan.seqno == NextBatch(s.mem.meta.generation, s.mem.lastBatch)
  }

  /** The batch being written, and the number it took. */
  predicate Writing(c: Commit, s: State, w: Witness) {
    && CommitMeta(c.meta, s, w.abs) && w.tail.Some? && w.tail == c.batch && AllLive(w.tail.value)
    && w.tail.value.seqno > s.mem.lastBatch
    && TailInside(s.disk, w.tail) && w.tail.value.at + Span(|w.tail.value.entries|) <= |LastSegment(s.disk).slots|
  }

  predicate WroteAll(c: Commit, s: State, w: Witness) {
    && TailInside(s.disk, w.tail) && CommitMeta(c.meta, s, w.abs) && w.tail == c.batch && FlightDurable(s.disk, w)
    && (w.tail.Some? ==> w.tail.value.seqno > s.mem.lastBatch)
  }

  /** What the scan returned, and recovery's view of the batch in flight. */
  predicate ScanOk(g: Geometry, d: Disk, w: Witness, scan: Scan) {
    && |d.segs| == |w.log| && TailInside(d, w.tail)
    && var merged := Merged(w.log, w.tail);
    && OpsFit(scan.verdicts.ops, LogOps(d.segs, merged)) && scan.verdicts.corrupt == []
    && scan.lastBatch == LastBefore(d.segs, merged, |d.segs|)
    && CursorsAt(g, scan.cursors, merged)
    && (w.tail.Some? ==> PrefixOk(LastSegment(d), w.tail.value))
  }

  predicate TailSolid(d: Disk, w: Witness) {
    TailInside(d, w.tail) && (w.tail.Some? ==> AllEvident(LastSegment(d), w.tail.value))
  }

  predicate PcInv(g: Geometry, s: State, w: Witness) {
    match s.pc
    case Down => true
    case Refused(_) => false
    case Ready => BothCopies(s.disk, s.mem.meta) && MemInv(g, s, w) && w.abs.flight == None
    case Sweep => BothCopies(s.disk, s.mem.meta) && MemInv(g, s, w) && w.abs.flight == None
    case Roll(plan) => BothCopies(s.disk, s.mem.meta) && MemInv(g, s, w) && PlanOk(g, plan, s, w)
    case RollRename(plan) =>
      BothCopies(s.disk, s.mem.meta) && MemInv(g, s, w) && PlanOk(g, plan, s, w) && s.disk.spares != []
    case PutEntries(c) =>
      && BothCopies(s.disk, s.mem.meta) && MemInv(g, s, w) && Writing(c, s, w)
      && w.tail.value.firm && NoRecords(LastSegment(s.disk), w.tail.value)
    case PutRecords(c) =>
      && BothCopies(s.disk, s.mem.meta) && MemInv(g, s, w) && Writing(c, s, w)
      && w.tail.value.firm && AllEntries(LastSegment(s.disk), w.tail.value)
    case PutBoth(c) => BothCopies(s.disk, s.mem.meta) && MemInv(g, s, w) && Writing(c, s, w) && !w.tail.value.firm
    case MetaA(c) => BothCopies(s.disk, s.mem.meta) && MemInv(g, s, w) && WroteAll(c, s, w)
    case MetaB(c) =>
      && c.meta.Some? && s.disk.a == Copy(c.meta.value) && s.disk.b == Copy(s.mem.meta)
      && MemInv(g, s, w) && WroteAll(c, s, w)
    case RepairMeta(m, which) =>
      && (which.A? ==> s.disk.b == Copy(m) && (s.disk.a.Copy? ==> s.disk.a.meta.seqno < m.seqno))
      && (which.B? ==> s.disk.a == Copy(m) && (s.disk.b.Copy? ==> s.disk.b.meta.seqno < m.seqno))
    case PickSpare(m) => BothCopies(s.disk, m)
    case Scanning(m) => BothCopies(s.disk, m) && OneSpare(s.disk)
    case WriteBack(m, scan) =>
      && BothCopies(s.disk, m) && OneSpare(s.disk) && ScanOk(g, s.disk, w, scan) && m.generation + 1 < 0x100_0000
      && w.tail.Some? && !AllEvident(LastSegment(s.disk), w.tail.value)
      && scan.verdicts.rewrite == Some(Rewrite(|s.disk.segs| - 1, w.tail.value.at, Records(w.tail.value)))
    case GenerationA(m, scan) =>
      && s.disk.a.Copy? && s.disk.b == s.disk.a && OneSpare(s.disk) && ScanOk(g, s.disk, w, scan) && TailSolid(s.disk, w)
      && m == NextGeneration(s.disk.a.meta, scan.lastBatch) && m.generation < 0x100_0000
    case GenerationB(m, scan) =>
      && s.disk.a == Copy(m) && s.disk.b.Copy? && OneSpare(s.disk) && ScanOk(g, s.disk, w, scan) && TailSolid(s.disk, w)
      && m == NextGeneration(s.disk.b.meta, scan.lastBatch)
  }

  predicate InvOf(inv: SegmentInv, g: Geometry, s: State, w: Witness) {
    g.Valid() && DiskInvOf(inv, g, s.disk, w) && PcInv(g, s, w)
  }

  predicate Inv(g: Geometry, s: State, w: Witness) { InvOf(Held(g), g, s, w) }
}
