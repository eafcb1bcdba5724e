/** The journal as a step machine over its durable writes. A step completes one write; a crash
    may come instead of any step and leaves the write in flight old, new or damaged, cell by
    cell. */
module Runs {
  import opened Format
  import opened Ops
  import opened Recover
  import opened Log
  import opened Verdict
  import opened Writes

  /** What a metainfo copy leaves the caller of its block. */
  const META_MAX: nat := 4012

  datatype Meta = Meta(seqno: nat, floor: nat, lastBatch: nat, generation: nat, openLast: nat, bytes: seq<int>)

  /** One of the two metainfo copies. */
  datatype MetaCell = Unreadable | Copy(meta: Meta)

  datatype Which = A | B

  datatype HeaderCell = NoHeader | Names(first: nat)

  /** A spare: a dead segment's file with its two header copies, or a second name that a crash
      left on a listed segment. */
  datatype Spare =
    | Own(a: HeaderCell, b: HeaderCell, slots: seq<Slot>, entries: map<nat, Entry>)
    | Alias(first: nat)

  datatype Disk = Disk(a: MetaCell, b: MetaCell, segs: seq<Segment>, spares: seq<Spare>)

  /** The open journal's memory: `cursors` says where each segment's next batch goes. */
  datatype Mem = Mem(meta: Meta, index: map<nat, Located>, cursors: seq<(nat, nat)>, lastBatch: nat)

  datatype Write = PutWrite(position: nat, id: nat, payload: seq<int>) | ClearWrite(start: nat, end: nat)

  datatype Batch = Batch(writes: seq<Write>, floor: Option<nat>, meta: Option<seq<int>>)

  /** A commit under way: the batch at its place, and the metainfo to write after it. */
  datatype Commit = Commit(batch: Option<Placed>, meta: Option<Meta>)

  datatype Plan = Plan(seqno: nat, entries: seq<Entry>, ordered: bool, meta: Option<Meta>)

  datatype Pc =
    | Down | Refused(error: OpenError) | Ready
    | Roll(plan: Plan) | RollRename(plan: Plan)
    | PutEntries(c: Commit) | PutRecords(c: Commit) | PutBoth(c: Commit)
    | MetaA(c: Commit) | MetaB(c: Commit)
    | Sweep
    | RepairMeta(meta: Meta, which: Which) | PickSpare(meta: Meta) | Scanning(meta: Meta)
    | WriteBack(meta: Meta, scan: Scan) | GenerationA(meta: Meta, scan: Scan) | GenerationB(meta: Meta, scan: Scan)

  datatype State = State(disk: Disk, pc: Pc, mem: Mem)

  // ---- metainfo ----

  /** The newer of the readable copies, and the one to repair if they differ. */
  function Choose(a: MetaCell, b: MetaCell): Result<(Meta, Option<Which>), OpenError> {
    match (a, b)
    case (Copy(x), Copy(y)) =>
      if x == y then Ok((x, None))
      else if x.seqno == y.seqno then Err(MetaLost)
      else if x.seqno > y.seqno then Ok((x, Some(B)))
      else Ok((y, Some(A)))
    case (Copy(x), Unreadable) => Ok((x, Some(B)))
    case (Unreadable, Copy(y)) => Ok((y, Some(A)))
    case (Unreadable, Unreadable) => Err(MetaLost)
  }

  function PutCopy(d: Disk, which: Which, cell: MetaCell): Disk {
    match which
    case A => d.(a := cell)
    case B => d.(b := cell)
  }

  function CopyAt(d: Disk, which: Which): MetaCell {
    match which
    case A => d.a
    case B => d.b
  }

  /** A torn copy is old, new or damaged. */
  predicate TornCopy(d: Disk, which: Which, meta: Meta, d': Disk) {
    && d' == PutCopy(d, which, CopyAt(d', which))
    && CopyAt(d', which) in {CopyAt(d, which), Copy(meta), Unreadable}
  }

  // ---- segments ----

  function PutSegment(d: Disk, s: nat, seg: Segment): Disk
    requires s < |d.segs|
  {
    d.(segs := d.segs[s := seg])
  }

  function Active(d: Disk): nat
    requires d.segs != []
  {
    |d.segs| - 1
  }

  function Firsts(d: Disk): set<nat> { set s | 0 <= s < |d.segs| :: d.segs[s].first }

  /** The first batches a spare's header copies name. */
  function NamedBatches(s: Spare): set<nat> {
    match s
    case Own(a, b, _, _) => (if a.Names? then {a.first} else {}) + (if b.Names? then {b.first} else {})
    case Alias(first) => {first}
  }

  /** The first spare that names no listed segment is kept. */
  function KeepOneSpare(spares: seq<Spare>, firsts: set<nat>): seq<Spare> {
    if spares == [] then []
    else if NamedBatches(spares[0]) * firsts == {} then [spares[0]]
    else KeepOneSpare(spares[1..], firsts)
  }

  /** A new file reads as zeros. */
  function NewSegment(g: Geometry, first: nat, prev: nat): Segment {
    Segment(first, prev, seq(g.Slots(), _ => Zero), map[])
  }

  // ---- preparing a batch ----

  function PayloadLen(w: Write): nat {
    match w
    case PutWrite(_, _, payload) => |payload|
    case ClearWrite(_, _) => 0
  }

  function WritesSize(ws: seq<Write>): nat {
    if ws == [] then 0 else WritesSize(ws[..|ws| - 1]) + Footprint(PayloadLen(ws[|ws| - 1]))
  }

  /** The batch alone, in a segment with nothing else in it. */
  predicate Fits(g: Geometry, ws: seq<Write>) {
    && |ws| <= MAX_BATCH_RECORDS
    && (forall i | 0 <= i < |ws| :: PayloadLen(ws[i]) < U32_LIMIT)
    && BlocksFor(|ws|) <= g.persistBlocks && AlignToBlock(WritesSize(ws)) <= g.entryBlocks * 4096
  }

  /** The entry a write becomes; its checksum is whatever the bytes give. */
  predicate EntryFor(e: Entry, w: Write, i: nat, count: nat, seqno: nat, ordered: bool) {
    && e.ordered == ordered && e.index == i && e.count == count && e.batch == seqno && e.len == PayloadLen(w)
    && match w {
         case PutWrite(position, id, payload) =>
           e.kind == Kind.Put && e.position == position && e.id == id && e.payload == payload
         case ClearWrite(start, end) => e.kind == Kind.Clear && e.position == start && e.id == end && e.payload == []
       }
  }

  predicate EntriesFor(es: seq<Entry>, ws: seq<Write>, seqno: nat, ordered: bool) {
    |es| == |ws| && forall i | 0 <= i < |ws| :: EntryFor(es[i], ws[i], i, |ws|, seqno, ordered)
  }

  /** Whether the batch goes after the last one of the active segment. */
  predicate FitsActive(g: Geometry, s: State, ws: seq<Write>) {
    && s.mem.cursors != []
    && var (at, entryAt) := s.mem.cursors[|s.mem.cursors| - 1];
    at + Span(|ws|) <= g.Slots() && entryAt + AlignToBlock(WritesSize(ws)) <= g.EntryEnd()
  }

  /** The batch at its place. The entries of an ordered batch are durable before its records. */
  function Place(plan: Plan, at: nat, entryAt: nat): Placed {
    Placed(plan.seqno, at, entryAt, plan.entries, seq(|plan.entries|, _ => true), plan.ordered)
  }

  function Starts(plan: Plan, at: nat, entryAt: nat): Pc {
    var c := Commit(Some(Place(plan, at, entryAt)), plan.meta);
    if plan.ordered then PutEntries(c) else PutBoth(c)
  }

  // ---- commit ----

  function NewFloor(s: State, batch: Batch): nat {
    if batch.floor.Some? && batch.floor.value > s.mem.meta.floor then batch.floor.value else s.mem.meta.floor
  }

  function NextMeta(s: State, batch: Batch): Meta {
    s.mem.meta.(seqno := s.mem.meta.seqno + 1, floor := NewFloor(s, batch), lastBatch := s.mem.lastBatch,
                bytes := if batch.meta.Some? then batch.meta.value else s.mem.meta.bytes)
  }

  predicate Accepts(g: Geometry, s: State, batch: Batch) {
    && Fits(g, batch.writes)
    && (batch.meta.Some? ==> |batch.meta.value| <= META_MAX)
    && forall i | 0 <= i < |batch.writes| :: batch.writes[i].PutWrite? ==> batch.writes[i].position >= NewFloor(s, batch)
  }

  /** The batch is accepted, numbered and placed. The generation and its batches fit their bits. */
  ghost predicate BeginStep(g: Geometry, s: State, s': State, batch: Batch, plan: Plan) {
    && s.pc == Ready && Accepts(g, s, batch)
    && var seqno := NextBatch(s.mem.meta.generation, s.mem.lastBatch);
    && var changes := batch.meta.Some? || NewFloor(s, batch) != s.mem.meta.floor;
    && plan.seqno == seqno && GenerationOf(seqno) == s.mem.meta.generation
    && plan.meta == (if changes then Some(NextMeta(s, batch)) else None)
    && EntriesFor(plan.entries, batch.writes, seqno, plan.ordered)
    && s'.disk == s.disk && s'.mem == s.mem
    && (if batch.writes == [] then changes && s'.pc == MetaA(Commit(None, plan.meta))
        else if FitsActive(g, s, batch.writes) then
          var (at, entryAt) := s.mem.cursors[|s.mem.cursors| - 1];
          s'.pc == Starts(plan, at, entryAt)
        else s'.pc == Roll(plan))
  }

  function RolledMem(g: Geometry, m: Mem): Mem { m.(cursors := m.cursors + [(0, g.EntryStart())]) }

  /** With no spare, a roll creates a file and publishes it by a rename. */
  ghost predicate CreateStep(g: Geometry, s: State, s': State) {
    && s.pc.Roll? && s.disk.spares == []
    && s'.disk == s.disk.(segs := s.disk.segs + [NewSegment(g, s.pc.plan.seqno, s.mem.lastBatch)])
    && s'.mem == RolledMem(g, s.mem) && s'.pc == Starts(s.pc.plan, 0, g.EntryStart())
  }

  /** With one, its headers are written and synced first, */
  ghost predicate AdoptStep(s: State, s': State) {
    && s.pc.Roll? && s.disk.spares != [] && s.disk.spares[0].Own?
    && var head := Names(s.pc.plan.seqno);
    && s' == State(s.disk.(spares := [s.disk.spares[0].(a := head, b := head)]), RollRename(s.pc.plan), s.mem)
  }

  function Adopted(s: State): Segment
    requires s.pc.RollRename? && s.disk.spares != [] && s.disk.spares[0].Own?
  {
    Segment(s.pc.plan.seqno, s.mem.lastBatch, s.disk.spares[0].slots, s.disk.spares[0].entries)
  }

  /** then it is renamed to its segment. */
  ghost predicate RenameStep(g: Geometry, s: State, s': State) {
    && s.pc.RollRename? && s.disk.spares != [] && s.disk.spares[0].Own?
    && s'.disk == s.disk.(segs := s.disk.segs + [Adopted(s)], spares := [])
    && s'.mem == RolledMem(g, s.mem) && s'.pc == Starts(s.pc.plan, 0, g.EntryStart())
  }

  predicate HasBatch(d: Disk, c: Commit) {
    && c.batch.Some? && d.segs != [] && var b := c.batch.value; var seg := d.segs[|d.segs| - 1];
    |b.entries| == |b.live| && b.at + Span(|b.entries|) <= |seg.slots|
  }

  ghost predicate EntriesStep(s: State, s': State) {
    && s.pc.PutEntries? && HasBatch(s.disk, s.pc.c)
    && var n := Active(s.disk);
    s' == State(PutSegment(s.disk, n, WriteEntries(s.disk.segs[n], s.pc.c.batch.value)), PutRecords(s.pc.c), s.mem)
  }

  ghost predicate RecordsStep(s: State, s': State) {
    && s.pc.PutRecords? && HasBatch(s.disk, s.pc.c)
    && var n := Active(s.disk);
    s' == State(PutSegment(s.disk, n, WriteRecords(s.disk.segs[n], s.pc.c.batch.value)), MetaA(s.pc.c), s.mem)
  }

  ghost predicate BothStep(s: State, s': State) {
    && s.pc.PutBoth? && HasBatch(s.disk, s.pc.c)
    && var n := Active(s.disk); var b := s.pc.c.batch.value;
    s' == State(PutSegment(s.disk, n, WriteRecords(WriteEntries(s.disk.segs[n], b), b)),
                MetaA(s.pc.c.(batch := Some(b.(firm := true)))), s.mem)
  }

  ghost predicate MetaAStep(s: State, s': State) {
    && s.pc.MetaA? && s.pc.c.meta.Some?
    && s' == State(s.disk.(a := Copy(s.pc.c.meta.value)), MetaB(s.pc.c), s.mem)
  }

  function PutOps(first: nat, b: Placed): seq<Op<Located>>
    requires WellFormed(b)
  {
    MapOps(AtOfItem, BatchOps(first, b))
  }

  /** Memory after a commit: cursors past the batch, the index with its operations. */
  function Applied(s: State, c: Commit): Mem
    requires c.batch.Some? ==> s.disk.segs != [] && s.mem.cursors != [] && WellFormed(c.batch.value)
  {
    var meta := if c.meta.Some? then c.meta.value else s.mem.meta;
    if c.batch.None? then s.mem.(meta := meta, index := Above(s.mem.index, meta.floor))
    else
      var b, n := c.batch.value, |s.mem.cursors| - 1;
      var index := Fold(s.mem.index, PutOps(s.disk.segs[|s.disk.segs| - 1].first, b));
      Mem(meta, Above(index, meta.floor),
          s.mem.cursors[n := (b.at + Span(|b.entries|), b.entryAt + AlignToBlock(Off(b, |b.entries|) - b.entryAt))],
          b.seqno)
  }

  predicate CanApply(s: State, c: Commit) {
    c.batch.Some? ==> s.disk.segs != [] && s.mem.cursors != [] && WellFormed(c.batch.value)
  }

  ghost predicate MetaBStep(s: State, s': State) {
    && s.pc.MetaB? && s.pc.c.meta.Some? && CanApply(s, s.pc.c)
    && s' == State(s.disk.(b := Copy(s.pc.c.meta.value)), Sweep, Applied(s, s.pc.c))
  }

  ghost predicate NoMetaStep(s: State, s': State) {
    && s.pc.MetaA? && s.pc.c.meta.None? && CanApply(s, s.pc.c)
    && s' == State(s.disk, Sweep, Applied(s, s.pc.c))
  }

  // ---- dead segments ----

  predicate IsDead(m: Mem, first: nat) { forall p | p in m.index :: m.index[p].segment != first }

  function AsSpare(seg: Segment): Spare { Own(Names(seg.first), Names(seg.first), seg.slots, seg.entries) }

  function FrontRemoved(d: Disk): Disk
    requires d.segs != []
  {
    d.(segs := d.segs[1..], spares := if d.spares == [] then [AsSpare(d.segs[0])] else d.spares)
  }

  predicate FrontIsDead(s: State) {
    |s.disk.segs| > 1 && |s.mem.cursors| > 0 && IsDead(s.mem, s.disk.segs[0].first)
  }

  ghost predicate RemoveStep(s: State, s': State) {
    && s.pc == Sweep && FrontIsDead(s)
    && s' == State(FrontRemoved(s.disk), Sweep, s.mem.(cursors := s.mem.cursors[1..]))
  }

  ghost predicate SweptStep(s: State, s': State) {
    s.pc == Sweep && !FrontIsDead(s) && s' == s.(pc := Ready)
  }

  // ---- open ----

  ghost predicate OpenStep(s: State, s': State) {
    && s.pc == Down
    && s'.disk == s.disk && s'.mem == s.mem
    && s'.pc == match Choose(s.disk.a, s.disk.b) {
                  case Err(e) => Refused(e)
                  case Ok((meta, None)) => PickSpare(meta)
                  case Ok((meta, Some(which))) => RepairMeta(meta, which)
                }
  }

  ghost predicate RepairStep(s: State, s': State) {
    && s.pc.RepairMeta?
    && s' == State(PutCopy(s.disk, s.pc.which, Copy(s.pc.meta)), PickSpare(s.pc.meta), s.mem)
  }

  ghost predicate PickStep(s: State, s': State) {
    && s.pc.PickSpare?
    && s' == State(s.disk.(spares := KeepOneSpare(s.disk.spares, Firsts(s.disk))), Scanning(s.pc.meta), s.mem)
  }

  function StaleOf(m: Meta): Stale { Stale(m.generation, m.openLast) }

  /** The next generation's metainfo: it turns all batches after the found end stale. */
  function NextGeneration(m: Meta, last: nat): Meta {
    m.(seqno := m.seqno + 1, lastBatch := last, generation := m.generation + 1, openLast := last)
  }

  function AfterScan(meta: Meta, r: Result<Scan, OpenError>): Pc {
    match r
    case Err(e) => Refused(e)
    case Ok(scan) =>
      if scan.lastBatch < meta.lastBatch then Refused(LostBatch(meta.lastBatch))
      else if scan.verdicts.rewrite.Some? then WriteBack(meta, scan)
      else GenerationA(NextGeneration(meta, scan.lastBatch), scan)
  }

  ghost predicate ScanStep(g: Geometry, s: State, s': State) {
    && s.pc.Scanning? && s.pc.meta.generation + 1 < 0x100_0000
    && s' == s.(pc := AfterScan(s.pc.meta, ScanAll(g, s.disk.segs, StaleOf(s.pc.meta))))
  }

  predicate CanWriteBack(d: Disk, r: Rewrite) {
    r.segment < |d.segs| && r.at + Span(|r.kept|) <= |d.segs[r.segment].slots|
  }

  /** The last batch's persist blocks as recovery writes them back. */
  function KeptBlocks(r: Rewrite): (b: seq<Slot>)
    ensures |b| == Span(|r.kept|)
  {
    seq(Span(|r.kept|), i requires 0 <= i < Span(|r.kept|) => if i < |r.kept| then Valid(r.kept[i]) else Zero)
  }

  function Backed(d: Disk, r: Rewrite): Disk
    requires CanWriteBack(d, r)
  {
    var seg := d.segs[r.segment];
    PutSegment(d, r.segment, seg.(slots := seg.slots[..r.at] + KeptBlocks(r) + seg.slots[r.at + Span(|r.kept|)..]))
  }

  ghost predicate WriteBackStep(s: State, s': State) {
    && s.pc.WriteBack? && s.pc.scan.verdicts.rewrite.Some?
    && var r := s.pc.scan.verdicts.rewrite.value;
    && CanWriteBack(s.disk, r)
    && s' == State(Backed(s.disk, r), GenerationA(NextGeneration(s.pc.meta, s.pc.scan.lastBatch), s.pc.scan), s.mem)
  }

  ghost predicate GenerationAStep(s: State, s': State) {
    && s.pc.GenerationA?
    && s' == State(s.disk.(a := Copy(s.pc.meta)), GenerationB(s.pc.meta, s.pc.scan), s.mem)
  }

  /** The journal is open: memory is what the scan found, above the floor. */
  ghost predicate GenerationBStep(s: State, s': State) {
    && s.pc.GenerationB?
    && var scan := s.pc.scan;
    s' == State(s.disk.(b := Copy(s.pc.meta)), Sweep,
                Mem(s.pc.meta, Above(Fold(map[], scan.verdicts.ops), s.pc.meta.floor), scan.cursors, scan.lastBatch))
  }

  // ---- crashes ----

  /** What a crash may leave on disk, given the write in flight. */
  ghost predicate CrashLeaves(s: State, d: Disk) {
    || d == s.disk
    || match s.pc {
         case Roll(plan) =>
           && s.disk.spares != [] && s.disk.spares[0].Own?
           && d.spares != [] && d.spares[0].Own?
           && d == s.disk.(spares := [s.disk.spares[0].(a := d.spares[0].a, b := d.spares[0].b)])
           && d.spares[0].a in {s.disk.spares[0].a, Names(plan.seqno), NoHeader}
           && d.spares[0].b in {s.disk.spares[0].b, Names(plan.seqno), NoHeader}
         case RollRename(plan) =>
           && s.disk.spares != [] && s.disk.spares[0].Own?
           && d.segs == s.disk.segs + [Adopted(s)] && d.spares in {[], [Alias(plan.seqno)]}
           && d == s.disk.(segs := d.segs, spares := d.spares)
         case PutEntries(c) => HasBatch(s.disk, c) && CrashedSegment(s.disk, d, c.batch.value, true, false)
         case PutRecords(c) => HasBatch(s.disk, c) && CrashedSegment(s.disk, d, c.batch.value, false, true)
         case PutBoth(c) => HasBatch(s.disk, c) && CrashedSegment(s.disk, d, c.batch.value, true, true)
         case MetaA(c) => c.meta.Some? && TornCopy(s.disk, A, c.meta.value, d)
         case MetaB(c) => c.meta.Some? && TornCopy(s.disk, B, c.meta.value, d)
         case Sweep =>
           && FrontIsDead(s)
           && (d == FrontRemoved(s.disk)
               || (s.disk.spares == [] && d == s.disk.(spares := [Alias(s.disk.segs[0].first)])))
         case RepairMeta(meta, which) => TornCopy(s.disk, which, meta, d)
         case PickSpare(meta) =>
           && d == s.disk.(spares := d.spares)
           && forall x | x in d.spares :: x in s.disk.spares
         case WriteBack(meta, scan) => scan.verdicts.rewrite.Some? && TornWriteBack(s.disk, d, scan.verdicts.rewrite.value)
         case GenerationA(meta, scan) => TornCopy(s.disk, A, meta, d)
         case GenerationB(meta, scan) => TornCopy(s.disk, B, meta, d)
         case _ => false
       }
  }

  /** The active segment's blocks in flight, torn: the entries', the records', or both. */
  ghost predicate CrashedSegment(before: Disk, after: Disk, b: Placed, entries: bool, records: bool)
    requires before.segs != [] && |b.entries| == |b.live| && b.at + Span(|b.entries|) <= |before.segs[|before.segs| - 1].slots|
  {
    exists mid: Segment, end: Segment :: CrashedThrough(before, after, b, entries, records, mid, end)
  }

  predicate CrashedThrough(before: Disk, after: Disk, b: Placed, entries: bool, records: bool, mid: Segment, end: Segment)
    requires before.segs != [] && |b.entries| == |b.live| && b.at + Span(|b.entries|) <= |before.segs[|before.segs| - 1].slots|
  {
    var seg := before.segs[|before.segs| - 1];
    && (if entries then TornEntries(seg, b, mid) else mid == seg) && |mid.slots| == |seg.slots|
    && (if records then TornRecords(mid, b, end) else end == mid)
    && after == PutSegment(before, |before.segs| - 1, end)
  }

  ghost predicate TornWriteBack(before: Disk, after: Disk, r: Rewrite) {
    && CanWriteBack(before, r) && |after.segs| == |before.segs|
    && after == PutSegment(before, r.segment, after.segs[r.segment])
    && var seg, torn := before.segs[r.segment], after.segs[r.segment];
    && torn == seg.(slots := torn.slots) && |torn.slots| == |seg.slots|
    && forall j | 0 <= j < |seg.slots| ::
         || torn.slots[j] == seg.slots[j]
         || (r.at <= j < r.at + Span(|r.kept|) && (torn.slots[j] == KeptBlocks(r)[j - r.at] || torn.slots[j] == Damaged))
  }

  /** Power is lost, or a write fails and the journal is dropped: only the disk is left. */
  ghost predicate CrashStep(s: State, s': State) {
    !s.pc.Refused? && s'.pc == Down && CrashLeaves(s, s'.disk)
  }

  // ---- runs ----

  /** A journal just created. */
  ghost predicate Init(s: State) {
    && s.pc == Ready && s.disk.a == s.disk.b == Copy(s.mem.meta) && s.disk.segs == [] && s.disk.spares == []
    && s.mem.meta == Meta(1, 0, 0, 1, 0, s.mem.meta.bytes)
    && s.mem.index == map[] && s.mem.cursors == [] && s.mem.lastBatch == 0
  }

  ghost predicate CommitNext(g: Geometry, s: State, s': State) {
    || (exists batch, plan :: BeginStep(g, s, s', batch, plan))
    || CreateStep(g, s, s') || AdoptStep(s, s') || RenameStep(g, s, s')
    || EntriesStep(s, s') || RecordsStep(s, s') || BothStep(s, s')
    || MetaAStep(s, s') || MetaBStep(s, s') || NoMetaStep(s, s')
    || RemoveStep(s, s') || SweptStep(s, s')
  }

  ghost predicate OpenNext(g: Geometry, s: State, s': State) {
    || OpenStep(s, s') || RepairStep(s, s') || PickStep(s, s') || ScanStep(g, s, s') || WriteBackStep(s, s')
    || GenerationAStep(s, s') || GenerationBStep(s, s')
  }

  ghost predicate Next(g: Geometry, s: State, s': State) {
    CommitNext(g, s, s') || OpenNext(g, s, s') || CrashStep(s, s')
  }
}
