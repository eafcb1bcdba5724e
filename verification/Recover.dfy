/** Opening's scan. Pass 1 parses each segment's persist log batch by batch; pass 2 gives the
    verdicts. The functions are the specification; the methods run the loops. */
module Recover {
  import opened Format
  import opened Ops

  datatype Option<+T> = None | Some(value: T)
  datatype Result<+T, +E> = Ok(value: T) | Err(error: E)

  datatype Kind = Put | Clear | Void

  /** A persist record. A clear carries the end of its range in its id. */
  datatype Record = Record(kind: Kind, ordered: bool, index: nat, count: nat, batch: nat,
                           position: nat, id: nat, offset: nat, len: nat, crc: nat)

  /** A slot of the persist log as its checks read it. */
  datatype Slot = Zero | Damaged | Valid(record: Record)

  /** An entry whose checksum holds: its header, its stored checksum and its payload. */
  datatype Entry = Entry(kind: Kind, ordered: bool, index: nat, count: nat, batch: nat,
                         position: nat, id: nat, len: nat, crc: nat, payload: seq<int>)

  /** A segment file: its header's two links, its persist log, and the intact entries by offset. */
  datatype Segment = Segment(first: nat, prev: nat, slots: seq<Slot>, entries: map<nat, Entry>)

  datatype OpenError =
    | LostBatch(batch: nat)
    | DoubleFault(batch: nat, index: nat)
    | MetaLost
    | BadSegment

  /** Which batch numbers an earlier open already declared absent. */
  datatype Stale = Stale(generation: nat, last: nat) {
    predicate IsStale(batch: nat) { GenerationOf(batch) < generation && batch > last }

    predicate IsStaleIn(first: nat, batch: nat) { batch < first || IsStale(batch) }
  }

  datatype Found =
    | Recorded(record: Record)
    | Rebuilt(record: Record)
    | Lost

  datatype BatchScan = BatchScan(seqno: nat, count: nat, at: nat, slots: seq<Found>)

  /** A segment's batches, and where the next one goes: a slot and an entry offset. */
  datatype SegmentScan = SegmentScan(batches: seq<BatchScan>, persistNext: nat, entryNext: nat)

  datatype Shape = Here(batch: nat, count: nat) | End | Gone

  /** An index entry: the place of a value, its checks, and whether its bytes are lost. */
  datatype Located = Located(segment: nat, recordAt: nat, offset: nat, len: nat, crc: nat, id: nat,
                             batch: nat, index: nat, count: nat, ordered: bool, damaged: bool)

  /** The persist extent of the last batch, rewritten from slot `at` of a segment. */
  datatype Rewrite = Rewrite(segment: nat, at: nat, kept: seq<Record>)

  datatype Verdicts = Verdicts(ops: seq<Op<Located>>, corrupt: seq<(nat, nat)>, ambiguous: seq<(nat, nat)>,
                               rebuilt: nat, voided: nat, rewrite: Option<Rewrite>)

  /** What the scan of every segment found. */
  datatype Scan = Scan(lastBatch: nat, cursors: seq<(nat, nat)>, verdicts: Verdicts)

  // ---- cells ----

  /** A slot as the scan sees it: a record numbered beyond its own count does not decode, and one
      of a batch already declared absent counts as damage. */
  function View(seg: Segment, stale: Stale, j: nat): Slot
    requires j < |seg.slots|
  {
    match seg.slots[j]
    case Valid(r) => if r.index >= r.count || stale.IsStaleIn(seg.first, r.batch) then Damaged else Valid(r)
    case slot => slot
  }

  function ReadEntry(g: Geometry, seg: Segment, offset: nat): Option<Entry> {
    if offset < g.EntryStart() || offset + RECORD_SIZE > g.EntryEnd() then None
    else if offset !in seg.entries || seg.entries[offset].index >= seg.entries[offset].count then None
    else if offset + Footprint(seg.entries[offset].len) > g.EntryEnd() then None
    else Some(seg.entries[offset])
  }

  /** Whether `e` is exactly the entry `r` names. */
  predicate EntryMatches(r: Record, e: Entry) {
    && e.kind == r.kind && e.ordered == r.ordered && e.index == r.index && e.count == r.count
    && e.batch == r.batch && e.position == r.position && e.id == r.id && e.len == r.len && e.crc == r.crc
  }

  /** An entry repeats all its record says, so the record can be made again. */
  function Rebuild(e: Entry, offset: nat): (r: Record)
    ensures EntryMatches(r, e) && r.offset == offset
  {
    Record(e.kind, e.ordered, e.index, e.count, e.batch, e.position, e.id, offset, e.len, e.crc)
  }

  function VoidRecord(batch: nat, index: nat, count: nat): Record {
    Record(Kind.Void, false, index, count, batch, 0, 0, 0, 0, 0)
  }

  function EndOf(r: Record): nat { r.offset + Footprint(r.len) }

  // ---- pass 1 ----

  /** The first valid slot at or after `at`, the number of slots when there is none. */
  function FirstValid(seg: Segment, stale: Stale, at: nat): (j: nat)
    requires at <= |seg.slots|
    ensures at <= j <= |seg.slots|
    ensures j < |seg.slots| ==> View(seg, stale, j).Valid?
    ensures forall k | at <= k < j :: !View(seg, stale, k).Valid?
    decreases |seg.slots| - at
  {
    if at == |seg.slots| || View(seg, stale, at).Valid? then at else FirstValid(seg, stale, at + 1)
  }

  predicate IsHead(g: Geometry, seg: Segment, stale: Stale, cursor: nat, last: nat) {
    match ReadEntry(g, seg, cursor)
    case Some(e) => e.index == 0 && e.batch > last && e.batch >= seg.first && !stale.IsStale(e.batch)
    case None => false
  }

  /** The batch at slot `at`: from a valid record that belongs there, else from its first entry. */
  function ShapeAt(g: Geometry, seg: Segment, stale: Stale, at: nat, cursor: nat, last: nat): (shape: Shape)
    requires at <= |seg.slots|
    ensures shape.Here? ==> shape.count > 0 && shape.batch > last && shape.batch >= seg.first
  {
    var j := FirstValid(seg, stale, at);
    if j < |seg.slots| && j - View(seg, stale, j).record.index == at then
      var r := View(seg, stale, j).record;
      if r.batch <= last || r.batch < seg.first then Gone else Here(r.batch, r.count)
    else if IsHead(g, seg, stale, cursor, last) then
      var e := ReadEntry(g, seg, cursor).value;
      Here(e.batch, e.count)
    else if j < |seg.slots| then Gone
    else End
  }

  /** The persist log's bounds on a batch, and the offset its entries start at. */
  datatype Frame = Frame(at: nat, batch: nat, count: nat, cursor: nat)

  function WalkAfter(found: Found): Option<nat> {
    match found
    case Lost => None
    case _ => if found.record.kind == Kind.Void then None else Some(EndOf(found.record))
  }

  /** Where the entry of slot `i` starts, as far as the slots before it tell. */
  function WalkAt(g: Geometry, seg: Segment, stale: Stale, f: Frame, i: nat): Option<nat>
    requires f.at + f.count <= |seg.slots| && i <= f.count
    decreases i, 0
  {
    if i == 0 then Some(f.cursor) else WalkAfter(FoundAt(g, seg, stale, f, i - 1))
  }

  /** What slot `i` of the batch is: its record, its record rebuilt from the entry the walk
      reached, or lost. */
  function FoundAt(g: Geometry, seg: Segment, stale: Stale, f: Frame, i: nat): Found
    requires f.at + f.count <= |seg.slots| && i < f.count
    decreases i, 1
  {
    FoundHere(g, seg, stale, f, i, WalkAt(g, seg, stale, f, i))
  }

  function FoundHere(g: Geometry, seg: Segment, stale: Stale, f: Frame, i: nat, walk: Option<nat>): Found
    requires f.at + f.count <= |seg.slots| && i < f.count
  {
    var slot := View(seg, stale, f.at + i);
    if slot.Valid? && slot.record.batch == f.batch && slot.record.index == i && slot.record.count == f.count then
      Recorded(slot.record)
    else if walk.None? then Lost
    else
      match ReadEntry(g, seg, walk.value)
      case Some(e) =>
        if e.batch == f.batch && e.index == i && e.count == f.count then Rebuilt(Rebuild(e, walk.value)) else Lost
      case None => Lost
  }

  /** Where the first `n` slots' entries end. */
  function EntriesEnd(g: Geometry, seg: Segment, stale: Stale, f: Frame, n: nat): nat
    requires f.at + f.count <= |seg.slots| && n <= f.count
  {
    if n == 0 then f.cursor
    else
      var before := EntriesEnd(g, seg, stale, f, n - 1);
      match WalkAt(g, seg, stale, f, n)
      case Some(end) => if end > before then end else before
      case None => before
  }

  function FoundSlots(g: Geometry, seg: Segment, stale: Stale, f: Frame): (found: seq<Found>)
    requires f.at + f.count <= |seg.slots|
  {
    seq(f.count, i requires 0 <= i < f.count => FoundAt(g, seg, stale, f, i))
  }

  function Prepend(batches: seq<BatchScan>, rest: Result<SegmentScan, OpenError>): Result<SegmentScan, OpenError> {
    match rest
    case Ok(scan) => Ok(scan.(batches := batches + scan.batches))
    case Err(e) => Err(e)
  }

  /** Pass 1 from a batch boundary on: `last` is the last batch before it. */
  function ScanFrom(g: Geometry, seg: Segment, stale: Stale, at: nat, cursor: nat, last: nat)
    : Result<SegmentScan, OpenError>
    decreases |seg.slots| - at
  {
    if at >= |seg.slots| then Ok(SegmentScan([], at, cursor))
    else
      match ShapeAt(g, seg, stale, at, cursor, last)
      case End => Ok(SegmentScan([], at, cursor))
      case Gone => Err(LostBatch(last + 1))
      case Here(batch, count) =>
        if at + count > |seg.slots| then Err(LostBatch(batch))
        else
          var f := Frame(at, batch, count, cursor);
          Prepend([BatchScan(batch, count, at, FoundSlots(g, seg, stale, f))],
                  ScanFrom(g, seg, stale, at + Span(count),
                           AlignToBlock(EntriesEnd(g, seg, stale, f, count)), batch))
  }

  function ScanSegment(g: Geometry, seg: Segment, stale: Stale, prev: nat): Result<SegmentScan, OpenError> {
    ScanFrom(g, seg, stale, 0, g.EntryStart(), prev)
  }

  /** A scan from a slot, an entry offset and the last batch before them. */
  type Scanner = (nat, nat, nat) -> Result<SegmentScan, OpenError>

  function ScannerOf(g: Geometry, seg: Segment, stale: Stale): Scanner {
    (at: nat, cursor: nat, last: nat) => ScanFrom(g, seg, stale, at, cursor, last)
  }

  // ---- pass 2 ----

  /** Both damaged: torn by a crash in the last batch, a double fault before it. */
  function KeptAt(b: BatchScan, i: nat): Record
    requires i < |b.slots|
  {
    if b.slots[i].Lost? then VoidRecord(b.seqno, i, b.count) else b.slots[i].record
  }

  /** Whether the entry a valid record of the last batch names fails to read back. */
  predicate IsDamaged(g: Geometry, seg: Segment, found: Found, isLast: bool)
    requires !found.Lost?
  {
    isLast && found.Recorded? &&
    match ReadEntry(g, seg, found.record.offset)
    case Some(e) => !EntryMatches(found.record, e)
    case None => true
  }

  function LocatedAt(seg: Segment, b: BatchScan, i: nat, damaged: bool): Located
    requires i < |b.slots| && !b.slots[i].Lost?
  {
    var r := b.slots[i].record;
    Located(seg.first, PERSIST_START + (b.at + i) * RECORD_SIZE, r.offset, r.len, r.crc, r.id,
            r.batch, i, r.count, r.ordered, damaged)
  }

  const NOTHING := Verdicts([], [], [], 0, 0, None)

  /** The verdict on slot `i` alone. */
  function JudgeSlot(g: Geometry, seg: Segment, b: BatchScan, isLast: bool, i: nat): Result<Verdicts, OpenError>
    requires i < |b.slots|
  {
    var found := b.slots[i];
    if found.Lost? then
      if isLast then Ok(NOTHING.(voided := 1)) else Err(DoubleFault(b.seqno, i))
    else
      var r := found.record;
      var base := NOTHING.(rebuilt := if found.Rebuilt? then 1 else 0);
      match r.kind
      case Void => Ok(base)
      case Clear => Ok(base.(ops := [Op.Clear(r.position, r.id)]))
      case Put =>
        var damaged := IsDamaged(g, seg, found, isLast);
        var named := if damaged then [(r.position, r.id)] else [];
        Ok(base.(ops := [Op.Put(r.position, LocatedAt(seg, b, i, damaged))],
                 corrupt := if r.ordered then named else [],
                 ambiguous := if r.ordered then [] else named))
  }

  function Join(a: Verdicts, b: Verdicts): Verdicts {
    Verdicts(a.ops + b.ops, a.corrupt + b.corrupt, a.ambiguous + b.ambiguous,
             a.rebuilt + b.rebuilt, a.voided + b.voided, if b.rewrite.Some? then b.rewrite else a.rewrite)
  }

  function JoinResult(a: Result<Verdicts, OpenError>, b: Result<Verdicts, OpenError>): Result<Verdicts, OpenError> {
    if a.Err? then a else if b.Err? then b else Ok(Join(a.value, b.value))
  }

  /** The verdicts joined in order, or the first refusal. */
  function JoinAll(rs: seq<Result<Verdicts, OpenError>>): Result<Verdicts, OpenError> {
    if rs == [] then Ok(NOTHING) else JoinResult(JoinAll(rs[..|rs| - 1]), rs[|rs| - 1])
  }

  function SlotVerdicts(g: Geometry, seg: Segment, b: BatchScan, isLast: bool): seq<Result<Verdicts, OpenError>> {
    seq(|b.slots|, i requires 0 <= i < |b.slots| => JudgeSlot(g, seg, b, isLast, i))
  }

  /** The last batch is written back whole when a record of it was rebuilt or voided. */
  predicate NeedsRewrite(b: BatchScan, isLast: bool) {
    isLast && exists i | 0 <= i < |b.slots| :: !b.slots[i].Recorded?
  }

  function JudgeBatch(g: Geometry, seg: Segment, s: nat, b: BatchScan, isLast: bool): Result<Verdicts, OpenError> {
    var rewrite := Rewrite(s, b.at, seq(|b.slots|, i requires 0 <= i < |b.slots| => KeptAt(b, i)));
    match JoinAll(SlotVerdicts(g, seg, b, isLast))
    case Ok(v) => Ok(if NeedsRewrite(b, isLast) then v.(rewrite := Some(rewrite)) else v)
    case Err(e) => Err(e)
  }

  // ---- every segment ----

  function LastOf(scan: SegmentScan, prev: nat): nat {
    if scan.batches == [] then prev else scan.batches[|scan.batches| - 1].seqno
  }

  /** Pass 1 over every segment: each header must link to the last batch before it. */
  function ScanSegments(g: Geometry, segs: seq<Segment>, stale: Stale, last: nat)
    : (r: Result<(seq<SegmentScan>, nat), OpenError>)
    ensures r.Ok? ==> |r.value.0| == |segs|
  {
    if segs == [] then Ok(([], last))
    else if segs[0].prev != last then Err(LostBatch(last + 1))
    else
      match ScanSegment(g, segs[0], stale, last)
      case Err(e) => Err(e)
      case Ok(scan) =>
        match ScanSegments(g, segs[1..], stale, LastOf(scan, last))
        case Err(e) => Err(e)
        case Ok(rest) => Ok(([scan] + rest.0, rest.1))
  }

  /** Whether batch `b` of segment `s` is the last one anywhere. */
  predicate IsLastBatch(scans: seq<SegmentScan>, s: nat, b: nat)
    requires s < |scans| && b < |scans[s].batches|
  {
    b == |scans[s].batches| - 1 && forall t | s < t < |scans| :: scans[t].batches == []
  }

  function BatchVerdicts(g: Geometry, segs: seq<Segment>, scans: seq<SegmentScan>, s: nat): seq<Result<Verdicts, OpenError>>
    requires |segs| == |scans| && s < |scans|
  {
    seq(|scans[s].batches|, k requires 0 <= k < |scans[s].batches| =>
      JudgeBatch(g, segs[s], s, scans[s].batches[k], IsLastBatch(scans, s, k)))
  }

  function SegmentVerdicts(g: Geometry, segs: seq<Segment>, scans: seq<SegmentScan>): seq<Result<Verdicts, OpenError>>
    requires |segs| == |scans|
  {
    seq(|segs|, s requires 0 <= s < |segs| => JoinAll(BatchVerdicts(g, segs, scans, s)))
  }

  function Cursors(scans: seq<SegmentScan>): seq<(nat, nat)> {
    seq(|scans|, i requires 0 <= i < |scans| => (scans[i].persistNext, scans[i].entryNext))
  }

  function ScanAll(g: Geometry, segs: seq<Segment>, stale: Stale): Result<Scan, OpenError> {
    match ScanSegments(g, segs, stale, if segs == [] then 0 else segs[0].prev)
    case Err(e) => Err(e)
    case Ok(pass1) =>
      match JoinAll(SegmentVerdicts(g, segs, pass1.0))
      case Err(e) => Err(e)
      case Ok(v) => Ok(Scan(pass1.1, Cursors(pass1.0), v))
  }
}
