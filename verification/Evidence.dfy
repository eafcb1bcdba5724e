/** What pass 1 makes of any disk, damaged however it may be: which batches it finds, and that it never
    ends, or goes on, past a record that still counts. */
module Evidence {
  import opened Format
  import opened Recover

  // ---- what counts ----

  /** A batch number an earlier open declared absent. */
  predicate Declared(stale: Stale, batch: nat) { batch / 0x100_0000_0000 < stale.generation && batch > stale.last }

  /** The slot holds a record that is evidence: it decodes, it is no older than its segment, and no open
      declared its batch absent. */
  predicate Counts(seg: Segment, stale: Stale, j: nat) {
    j < |seg.slots| && seg.slots[j].Valid? && var r := seg.slots[j].record;
    r.index < r.count && r.batch >= seg.first && !Declared(stale, r.batch)
  }

  /** An entry that reads back whole, inside the entry log. */
  predicate ReadsBack(g: Geometry, seg: Segment, o: nat) {
    && o in seg.entries && seg.entries[o].index < seg.entries[o].count
    && g.EntryStart() <= o && o + Footprint(seg.entries[o].len) <= g.EntryEnd()
  }

  /** The first entry of a batch after `last`. */
  predicate Heads(g: Geometry, seg: Segment, stale: Stale, o: nat, last: nat) {
    ReadsBack(g, seg, o) && var e := seg.entries[o]; e.index == 0 && e.batch > last && e.batch >= seg.first && !Declared(stale, e.batch)
  }

  lemma ViewMeans(seg: Segment, stale: Stale, j: nat)
    requires j < |seg.slots|
    ensures View(seg, stale, j).Valid? <==> Counts(seg, stale, j)
    ensures Counts(seg, stale, j) ==> View(seg, stale, j) == seg.slots[j]
  {
  }

  lemma ReadMeans(g: Geometry, seg: Segment, o: nat)
    ensures ReadEntry(g, seg, o) == if ReadsBack(g, seg, o) then Some(seg.entries[o]) else None
  {
  }

  // ---- a batch at a boundary ----

  /** The first record that counts from slot `at` on. */
  predicate IsFirst(seg: Segment, stale: Stale, at: nat, j: nat) {
    at <= j && Counts(seg, stale, j) && forall k | at <= k < j :: !Counts(seg, stale, k)
  }

  /** That record belongs to a batch that begins at `at`. */
  predicate Belongs(seg: Segment, stale: Stale, at: nat, j: nat) { IsFirst(seg, stale, at, j) && j - seg.slots[j].record.index == at }

  ghost predicate SomeBelongs(seg: Segment, stale: Stale, at: nat) { exists j: nat :: Belongs(seg, stale, at, j) }

  /** The batch at slot `at`: as its first record tells, or else as its first entry does. */
  ghost predicate Locates(g: Geometry, seg: Segment, stale: Stale, at: nat, cursor: nat, last: nat, batch: nat, count: nat) {
    || (exists j: nat :: Belongs(seg, stale, at, j) && seg.slots[j].record.batch == batch > last && seg.slots[j].record.count == count)
    || (!SomeBelongs(seg, stale, at) && Heads(g, seg, stale, cursor, last) && seg.entries[cursor].batch == batch && seg.entries[cursor].count == count)
  }

  /** Nothing from here on is evidence. */
  predicate EndsAt(g: Geometry, seg: Segment, stale: Stale, at: nat, cursor: nat, last: nat) {
    at < |seg.slots| ==> (forall j | at <= j < |seg.slots| :: !Counts(seg, stale, j)) && !Heads(g, seg, stale, cursor, last)
  }

  /** Where the entry after this slot's starts, if the slot tells. */
  function EntryAfter(found: Found): Option<nat> {
    if found.Lost? || found.record.kind == Kind.Void then None else Some(found.record.offset + Footprint(found.record.len))
  }

  predicate IsOf(b: BatchScan, i: nat, batch: nat, index: nat, count: nat) { batch == b.seqno && index == i && count == b.count }

  /** Where the walk expects the entry of slot `i`. */
  function Expected(b: BatchScan, cursor: nat, i: nat): Option<nat>
    requires i <= |b.slots|
  {
    if i == 0 then Some(cursor) else EntryAfter(b.slots[i - 1])
  }

  /** What is found at slot `i`: its record if it counts, else the record its entry repeats, else nothing. */
  predicate SlotIs(g: Geometry, seg: Segment, stale: Stale, b: BatchScan, cursor: nat, i: nat)
    requires i < |b.slots|
  {
    var j, o := b.at + i, Expected(b, cursor, i);
    if Counts(seg, stale, j) && IsOf(b, i, seg.slots[j].record.batch, seg.slots[j].record.index, seg.slots[j].record.count)
    then b.slots[i] == Recorded(seg.slots[j].record)
    else if o.Some? && ReadsBack(g, seg, o.value) && IsOf(b, i, seg.entries[o.value].batch, seg.entries[o.value].index, seg.entries[o.value].count)
    then b.slots[i].Rebuilt? && EntryMatches(b.slots[i].record, seg.entries[o.value]) && b.slots[i].record.offset == o.value
    else b.slots[i] == Lost
  }

  ghost predicate BatchAt(g: Geometry, seg: Segment, stale: Stale, at: nat, cursor: nat, last: nat, b: BatchScan) {
    && b.at == at && b.count > 0 && at + b.count <= |seg.slots| && |b.slots| == b.count
    && Locates(g, seg, stale, at, cursor, last, b.seqno, b.count)
    && forall i {:trigger SlotIs(g, seg, stale, b, cursor, i)} | 0 <= i < b.count :: SlotIs(g, seg, stale, b, cursor, i)
  }

  /** The furthest end of the entries found, from `cursor` on. */
  function Furthest(slots: seq<Found>, cursor: nat): (end: nat)
    ensures end >= cursor && forall i | 0 <= i < |slots| && EntryAfter(slots[i]).Some? :: end >= EntryAfter(slots[i]).value
    ensures end == cursor || exists i | 0 <= i < |slots| :: EntryAfter(slots[i]) == Some(end)
  {
    if slots == [] then cursor
    else
      var n := |slots| - 1;
      var before := Furthest(slots[..n], cursor);
      assert forall i | 0 <= i < n :: slots[..n][i] == slots[i];
      if EntryAfter(slots[n]).Some? && EntryAfter(slots[n]).value > before then EntryAfter(slots[n]).value else before
  }

  /** What is found at a boundary, and whether the log ends there. */
  type Finds = (nat, nat, nat, BatchScan) -> bool
  type Stops = (nat, nat, nat) -> bool

  ghost function FindsIn(g: Geometry, seg: Segment, stale: Stale): Finds {
    (at: nat, cursor: nat, last: nat, b: BatchScan) => BatchAt(g, seg, stale, at, cursor, last, b)
  }

  ghost function StopsIn(g: Geometry, seg: Segment, stale: Stale): Stops {
    (at: nat, cursor: nat, last: nat) => EndsAt(g, seg, stale, at, cursor, last)
  }

  /** The batches from a boundary on, one after the other, until the log ends. */
  predicate Parses(finds: Finds, stops: Stops, at: nat, cursor: nat, last: nat, scan: SegmentScan)
    decreases |scan.batches|
  {
    if scan.batches == [] then scan.persistNext == at && scan.entryNext == cursor && stops(at, cursor, last)
    else
      var b := scan.batches[0];
      && finds(at, cursor, last, b)
      && Parses(finds, stops, at + Span(b.count), AlignToBlock(Furthest(b.slots, cursor)), b.seqno, scan.(batches := scan.batches[1..]))
  }

  /** The segment's batches are these, and nothing in it counts beyond them. */
  ghost predicate HoldsExactly(g: Geometry, seg: Segment, stale: Stale, prev: nat, scan: SegmentScan) {
    Parses(FindsIn(g, seg, stale), StopsIn(g, seg, stale), 0, g.EntryStart(), prev, scan)
  }

  // ---- one batch ----

  lemma FirstIs(seg: Segment, stale: Stale, at: nat)
    requires at <= |seg.slots|
    ensures var j := FirstValid(seg, stale, at);
            && (j < |seg.slots| ==> IsFirst(seg, stale, at, j) && View(seg, stale, j) == seg.slots[j])
            && (j == |seg.slots| ==> forall k | at <= k < |seg.slots| :: !Counts(seg, stale, k))
  {
    var j := FirstValid(seg, stale, at);
    forall k | at <= k < |seg.slots| ensures View(seg, stale, k).Valid? <==> Counts(seg, stale, k) { ViewMeans(seg, stale, k); }
    if j < |seg.slots| { ViewMeans(seg, stale, j); }
  }

  lemma FirstIsOne(seg: Segment, stale: Stale, at: nat, j: nat, k: nat)
    requires IsFirst(seg, stale, at, j) && IsFirst(seg, stale, at, k)
    ensures j == k
  {
  }

  /** The shape at a boundary, for any disk: a batch exactly when one is located, the end exactly when
      nothing counts any more, and lost in every other case. */
  lemma ShapeMeans(g: Geometry, seg: Segment, stale: Stale, at: nat, cursor: nat, last: nat)
    requires at < |seg.slots|
    ensures var shape := ShapeAt(g, seg, stale, at, cursor, last);
            && (shape.Here? ==> Locates(g, seg, stale, at, cursor, last, shape.batch, shape.count))
            && (shape.End? <==> EndsAt(g, seg, stale, at, cursor, last))
            && (forall batch: nat, count: nat {:trigger Locates(g, seg, stale, at, cursor, last, batch, count)} |
                  Locates(g, seg, stale, at, cursor, last, batch, count) :: shape == Here(batch, count))
  {
    var j := FirstValid(seg, stale, at);
    FirstIs(seg, stale, at);
    ReadMeans(g, seg, cursor);
    forall k: nat | Belongs(seg, stale, at, k) ensures k == j < |seg.slots| {
      if j < |seg.slots| { FirstIsOne(seg, stale, at, j, k); }
    }
    if j < |seg.slots| && j - seg.slots[j].record.index == at { assert Belongs(seg, stale, at, j); }
  }

  lemma {:induction false} SlotFound(g: Geometry, seg: Segment, stale: Stale, f: Frame, b: BatchScan, i: nat)
    requires f.at + f.count <= |seg.slots| && b == BatchScan(f.batch, f.count, f.at, FoundSlots(g, seg, stale, f)) && i < f.count
    ensures SlotIs(g, seg, stale, b, f.cursor, i)
  {
    var walk := WalkAt(g, seg, stale, f, i);
    assert walk == Expected(b, f.cursor, i);
    ViewMeans(seg, stale, f.at + i);
    if walk.Some? { ReadMeans(g, seg, walk.value); }
  }

  lemma FurthestNext(slots: seq<Found>, cursor: nat, n: nat)
    requires n < |slots|
    ensures var before, next := Furthest(slots[..n], cursor), EntryAfter(slots[n]);
            Furthest(slots[..n + 1], cursor) == if next.Some? && next.value > before then next.value else before
  {
    assert slots[..n + 1][..n] == slots[..n];
  }

  lemma WalkIs(g: Geometry, seg: Segment, stale: Stale, f: Frame, n: nat)
    requires f.at + f.count <= |seg.slots| && n < f.count
    ensures WalkAt(g, seg, stale, f, n + 1) == EntryAfter(FoundSlots(g, seg, stale, f)[n])
  {
  }

  lemma {:induction false} EndFound(g: Geometry, seg: Segment, stale: Stale, f: Frame, n: nat)
    requires f.at + f.count <= |seg.slots| && n <= f.count
    ensures EntriesEnd(g, seg, stale, f, n) == Furthest(FoundSlots(g, seg, stale, f)[..n], f.cursor)
  {
    if n > 0 {
      EndFound(g, seg, stale, f, n - 1);
      WalkIs(g, seg, stale, f, n - 1);
      FurthestNext(FoundSlots(g, seg, stale, f), f.cursor, n - 1);
    }
  }

  lemma FoundBatch(g: Geometry, seg: Segment, stale: Stale, f: Frame, last: nat)
    requires f.at + f.count <= |seg.slots| && f.count > 0 && Locates(g, seg, stale, f.at, f.cursor, last, f.batch, f.count)
    ensures var b := BatchScan(f.batch, f.count, f.at, FoundSlots(g, seg, stale, f));
            && BatchAt(g, seg, stale, f.at, f.cursor, last, b)
            && EntriesEnd(g, seg, stale, f, f.count) == Furthest(b.slots, f.cursor)
  {
    var b := BatchScan(f.batch, f.count, f.at, FoundSlots(g, seg, stale, f));
    var cursor := f.cursor;
    forall i {:trigger SlotIs(g, seg, stale, b, cursor, i)} | 0 <= i < b.count ensures SlotIs(g, seg, stale, b, cursor, i) { SlotFound(g, seg, stale, f, b, i); }
    EndFound(g, seg, stale, f, f.count);
    assert b.slots[..f.count] == b.slots;
  }

  /** The cells leave no choice what a slot is. */
  lemma {:induction false} OneBatch(g: Geometry, seg: Segment, stale: Stale, at: nat, cursor: nat, last: nat, b: BatchScan, c: BatchScan, n: nat)
    requires BatchAt(g, seg, stale, at, cursor, last, b) && BatchAt(g, seg, stale, at, cursor, last, c)
    requires b.seqno == c.seqno && b.count == c.count && n <= b.count
    ensures b.slots[..n] == c.slots[..n]
  {
    if n > 0 {
      OneBatch(g, seg, stale, at, cursor, last, b, c, n - 1);
      assert n > 1 ==> b.slots[..n - 1][n - 2] == c.slots[..n - 1][n - 2];
      assert SlotIs(g, seg, stale, b, cursor, n - 1) && SlotIs(g, seg, stale, c, cursor, n - 1);
      assert b.slots[n - 1] == c.slots[n - 1];
      assert b.slots[..n] == b.slots[..n - 1] + [b.slots[n - 1]] && c.slots[..n] == c.slots[..n - 1] + [c.slots[n - 1]];
    }
  }

  // ---- a whole segment ----

  /** What the scan does at one boundary: it ends, it refuses, or it finds a batch and the cursor after it. */
  function LookAt(g: Geometry, seg: Segment, stale: Stale, at: nat, cursor: nat, last: nat)
    : (r: Result<Option<(BatchScan, nat)>, OpenError>)
    ensures r.Ok? && r.value.Some? ==> at < |seg.slots| && r.value.value.0.count > 0
  {
    if at >= |seg.slots| then Ok(None)
    else
      match ShapeAt(g, seg, stale, at, cursor, last)
      case End => Ok(None)
      case Gone => Err(LostBatch(last + 1))
      case Here(batch, count) =>
        if at + count > |seg.slots| then Err(LostBatch(batch))
        else
          var f := Frame(at, batch, count, cursor);
          Ok(Some((BatchScan(batch, count, at, FoundSlots(g, seg, stale, f)), AlignToBlock(EntriesEnd(g, seg, stale, f, count)))))
  }

  type Look = (nat, nat, nat) -> Result<Option<(BatchScan, nat)>, OpenError>

  /** The scan goes by what it sees at each boundary. */
  predicate GoesBy(scan: Scanner, look: Look, at: nat, cursor: nat, last: nat) {
    scan(at, cursor, last) ==
      match look(at, cursor, last)
      case Err(e) => Err(e)
      case Ok(None) => Ok(SegmentScan([], at, cursor))
      case Ok(Some(x)) => Prepend([x.0], scan(at + Span(x.0.count), x.1, x.0.seqno))
  }

  function LookOf(g: Geometry, seg: Segment, stale: Stale): Look {
    (at: nat, cursor: nat, last: nat) => LookAt(g, seg, stale, at, cursor, last)
  }

  lemma ScanGoesBy(g: Geometry, seg: Segment, stale: Stale, at: nat, cursor: nat, last: nat)
    ensures GoesBy(ScannerOf(g, seg, stale), LookOf(g, seg, stale), at, cursor, last)
  {
  }

  lemma LookIs(g: Geometry, seg: Segment, stale: Stale, at: nat, cursor: nat, last: nat)
    ensures var r := LookAt(g, seg, stale, at, cursor, last);
            && (r == Ok(None) <==> EndsAt(g, seg, stale, at, cursor, last))
            && (r.Ok? && r.value.Some? ==>
                  && at < |seg.slots| && BatchAt(g, seg, stale, at, cursor, last, r.value.value.0)
                  && r.value.value.1 == AlignToBlock(Furthest(r.value.value.0.slots, cursor)))
  {
    if at < |seg.slots| {
      ShapeMeans(g, seg, stale, at, cursor, last);
      var shape := ShapeAt(g, seg, stale, at, cursor, last);
      if shape.Here? && at + shape.count <= |seg.slots| { FoundBatch(g, seg, stale, Frame(at, shape.batch, shape.count, cursor), last); }
    }
  }

  lemma LookFinds(g: Geometry, seg: Segment, stale: Stale, at: nat, cursor: nat, last: nat, b: BatchScan)
    requires at < |seg.slots| && BatchAt(g, seg, stale, at, cursor, last, b)
    ensures LookAt(g, seg, stale, at, cursor, last) == Ok(Some((b, AlignToBlock(Furthest(b.slots, cursor)))))
  {
    ShapeMeans(g, seg, stale, at, cursor, last);
    var f := Frame(at, b.seqno, b.count, cursor);
    FoundBatch(g, seg, stale, f, last);
    var c := BatchScan(f.batch, f.count, f.at, FoundSlots(g, seg, stale, f));
    OneBatch(g, seg, stale, at, cursor, last, b, c, b.count);
    assert b.slots[..b.count] == b.slots && c.slots[..b.count] == c.slots;
  }

  /** A look at a boundary tells what is found there, and nothing else could be. */
  ghost predicate Tells(look: Look, finds: Finds, stops: Stops, slots: nat, at: nat, cursor: nat, last: nat) {
    var r := look(at, cursor, last);
    && (r == Ok(None) <==> stops(at, cursor, last))
    && (r.Ok? && r.value.Some? ==>
          at < slots && r.value.value.0.count > 0 && finds(at, cursor, last, r.value.value.0)
          && r.value.value.1 == AlignToBlock(Furthest(r.value.value.0.slots, cursor)))
    && (forall b: BatchScan {:trigger finds(at, cursor, last, b)} | finds(at, cursor, last, b) :: r.Ok? && r.value.Some? && r.value.value.0 == b)
  }

  lemma LookTells(g: Geometry, seg: Segment, stale: Stale, at: nat, cursor: nat, last: nat)
    ensures Tells(LookOf(g, seg, stale), FindsIn(g, seg, stale), StopsIn(g, seg, stale), |seg.slots|, at, cursor, last)
  {
    LookIs(g, seg, stale, at, cursor, last);
    var finds := FindsIn(g, seg, stale);
    forall b: BatchScan {:trigger finds(at, cursor, last, b)} | finds(at, cursor, last, b)
      ensures LookAt(g, seg, stale, at, cursor, last).Ok? && LookAt(g, seg, stale, at, cursor, last).value.Some?
      ensures LookAt(g, seg, stale, at, cursor, last).value.value.0 == b
    {
      LookFinds(g, seg, stale, at, cursor, last, b);
    }
  }

  /** A scan from a boundary on returns what parses there, and nothing else does. */
  ghost predicate Right(finds: Finds, stops: Stops, scan: Scanner, at: nat, cursor: nat, last: nat) {
    && (scan(at, cursor, last).Ok? ==> Parses(finds, stops, at, cursor, last, scan(at, cursor, last).value))
    && (forall x: SegmentScan {:trigger Parses(finds, stops, at, cursor, last, x)} | Parses(finds, stops, at, cursor, last, x) ::
          scan(at, cursor, last) == Ok(x))
  }

  lemma ParsesMore(finds: Finds, stops: Stops, at: nat, cursor: nat, last: nat, b: BatchScan, r: SegmentScan)
    requires finds(at, cursor, last, b) && r.batches != [] && r.batches[0] == b
    requires Parses(finds, stops, at + Span(b.count), AlignToBlock(Furthest(b.slots, cursor)), b.seqno, r.(batches := r.batches[1..]))
    ensures Parses(finds, stops, at, cursor, last, r)
  {
  }

  lemma {:induction false} ScanIsRight(scan: Scanner, look: Look, finds: Finds, stops: Stops, slots: nat, at: nat, cursor: nat, last: nat)
    requires forall a: nat, c: nat, l: nat {:trigger GoesBy(scan, look, a, c, l)} :: GoesBy(scan, look, a, c, l)
    requires forall a: nat, c: nat, l: nat {:trigger Tells(look, finds, stops, slots, a, c, l)} :: Tells(look, finds, stops, slots, a, c, l)
    ensures Right(finds, stops, scan, at, cursor, last)
    decreases slots - at
  {
    assert GoesBy(scan, look, at, cursor, last) && Tells(look, finds, stops, slots, at, cursor, last);
    var r := look(at, cursor, last);
    if r.Ok? && r.value.Some? {
      var (b, next) := r.value.value;
      ScanIsRight(scan, look, finds, stops, slots, at + Span(b.count), next, b.seqno);
      RightHere(scan, look, finds, stops, slots, at, cursor, last, b, next);
    } else {
      forall x: SegmentScan {:trigger Parses(finds, stops, at, cursor, last, x)} | Parses(finds, stops, at, cursor, last, x)
        ensures scan(at, cursor, last) == Ok(x)
      {
        assert x.batches == [];
      }
    }
  }

  lemma RightHere(scan: Scanner, look: Look, finds: Finds, stops: Stops, slots: nat, at: nat, cursor: nat, last: nat, b: BatchScan, next: nat)
    requires GoesBy(scan, look, at, cursor, last) && Tells(look, finds, stops, slots, at, cursor, last) && look(at, cursor, last) == Ok(Some((b, next)))
    requires Right(finds, stops, scan, at + Span(b.count), next, b.seqno)
    ensures Right(finds, stops, scan, at, cursor, last)
  {
    var rest := scan(at + Span(b.count), next, b.seqno);
    assert scan(at, cursor, last) == Prepend([b], rest);
    if rest.Ok? {
      var r := scan(at, cursor, last).value;
      assert r.batches == [b] + rest.value.batches;
      assert r.batches[1..] == rest.value.batches;
      ParsesMore(finds, stops, at, cursor, last, b, r);
    }
    forall x: SegmentScan {:trigger Parses(finds, stops, at, cursor, last, x)} | Parses(finds, stops, at, cursor, last, x)
      ensures scan(at, cursor, last) == Ok(x)
    {
      assert x.batches != [] && x.batches[0] == b;
      assert Parses(finds, stops, at + Span(b.count), next, b.seqno, x.(batches := x.batches[1..]));
      assert [b] + x.batches[1..] == x.batches;
    }
  }

  /** Pass 1 over one segment, on any disk: it returns the batches the segment holds, and refuses exactly
      when there is no telling them up to a point from which nothing counts. */
  lemma ScanSegmentIs(g: Geometry, seg: Segment, stale: Stale, prev: nat)
    ensures var r := ScanSegment(g, seg, stale, prev);
            && (r.Ok? ==> HoldsExactly(g, seg, stale, prev, r.value))
            && (forall x: SegmentScan {:trigger HoldsExactly(g, seg, stale, prev, x)} | HoldsExactly(g, seg, stale, prev, x) :: r == Ok(x))
  {
    var scan, look, finds, stops := ScannerOf(g, seg, stale), LookOf(g, seg, stale), FindsIn(g, seg, stale), StopsIn(g, seg, stale);
    AllGoesBy(g, seg, stale, scan, look);
    AllTells(g, seg, stale, look, finds, stops);
    ScanIsRight(scan, look, finds, stops, |seg.slots|, 0, g.EntryStart(), prev);
  }

  // ---- a batch that is lost ----

  /** These batches lead from one boundary to another. */
  predicate Leads(finds: Finds, at: nat, cursor: nat, last: nat, batches: seq<BatchScan>, to: (nat, nat, nat))
    decreases |batches|
  {
    if batches == [] then to == (at, cursor, last)
    else
      var b := batches[0];
      finds(at, cursor, last, b) && Leads(finds, at + Span(b.count), AlignToBlock(Furthest(b.slots, cursor)), b.seqno, batches[1..], to)
  }

  /** Something counts from here on, and no batch is told at this boundary, or one that does not fit; `n`
      is its number. */
  ghost predicate Loses(g: Geometry, seg: Segment, stale: Stale, at: nat, cursor: nat, last: nat, n: nat) {
    && at < |seg.slots| && !EndsAt(g, seg, stale, at, cursor, last)
    && (|| (n == last + 1 && forall batch: nat, count: nat :: !Locates(g, seg, stale, at, cursor, last, batch, count))
        || exists count: nat :: Locates(g, seg, stale, at, cursor, last, n, count) && at + count > |seg.slots|)
  }

  lemma LookLoses(g: Geometry, seg: Segment, stale: Stale, at: nat, cursor: nat, last: nat)
    requires LookAt(g, seg, stale, at, cursor, last).Err?
    ensures LookAt(g, seg, stale, at, cursor, last).error.LostBatch?
    ensures Loses(g, seg, stale, at, cursor, last, LookAt(g, seg, stale, at, cursor, last).error.batch)
  {
    ShapeMeans(g, seg, stale, at, cursor, last);
    var shape := ShapeAt(g, seg, stale, at, cursor, last);
    if shape.Here? { assert Locates(g, seg, stale, at, cursor, last, shape.batch, shape.count); }
  }

  lemma LeadsMore(finds: Finds, at: nat, cursor: nat, last: nat, b: BatchScan, rest: seq<BatchScan>, to: (nat, nat, nat)) returns (all: seq<BatchScan>)
    requires finds(at, cursor, last, b) && Leads(finds, at + Span(b.count), AlignToBlock(Furthest(b.slots, cursor)), b.seqno, rest, to)
    ensures all == [b] + rest && Leads(finds, at, cursor, last, all, to)
  {
    all := [b] + rest;
    assert all[0] == b && all[1..] == rest;
  }

  /** A look that fails names the batch lost there. */
  type Losing = (nat, nat, nat, nat) -> bool

  predicate Names(look: Look, loses: Losing, at: nat, cursor: nat, last: nat) {
    var r := look(at, cursor, last); r.Err? ==> r.error.LostBatch? && loses(at, cursor, last, r.error.batch)
  }

  /** A refusal of pass 1 names the batch after the last one it could tell, or the one that does not fit. */
  lemma {:induction false} ScanLoses(scan: Scanner, look: Look, finds: Finds, stops: Stops, loses: Losing, slots: nat, at: nat, cursor: nat, last: nat)
    returns (batches: seq<BatchScan>, to: (nat, nat, nat))
    requires forall a: nat, c: nat, l: nat {:trigger GoesBy(scan, look, a, c, l)} :: GoesBy(scan, look, a, c, l)
    requires forall a: nat, c: nat, l: nat {:trigger Tells(look, finds, stops, slots, a, c, l)} :: Tells(look, finds, stops, slots, a, c, l)
    requires forall a: nat, c: nat, l: nat {:trigger Names(look, loses, a, c, l)} :: Names(look, loses, a, c, l)
    requires scan(at, cursor, last).Err?
    ensures Leads(finds, at, cursor, last, batches, to) && scan(at, cursor, last).error.LostBatch?
    ensures loses(to.0, to.1, to.2, scan(at, cursor, last).error.batch)
    decreases slots - at
  {
    assert GoesBy(scan, look, at, cursor, last) && Tells(look, finds, stops, slots, at, cursor, last) && Names(look, loses, at, cursor, last);
    var r := look(at, cursor, last);
    if r.Ok? {
      var (b, next) := r.value.value;
      var rest, end := ScanLoses(scan, look, finds, stops, loses, slots, at + Span(b.count), next, b.seqno);
      batches := LeadsMore(finds, at, cursor, last, b, rest, end);
      to := end;
    } else {
      batches, to := [], (at, cursor, last);
    }
  }

  lemma AllTells(g: Geometry, seg: Segment, stale: Stale, look: Look, finds: Finds, stops: Stops)
    requires look == LookOf(g, seg, stale) && finds == FindsIn(g, seg, stale) && stops == StopsIn(g, seg, stale)
    ensures forall a: nat, c: nat, l: nat {:trigger Tells(look, finds, stops, |seg.slots|, a, c, l)} :: Tells(look, finds, stops, |seg.slots|, a, c, l)
  {
    forall a: nat, c: nat, l: nat {:trigger Tells(look, finds, stops, |seg.slots|, a, c, l)} ensures Tells(look, finds, stops, |seg.slots|, a, c, l) {
      LookTells(g, seg, stale, a, c, l);
    }
  }

  lemma AllGoesBy(g: Geometry, seg: Segment, stale: Stale, scan: Scanner, look: Look)
    requires scan == ScannerOf(g, seg, stale) && look == LookOf(g, seg, stale)
    ensures forall a: nat, c: nat, l: nat {:trigger GoesBy(scan, look, a, c, l)} :: GoesBy(scan, look, a, c, l)
  {
    forall a: nat, c: nat, l: nat {:trigger GoesBy(scan, look, a, c, l)} ensures GoesBy(scan, look, a, c, l) { ScanGoesBy(g, seg, stale, a, c, l); }
  }

  ghost function LosesIn(g: Geometry, seg: Segment, stale: Stale): Losing {
    (at: nat, cursor: nat, last: nat, n: nat) => Loses(g, seg, stale, at, cursor, last, n)
  }

  lemma ScanSegmentLoses(g: Geometry, seg: Segment, stale: Stale, prev: nat) returns (batches: seq<BatchScan>, to: (nat, nat, nat))
    requires ScanSegment(g, seg, stale, prev).Err?
    ensures ScanSegment(g, seg, stale, prev).error.LostBatch?
    ensures Leads(FindsIn(g, seg, stale), 0, g.EntryStart(), prev, batches, to)
    ensures Loses(g, seg, stale, to.0, to.1, to.2, ScanSegment(g, seg, stale, prev).error.batch)
  {
    var scan, look, finds, stops := ScannerOf(g, seg, stale), LookOf(g, seg, stale), FindsIn(g, seg, stale), StopsIn(g, seg, stale);
    var loses := LosesIn(g, seg, stale);
    AllGoesBy(g, seg, stale, scan, look);
    AllTells(g, seg, stale, look, finds, stops);
    forall a: nat, c: nat, l: nat {:trigger Names(look, loses, a, c, l)} ensures Names(look, loses, a, c, l) {
      if look(a, c, l).Err? { LookLoses(g, seg, stale, a, c, l); }
    }
    batches, to := ScanLoses(scan, look, finds, stops, loses, |seg.slots|, 0, g.EntryStart(), prev);
  }

  // ---- nothing that counts is left behind ----

  predicate Covers(scan: SegmentScan, j: nat) { exists k | 0 <= k < |scan.batches| :: scan.batches[k].at <= j < scan.batches[k].at + Span(scan.batches[k].count) }

  /** Before the end a found batch stands at its boundary; at the end nothing counts. */
  ghost predicate Grounds(finds: Finds, stops: Stops, seg: Segment, stale: Stale) {
    && (forall a: nat, c: nat, l: nat, b: BatchScan {:trigger finds(a, c, l, b)} | finds(a, c, l, b) :: b.at == a)
    && (forall a: nat, c: nat, l: nat, j: nat {:trigger stops(a, c, l), Counts(seg, stale, j)} | stops(a, c, l) && a <= j :: !Counts(seg, stale, j))
  }

  lemma {:induction false} ParsedCovers(finds: Finds, stops: Stops, seg: Segment, stale: Stale, at: nat, cursor: nat, last: nat, scan: SegmentScan, j: nat)
    requires Grounds(finds, stops, seg, stale) && Parses(finds, stops, at, cursor, last, scan) && Counts(seg, stale, j) && at <= j
    ensures Covers(scan, j) && j < scan.persistNext
    decreases |scan.batches|
  {
    if scan.batches != [] {
      var b, rest := scan.batches[0], scan.(batches := scan.batches[1..]);
      var next := AlignToBlock(Furthest(b.slots, cursor));
      if j >= at + Span(b.count) {
        ParsedCovers(finds, stops, seg, stale, at + Span(b.count), next, b.seqno, rest, j);
        var k :| 0 <= k < |rest.batches| && rest.batches[k].at <= j < rest.batches[k].at + Span(rest.batches[k].count);
        assert scan.batches[k + 1] == rest.batches[k];
      } else {
        assert scan.batches[0].at <= j;
        ParsedEnds(finds, stops, at + Span(b.count), next, b.seqno, rest);
      }
    }
  }

  lemma {:induction false} ParsedEnds(finds: Finds, stops: Stops, at: nat, cursor: nat, last: nat, scan: SegmentScan)
    requires Parses(finds, stops, at, cursor, last, scan)
    ensures scan.persistNext >= at
    decreases |scan.batches|
  {
    if scan.batches != [] {
      var b := scan.batches[0];
      ParsedEnds(finds, stops, at + Span(b.count), AlignToBlock(Furthest(b.slots, cursor)), b.seqno, scan.(batches := scan.batches[1..]));
    }
  }

  /** On any disk: if pass 1 accepts a segment, every record in it that counts lies in a batch it found, so
      nothing that counts is left behind where the next batch will go. */
  lemma NothingLeftBehind(g: Geometry, seg: Segment, stale: Stale, prev: nat, j: nat)
    requires ScanSegment(g, seg, stale, prev).Ok? && Counts(seg, stale, j)
    ensures Covers(ScanSegment(g, seg, stale, prev).value, j) && j < ScanSegment(g, seg, stale, prev).value.persistNext
  {
    ScanSegmentIs(g, seg, stale, prev);
    var finds, stops := FindsIn(g, seg, stale), StopsIn(g, seg, stale);
    assert Grounds(finds, stops, seg, stale);
    ParsedCovers(finds, stops, seg, stale, 0, g.EntryStart(), prev, ScanSegment(g, seg, stale, prev).value, j);
  }
}
