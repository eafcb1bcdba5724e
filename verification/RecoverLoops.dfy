/** The scan as the loops that run it, each proved to compute its specification. */
module RecoverLoops {
  import opened Format
  import opened Ops
  import opened Recover
  import Evidence
  import Refusals

  /** The slots of one batch, walking the entry log beside the persist log. */
  method FindBatch(g: Geometry, seg: Segment, stale: Stale, f: Frame)
    returns (found: seq<Found>, entriesEnd: nat)
    requires f.at + f.count <= |seg.slots|
    ensures found == FoundSlots(g, seg, stale, f)
    ensures entriesEnd == EntriesEnd(g, seg, stale, f, f.count)
  {
    found := [];
    entriesEnd := f.cursor;
    var walk := Some(f.cursor);
    var index := 0;
    while index < f.count
      invariant 0 <= index <= f.count && |found| == index
      invariant forall k | 0 <= k < index :: found[k] == FoundAt(g, seg, stale, f, k)
      invariant walk == WalkAt(g, seg, stale, f, index)
      invariant entriesEnd == EntriesEnd(g, seg, stale, f, index)
    {
      var here := FoundHere(g, seg, stale, f, index, walk);
      assert here == FoundAt(g, seg, stale, f, index);
      walk := WalkAfter(here);
      if walk.Some? && walk.value > entriesEnd {
        entriesEnd := walk.value;
      }
      found := found + [here];
      index := index + 1;
    }
  }

  predicate Ends(scan: Scanner, at: nat, cursor: nat, last: nat) {
    scan(at, cursor, last) == Ok(SegmentScan([], at, cursor))
  }

  predicate GoesOn(g: Geometry, seg: Segment, stale: Stale, scan: Scanner, at: nat, cursor: nat, last: nat)
    requires at < |seg.slots|
  {
    match ShapeAt(g, seg, stale, at, cursor, last)
    case End => Ends(scan, at, cursor, last)
    case Gone => scan(at, cursor, last) == Err(LostBatch(last + 1))
    case Here(batch, count) =>
      if at + count > |seg.slots| then scan(at, cursor, last) == Err(LostBatch(batch))
      else
        var f := Frame(at, batch, count, cursor);
        scan(at, cursor, last) == Prepend([BatchScan(batch, count, at, FoundSlots(g, seg, stale, f))],
                                          scan(at + Span(count), AlignToBlock(EntriesEnd(g, seg, stale, f, count)), batch))
  }

  lemma ScanGoesOn(g: Geometry, seg: Segment, stale: Stale, prev: nat) returns (scan: Scanner)
    ensures scan(0, g.EntryStart(), prev) == ScanSegment(g, seg, stale, prev)
    ensures forall at: nat, cursor: nat, last: nat {:trigger Ends(scan, at, cursor, last)} | at >= |seg.slots| :: Ends(scan, at, cursor, last)
    ensures forall at: nat, cursor: nat, last: nat {:trigger GoesOn(g, seg, stale, scan, at, cursor, last)} | at < |seg.slots| ::
              GoesOn(g, seg, stale, scan, at, cursor, last)
  {
    scan := ScannerOf(g, seg, stale);
  }

  lemma PrependTwice(batches: seq<BatchScan>, one: BatchScan, rest: Result<SegmentScan, OpenError>)
    ensures Prepend(batches, Prepend([one], rest)) == Prepend(batches + [one], rest)
  {
    assert rest.Ok? ==> batches + ([one] + rest.value.batches) == (batches + [one]) + rest.value.batches;
  }

  /** Pass 1 over one segment: it returns the batches the segment holds, and refuses when there is no
      telling them up to a point from which nothing counts. */
  method RunScanSegment(g: Geometry, seg: Segment, stale: Stale, prev: nat) returns (r: Result<SegmentScan, OpenError>)
    ensures r == ScanSegment(g, seg, stale, prev)
    ensures r.Ok? ==> Evidence.HoldsExactly(g, seg, stale, prev, r.value)
    ensures r.Err? ==> forall x: SegmentScan :: !Evidence.HoldsExactly(g, seg, stale, prev, x)
  {
    Evidence.ScanSegmentIs(g, seg, stale, prev);
    var batches: seq<BatchScan>, last: nat, at: nat, cursor: nat := [], prev, 0, g.EntryStart();
    ghost var scan := ScanGoesOn(g, seg, stale, prev);
    PrependNothing(scan(at, cursor, last));
    while at < |seg.slots|
      invariant ScanSegment(g, seg, stale, prev) == Prepend(batches, scan(at, cursor, last))
      decreases |seg.slots| - at
    {
      assert GoesOn(g, seg, stale, scan, at, cursor, last);
      var shape := ShapeAt(g, seg, stale, at, cursor, last);
      if shape.Gone? {
        return Err(LostBatch(last + 1));
      }
      if shape.End? {
        break;
      }
      var Here(batch, count) := shape;
      if at + count > |seg.slots| {
        return Err(LostBatch(batch));
      }
      var found, end := FindBatch(g, seg, stale, Frame(at, batch, count, cursor));
      var scanned := BatchScan(batch, count, at, found);
      PrependTwice(batches, scanned, scan(at + Span(count), AlignToBlock(end), batch));
      batches, last := batches + [scanned], batch;
      at, cursor := at + Span(count), AlignToBlock(end);
    }
    assert Ends(scan, at, cursor, last);
    assert batches + [] == batches;
    r := Ok(SegmentScan(batches, at, cursor));
  }

  lemma PrependNothing(scan: Result<SegmentScan, OpenError>)
    ensures Prepend([], scan) == scan
  {
    assert scan.Ok? ==> [] + scan.value.batches == scan.value.batches;
  }

  lemma {:induction false} RefusalStays(rs: seq<Result<Verdicts, OpenError>>, n: nat)
    requires n < |rs| && rs[n].Err? && JoinAll(rs[..n]).Ok?
    ensures JoinAll(rs) == rs[n]
  {
    var init := rs[..|rs| - 1];
    if n < |rs| - 1 {
      assert init[..n] == rs[..n];
      RefusalStays(init, n);
    }
  }

  lemma JoinNext(rs: seq<Result<Verdicts, OpenError>>, n: nat)
    requires n < |rs|
    ensures JoinAll(rs[..n + 1]) == JoinResult(JoinAll(rs[..n]), rs[n])
  {
    assert rs[..n + 1][..n] == rs[..n];
  }

  /** Add the verdict on one slot to what the scan reports. */
  method JudgeInto(g: Geometry, seg: Segment, b: BatchScan, isLast: bool, i: nat, before: Verdicts) returns (out: Verdicts)
    requires i < |b.slots| && (b.slots[i].Lost? ==> isLast)
    ensures out == Join(before, JudgeSlot(g, seg, b, isLast, i).value)
  {
    out := before;
    var found := b.slots[i];
    if found.Lost? {
      out := out.(voided := out.voided + 1);
      return;
    }
    var record := found.record;
    if found.Rebuilt? {
      out := out.(rebuilt := out.rebuilt + 1);
    }
    if record.kind == Kind.Clear {
      out := out.(ops := out.ops + [Op.Clear(record.position, record.id)]);
    } else if record.kind == Kind.Put {
      var damaged := IsDamaged(g, seg, found, isLast);
      if damaged && record.ordered {
        out := out.(corrupt := out.corrupt + [(record.position, record.id)]);
      } else if damaged {
        out := out.(ambiguous := out.ambiguous + [(record.position, record.id)]);
      }
      out := out.(ops := out.ops + [Op.Put(record.position, LocatedAt(seg, b, i, damaged))]);
    }
  }

  /** The verdicts on a batch's slots, joined as the loop goes. */
  lemma JoinSlot(g: Geometry, seg: Segment, b: BatchScan, isLast: bool, i: nat, out: Verdicts)
    requires i < |b.slots| && JoinAll(SlotVerdicts(g, seg, b, isLast)[..i]) == Ok(out)
    ensures JudgeSlot(g, seg, b, isLast, i).Ok? ==>
              JoinAll(SlotVerdicts(g, seg, b, isLast)[..i + 1]) == Ok(Join(out, JudgeSlot(g, seg, b, isLast, i).value))
    ensures JudgeSlot(g, seg, b, isLast, i).Err? ==> JoinAll(SlotVerdicts(g, seg, b, isLast)) == JudgeSlot(g, seg, b, isLast, i)
  {
    var verdicts := SlotVerdicts(g, seg, b, isLast);
    JoinNext(verdicts, i);
    if verdicts[i].Err? { RefusalStays(verdicts, i); }
  }

  lemma JudgesSlot(g: Geometry, seg: Segment, b: BatchScan, isLast: bool, i: nat)
    requires i < |b.slots|
    ensures if b.slots[i].Lost? && !isLast then JudgeSlot(g, seg, b, isLast, i) == Err(DoubleFault(b.seqno, i))
            else JudgeSlot(g, seg, b, isLast, i).Ok?
  {
  }

  /** The loop of pass 2 for one batch. */
  method JudgeSlots(g: Geometry, seg: Segment, b: BatchScan, isLast: bool) returns (r: Result<Verdicts, OpenError>, rewrite: bool, kept: seq<Record>)
    ensures r == JoinAll(SlotVerdicts(g, seg, b, isLast))
    ensures r.Ok? ==> rewrite == (isLast && exists k | 0 <= k < |b.slots| :: !b.slots[k].Recorded?)
    ensures r.Ok? ==> |kept| == |b.slots| && forall k | 0 <= k < |kept| :: kept[k] == KeptAt(b, k)
  {
    var out := NOTHING;
    rewrite, kept := false, [];
    for i := 0 to |b.slots|
      invariant |kept| == i && forall k | 0 <= k < i :: kept[k] == KeptAt(b, k)
      invariant rewrite == (isLast && exists k | 0 <= k < i :: !b.slots[k].Recorded?)
      invariant JoinAll(SlotVerdicts(g, seg, b, isLast)[..i]) == Ok(out)
    {
      JudgesSlot(g, seg, b, isLast, i);
      JoinSlot(g, seg, b, isLast, i, out);
      var found := b.slots[i];
      if found.Lost? && !isLast { return Err(DoubleFault(b.seqno, i)), rewrite, kept; }
      kept := kept + [KeptAt(b, i)];
      rewrite := rewrite || (isLast && !found.Recorded?);
      out := JudgeInto(g, seg, b, isLast, i, out);
    }
    assert SlotVerdicts(g, seg, b, isLast)[..|b.slots|] == SlotVerdicts(g, seg, b, isLast);
    r := Ok(out);
  }

  /** Pass 2 for one batch. */
  method RunJudgeBatch(g: Geometry, seg: Segment, s: nat, b: BatchScan, isLast: bool) returns (r: Result<Verdicts, OpenError>)
    ensures r == JudgeBatch(g, seg, s, b, isLast)
  {
    var judged, rewrite, kept := JudgeSlots(g, seg, b, isLast);
    if judged.Err? { return judged; }
    assert kept == seq(|b.slots|, i requires 0 <= i < |b.slots| => KeptAt(b, i));
    r := Ok(if rewrite then judged.value.(rewrite := Some(Rewrite(s, b.at, kept))) else judged.value);
  }

  lemma AcceptsLogs(g: Geometry, segs: seq<Segment>, stale: Stale)
    ensures ScanAll(g, segs, stale).Ok? <==> exists x: seq<SegmentScan> :: Refusals.Trusts(g, segs, stale, x)
  {
    Refusals.ScanAllIs(g, segs, stale);
    if x: seq<SegmentScan> :| Refusals.Trusts(g, segs, stale, x) { assert Refusals.LogIs(g, segs, stale, Refusals.FirstLink(segs), x); }
  }

  /** Both passes over every segment: they accept exactly a log with no write lost before its last batch. */
  method RunScanAll(g: Geometry, segs: seq<Segment>, stale: Stale) returns (r: Result<Scan, OpenError>)
    ensures r == ScanAll(g, segs, stale)
    ensures r.Ok? <==> exists x: seq<SegmentScan> :: Refusals.Trusts(g, segs, stale, x)
  {
    AcceptsLogs(g, segs, stale);
    var found := RunScanSegments(g, segs, stale, if segs == [] then 0 else segs[0].prev);
    if found.Err? { return Err(found.error); }
    r := JudgeEvery(g, segs, found.value.0, found.value.1);
  }

  /** Pass 1 over every segment, each linked to the last batch found before it. */
  method RunScanSegments(g: Geometry, segs: seq<Segment>, stale: Stale, first: nat) returns (r: Result<(seq<SegmentScan>, nat), OpenError>)
    ensures r == ScanSegments(g, segs, stale, first)
  {
    var last: nat, scans: seq<SegmentScan> := first, [];
    assert segs[0..] == segs;
    ghost var all := ScanSegments(g, segs, stale, first);
    assert all.Ok? ==> scans + all.value.0 == all.value.0;
    for s := 0 to |segs|
      invariant |scans| == s
      invariant ScanSegments(g, segs, stale, first) ==
                match ScanSegments(g, segs[s..], stale, last) {
                  case Err(e) => Err(e)
                  case Ok(rest) => Ok((scans + rest.0, rest.1))
                }
    {
      ghost var rest := ScanSegments(g, segs[s..], stale, last);
      assert segs[s..][1..] == segs[s + 1..];
      if segs[s].prev != last {
        return Err(LostBatch(last + 1));
      }
      var scanned := RunScanSegment(g, segs[s], stale, last);
      if scanned.Err? {
        return Err(scanned.error);
      }
      last := LastOf(scanned.value, last);
      ghost var next := ScanSegments(g, segs[s + 1..], stale, last);
      assert next.Ok? ==> scans + ([scanned.value] + next.value.0) == (scans + [scanned.value]) + next.value.0;
      scans := scans + [scanned.value];
    }
    assert segs[|segs|..] == [];
    assert scans + [] == scans;
    r := Ok((scans, last));
  }

  method JudgeEvery(g: Geometry, segs: seq<Segment>, scans: seq<SegmentScan>, last: nat) returns (r: Result<Scan, OpenError>)
    requires |segs| == |scans|
    ensures r == match JoinAll(SegmentVerdicts(g, segs, scans)) {
                   case Err(e) => Err(e)
                   case Ok(v) => Ok(Scan(last, Cursors(scans), v))
                 }
  {
    var out := NOTHING;
    ghost var verdicts := SegmentVerdicts(g, segs, scans);
    for s := 0 to |segs|
      invariant JoinAll(verdicts[..s]) == Ok(out)
    {
      var judged := JudgeOneSegment(g, segs, scans, s, out);
      JoinNext(verdicts, s);
      if judged.Err? {
        RefusalStays(verdicts, s);
        return Err(judged.error);
      }
      out := judged.value;
    }
    assert verdicts[..|segs|] == verdicts;
    r := Ok(Scan(last, Cursors(scans), out));
  }

  method JudgeOneSegment(g: Geometry, segs: seq<Segment>, scans: seq<SegmentScan>, s: nat, before: Verdicts)
    returns (r: Result<Verdicts, OpenError>)
    requires |segs| == |scans| && s < |scans|
    ensures r == JoinResult(Ok(before), JoinAll(BatchVerdicts(g, segs, scans, s)))
  {
    var out := before;
    ghost var verdicts := BatchVerdicts(g, segs, scans, s);
    assert Join(before, NOTHING) == before;
    for b := 0 to |scans[s].batches|
      invariant JoinAll(verdicts[..b]).Ok? && out == Join(before, JoinAll(verdicts[..b]).value)
    {
      var judged := RunJudgeBatch(g, segs[s], s, scans[s].batches[b], IsLastBatch(scans, s, b));
      assert judged == verdicts[b];
      if judged.Err? {
        RefusalStays(verdicts, b);
        return Err(judged.error);
      }
      JoinNext(verdicts, b);
      JoinAssociates(before, JoinAll(verdicts[..b]).value, judged.value);
      out := Join(out, judged.value);
    }
    assert verdicts[..|scans[s].batches|] == verdicts;
    r := Ok(out);
  }

  lemma JoinAssociates(a: Verdicts, b: Verdicts, c: Verdicts)
    ensures Join(Join(a, b), c) == Join(a, Join(b, c))
  {
    assert (a.ops + b.ops) + c.ops == a.ops + (b.ops + c.ops);
    assert (a.corrupt + b.corrupt) + c.corrupt == a.corrupt + (b.corrupt + c.corrupt);
    assert (a.ambiguous + b.ambiguous) + c.ambiguous == a.ambiguous + (b.ambiguous + c.ambiguous);
  }
}
