/** The verdicts on a log: what recovery applies, reports and writes back. */
module Verdict {
  import opened Format
  import opened Ops
  import opened Recover
  import opened Log

  /** What a caller stored. A soft cell comes from a batched commit that a crash cut: its
      bytes may be damaged. */
  datatype Cell = Cell(id: nat, payload: seq<int>, soft: bool)

  /** A stored cell and where it lives. */
  datatype Item = Item(at: Located, cell: Cell)

  function AtOfItem(i: Item): Located { i.at }
  function CellOfItem(i: Item): Cell { i.cell }
  function Undamaged(at: Located): Located { at.(damaged := false) }

  function LocOf(first: nat, b: Placed, i: nat): Located
    requires i < |b.entries|
  {
    var e := b.entries[i];
    Located(first, PERSIST_START + (b.at + i) * RECORD_SIZE, Off(b, i), e.len, e.crc, e.id,
            b.seqno, i, |b.entries|, e.ordered, false)
  }

  /** The operation write `i` stands for: none once it is discarded. */
  function OpAt(first: nat, b: Placed, i: nat): seq<Op<Item>>
    requires WellFormed(b) && i < |b.entries|
  {
    var e := b.entries[i];
    if !b.live[i] then []
    else if e.kind == Kind.Clear then [Op.Clear(e.position, e.id)]
    else [Op.Put(e.position, Item(LocOf(first, b, i), Cell(e.id, e.payload, !b.firm)))]
  }

  function BatchOps(first: nat, b: Placed): seq<Op<Item>>
    requires WellFormed(b)
  {
    Concat(seq(|b.entries|, i requires 0 <= i < |b.entries| => OpAt(first, b, i)))
  }

  /** A firm batch's evident records name intact entries, and an ordered batch is firm. */
  predicate Firm(seg: Segment, b: Placed)
    requires WellFormed(b) && b.at + |b.entries| <= |seg.slots|
  {
    && (forall i | 0 <= i < |b.entries| :: b.entries[i].ordered ==> b.firm)
    && (b.firm ==> forall i | 0 <= i < |b.entries| :: b.live[i] && Evident(seg, b, i) ==> EntryOk(seg, b, i))
  }

  /** An operation the scan returns is this one of the log; only a soft cell reads damaged. */
  predicate OpFits(op: Op<Located>, of: Op<Item>) {
    match of
    case Put(p, item) =>
      op.Put? && op.position == p && Undamaged(op.value) == item.at && (op.value.damaged ==> item.cell.soft)
    case Clear(s, e) => op == Op.Clear(s, e)
  }

  predicate OpsFit(ops: seq<Op<Located>>, of: seq<Op<Item>>) {
    |ops| == |of| && forall k | 0 <= k < |ops| :: OpFits(ops[k], of[k])
  }

  /** The verdicts apply exactly these operations; damage is never called corruption, and a
      firm batch shows none. */
  predicate Applies(r: Result<Verdicts, OpenError>, ops: seq<Op<Item>>, firm: bool) {
    && r.Ok? && OpsFit(r.value.ops, ops)
    && r.value.corrupt == []
    && (firm ==> r.value.ambiguous == [] && r.value.ops == MapOps(AtOfItem, ops))
  }

  predicate NoRewrite(r: Result<Verdicts, OpenError>) { r.Ok? ==> r.value.rewrite == None }

  lemma NotDamaged(g: Geometry, seg: Segment, b: Placed, isLast: bool, i: nat)
    requires Coherent(g, seg, b) && Firm(seg, b) && i < |b.entries|
    requires (b.firm || !isLast) && b.live[i] && !Expect(seg, b, i).Lost?
    ensures !IsDamaged(g, seg, Expect(seg, b, i), isLast)
  {
    OffGrows(b, i, |b.entries|);
    if isLast && Evident(seg, b, i) {
      assert EntryOk(seg, b, i);
      assert ReadEntry(g, seg, Off(b, i)) == Some(b.entries[i]);
    }
  }

  /** A slot that is not lost was found with the record of its write. */
  lemma RecordFound(seg: Segment, b: Placed, i: nat)
    requires WellFormed(b) && b.at + |b.entries| <= |seg.slots| && i < |b.entries| && !Expect(seg, b, i).Lost?
    ensures Expect(seg, b, i).record == Rec(b, i)
  {
  }

  /** What a slot's record stands for, once its entry is damaged or not. */
  lemma JudgeRecord(g: Geometry, seg: Segment, b: Placed, isLast: bool, i: nat)
    requires Coherent(g, seg, b) && Firm(seg, b) && i < |b.entries| && !Expect(seg, b, i).Lost?
    ensures var r := JudgeSlot(g, seg, ScanOf(seg, b), isLast, i);
            Applies(r, OpAt(seg.first, b, i), b.firm || !isLast) && NoRewrite(r)
  {
    RecordFound(seg, b, i);
    assert ScanOf(seg, b).slots[i] == Expect(seg, b, i);
    if (b.firm || !isLast) && b.live[i] {
      NotDamaged(g, seg, b, isLast, i);
    }
  }

  /** Recovery keeps a write that was found as it is, and nothing of one that was lost. */
  lemma OpOfKept(seg: Segment, b: Placed, i: nat)
    requires WellFormed(b) && b.at + |b.entries| <= |seg.slots| && i < |b.entries|
    ensures WellFormed(Kept(seg, b))
    ensures OpAt(seg.first, Kept(seg, b), i) == if Expect(seg, b, i).Lost? then [] else OpAt(seg.first, b, i)
  {
    if !Expect(seg, b, i).Lost? { OffKept(seg, b, i); }
  }

  lemma JudgeSlotApplies(g: Geometry, seg: Segment, b: Placed, isLast: bool, i: nat)
    requires Coherent(g, seg, b) && Firm(seg, b) && i < |b.entries|
    requires isLast || !Expect(seg, b, i).Lost?
    ensures Applies(JudgeSlot(g, seg, ScanOf(seg, b), isLast, i), OpAt(seg.first, Kept(seg, b), i), b.firm || !isLast)
    ensures NoRewrite(JudgeSlot(g, seg, ScanOf(seg, b), isLast, i))
  {
    assert ScanOf(seg, b).slots[i] == Expect(seg, b, i);
    OpOfKept(seg, b, i);
    if !Expect(seg, b, i).Lost? { JudgeRecord(g, seg, b, isLast, i); }
  }

  /** Verdicts applied one after the other apply the operations one after the other. */
  lemma {:induction false} JoinApplies(rs: seq<Result<Verdicts, OpenError>>, opss: seq<seq<Op<Item>>>, firm: bool)
    requires |rs| == |opss| && forall i | 0 <= i < |rs| :: Applies(rs[i], opss[i], firm)
    ensures Applies(JoinAll(rs), Concat(opss), firm)
  {
    if rs != [] {
      var n := |rs| - 1;
      JoinApplies(rs[..n], opss[..n], firm);
      MapOpsConcat(AtOfItem, Concat(opss[..n]), opss[n]);
    }
  }

  lemma {:induction false} JoinNoRewrite(rs: seq<Result<Verdicts, OpenError>>)
    requires forall i | 0 <= i < |rs| :: NoRewrite(rs[i])
    ensures NoRewrite(JoinAll(rs))
  {
    if rs != [] {
      JoinNoRewrite(rs[..|rs| - 1]);
    }
  }

  /** The records the batch's persist extent holds once recovery wrote it back. */
  function Records(b: Placed): seq<Record>
    requires |b.entries| == |b.live|
  {
    seq(|b.entries|, i requires 0 <= i < |b.entries| => Rec(b, i))
  }

  predicate AllEvident(seg: Segment, b: Placed)
    requires b.at + |b.entries| <= |seg.slots|
  {
    forall i | 0 <= i < |b.entries| :: Evident(seg, b, i)
  }

  function RewriteOf(seg: Segment, s: nat, b: Placed, isLast: bool): Option<Rewrite>
    requires WellFormed(b) && b.at + |b.entries| <= |seg.slots|
  {
    if isLast && !AllEvident(seg, b) then Some(Rewrite(s, b.at, Records(Kept(seg, b)))) else None
  }

  lemma ScanKeeps(seg: Segment, b: Placed)
    requires WellFormed(b) && b.at + |b.entries| <= |seg.slots|
    ensures var scan := ScanOf(seg, b);
            && seq(|scan.slots|, i requires 0 <= i < |scan.slots| => KeptAt(scan, i)) == Records(Kept(seg, b))
            && (NeedsRewrite(scan, true) <==> !AllEvident(seg, b))
  {
    var scan := ScanOf(seg, b);
    forall i | 0 <= i < |b.entries|
      ensures KeptAt(scan, i) == Rec(Kept(seg, b), i)
      ensures scan.slots[i].Recorded? <==> Evident(seg, b, i)
    {
      OffKept(seg, b, i);
      assert scan.slots[i] == Expect(seg, b, i);
    }
  }

  /** One batch: its surviving operations, and its extent written back if a record is missing. */
  lemma JudgeBatchApplies(g: Geometry, seg: Segment, s: nat, b: Placed, isLast: bool)
    requires Coherent(g, seg, b) && Firm(seg, b) && (isLast || Whole(seg, b))
    ensures var r := JudgeBatch(g, seg, s, ScanOf(seg, b), isLast);
            Applies(r, BatchOps(seg.first, Kept(seg, b)), b.firm || !isLast) && r.value.rewrite == RewriteOf(seg, s, b, isLast)
  {
    var verdicts, kept := SlotVerdicts(g, seg, ScanOf(seg, b), isLast), Kept(seg, b);
    var opss := seq(|b.entries|, i requires 0 <= i < |b.entries| => OpAt(seg.first, kept, i));
    forall i | 0 <= i < |b.entries| ensures Applies(verdicts[i], opss[i], b.firm || !isLast) && NoRewrite(verdicts[i]) {
      JudgeSlotApplies(g, seg, b, isLast, i);
    }
    JoinApplies(verdicts, opss, b.firm || !isLast);
    JoinNoRewrite(verdicts);
    ScanKeeps(seg, b);
  }

  // ---- every segment ----

  /** One segment of the log: its batches are there and the scan can read them. */
  predicate SegmentHolds(g: Geometry, seg: Segment, stale: Stale, bs: seq<Placed>) {
    && Holds(g, seg, bs) && Readable(seg, stale, bs)
    && forall k {:trigger Firm(seg, bs[k])} | 0 <= k < |bs| :: Firm(seg, bs[k])
  }

  predicate AllWhole(seg: Segment, bs: seq<Placed>) {
    Inside(seg, bs) && forall k {:trigger Whole(seg, bs[k])} | 0 <= k < |bs| :: Whole(seg, bs[k])
  }

  /** The last batch before segment `s`. */
  function LastBefore(segs: seq<Segment>, log: seq<seq<Placed>>, s: nat): nat
    requires s <= |segs| == |log|
  {
    if s == 0 then if segs == [] then 0 else segs[0].prev
    else LastSeqno(log[s - 1], segs[s - 1].prev)
  }

  /** Segment after segment, each header links to the last batch before it, and only the last
      batch of the last segment may be torn. */
  predicate LogHolds(g: Geometry, segs: seq<Segment>, stale: Stale, log: seq<seq<Placed>>) {
    && |segs| == |log|
    && (forall s {:trigger SegmentHolds(g, segs[s], stale, log[s])} | 0 <= s < |segs| ::
          SegmentHolds(g, segs[s], stale, log[s]))
    && (forall s {:trigger LastBefore(segs, log, s)} | 0 <= s < |segs| :: segs[s].prev == LastBefore(segs, log, s))
    && (forall s {:trigger AllWhole(segs[s], log[s])} | 0 <= s < |segs| - 1 :: AllWhole(segs[s], log[s]))
  }

  function ScannedSegment(g: Geometry, seg: Segment, bs: seq<Placed>): SegmentScan {
    if Inside(seg, bs) then Remaining(seg, bs, 0, g.EntryStart()) else SegmentScan([], 0, 0)
  }

  function Scanned(g: Geometry, segs: seq<Segment>, log: seq<seq<Placed>>): (r: seq<SegmentScan>)
    requires |segs| == |log|
  {
    seq(|segs|, s requires 0 <= s < |segs| => ScannedSegment(g, segs[s], log[s]))
  }

  /** Segment `s` links to what comes before it, and its scan gives `scans[s]`. */
  predicate ScanLinks(g: Geometry, segs: seq<Segment>, stale: Stale, scans: seq<SegmentScan>, lasts: seq<nat>, s: nat)
    requires s < |segs| == |scans| && |lasts| == |segs| + 1
  {
    && segs[s].prev == lasts[s] && ScanSegment(g, segs[s], stale, lasts[s]) == Ok(scans[s])
    && LastOf(scans[s], lasts[s]) == lasts[s + 1]
  }

  lemma {:induction false} ScansInOrder(g: Geometry, segs: seq<Segment>, stale: Stale, scans: seq<SegmentScan>, lasts: seq<nat>)
    requires |segs| == |scans| && |lasts| == |segs| + 1
    requires forall s {:trigger ScanLinks(g, segs, stale, scans, lasts, s)} | 0 <= s < |segs| :: ScanLinks(g, segs, stale, scans, lasts, s)
    ensures ScanSegments(g, segs, stale, lasts[0]) == Ok((scans, lasts[|segs|]))
  {
    if segs == [] {
      assert scans == [];
    } else {
      assert ScanLinks(g, segs, stale, scans, lasts, 0);
      forall s {:trigger ScanLinks(g, segs[1..], stale, scans[1..], lasts[1..], s)} | 0 <= s < |segs| - 1
        ensures ScanLinks(g, segs[1..], stale, scans[1..], lasts[1..], s)
      {
        assert ScanLinks(g, segs, stale, scans, lasts, s + 1);
      }
      ScansInOrder(g, segs[1..], stale, scans[1..], lasts[1..]);
      assert [scans[0]] + scans[1..] == scans;
    }
  }

  lemma SegmentFinds(g: Geometry, segs: seq<Segment>, stale: Stale, log: seq<seq<Placed>>, s: nat)
    requires LogHolds(g, segs, stale, log) && s < |segs|
    ensures segs[s].prev == LastBefore(segs, log, s)
    ensures ScanSegment(g, segs[s], stale, segs[s].prev) == Ok(Scanned(g, segs, log)[s])
    ensures LastOf(Scanned(g, segs, log)[s], segs[s].prev) == LastBefore(segs, log, s + 1)
  {
    assert SegmentHolds(g, segs[s], stale, log[s]) && Holds(g, segs[s], log[s]);
    ScanFinds(g, segs[s], stale, log[s]);
  }

  lemma ScanSegmentsFind(g: Geometry, segs: seq<Segment>, stale: Stale, log: seq<seq<Placed>>)
    requires LogHolds(g, segs, stale, log)
    ensures ScanSegments(g, segs, stale, LastBefore(segs, log, 0)) == Ok((Scanned(g, segs, log), LastBefore(segs, log, |segs|)))
  {
    var scans := Scanned(g, segs, log);
    var lasts := seq(|segs| + 1, s requires 0 <= s <= |segs| => LastBefore(segs, log, s));
    forall s {:trigger ScanLinks(g, segs, stale, scans, lasts, s)} | 0 <= s < |segs| ensures ScanLinks(g, segs, stale, scans, lasts, s) {
      SegmentFinds(g, segs, stale, log, s);
    }
    ScansInOrder(g, segs, stale, scans, lasts);
  }

  function KeptAll(seg: Segment, bs: seq<Placed>): (r: seq<Placed>)
    requires Inside(seg, bs)
    ensures |r| == |bs|
    ensures forall k | 0 <= k < |bs| :: WellFormed(r[k])
  {
    seq(|bs|, k requires 0 <= k < |bs| => Kept(seg, bs[k]))
  }

  function SegmentOps(first: nat, bs: seq<Placed>): seq<Op<Item>> {
    Concat(seq(|bs|, k requires 0 <= k < |bs| => if WellFormed(bs[k]) then BatchOps(first, bs[k]) else []))
  }

  /** Every operation of the log, in order. */
  function LogOps(segs: seq<Segment>, log: seq<seq<Placed>>): seq<Op<Item>>
    requires |segs| == |log|
  {
    Concat(seq(|segs|, s requires 0 <= s < |segs| => SegmentOps(segs[s].first, log[s])))
  }

  function KeptLog(segs: seq<Segment>, log: seq<seq<Placed>>): (r: seq<seq<Placed>>)
    requires |segs| == |log|
    ensures |r| == |log|
  {
    seq(|log|, s requires 0 <= s < |log| => if Inside(segs[s], log[s]) then KeptAll(segs[s], log[s]) else [])
  }

  /** The last batch anywhere is firm, or no claim is made of it. */
  predicate LastIsFirm(scans: seq<SegmentScan>, log: seq<seq<Placed>>, firm: bool) {
    firm ==> forall s, k {:trigger log[s][k]} | 0 <= s < |scans| && s < |log| && 0 <= k < |scans[s].batches| && k < |log[s]| ::
               IsLastBatch(scans, s, k) ==> log[s][k].firm
  }

  lemma JudgeOneApplies(g: Geometry, segs: seq<Segment>, stale: Stale, log: seq<seq<Placed>>, s: nat, k: nat, firm: bool)
    requires LogHolds(g, segs, stale, log) && s < |segs| && k < |log[s]| && Inside(segs[s], log[s])
    requires LastIsFirm(Scanned(g, segs, log), log, firm)
    ensures Applies(JudgeBatch(g, segs[s], s, Scanned(g, segs, log)[s].batches[k], IsLastBatch(Scanned(g, segs, log), s, k)),
                    BatchOps(segs[s].first, Kept(segs[s], log[s][k])), firm)
  {
    var scans, seg, b := Scanned(g, segs, log), segs[s], log[s][k];
    assert SegmentHolds(g, seg, stale, log[s]) && Coherent(g, seg, b) && Firm(seg, b);
    var isLast := IsLastBatch(scans, s, k);
    assert isLast || Whole(seg, b) by {
      if s < |segs| - 1 { assert AllWhole(seg, log[s]); }
    }
    JudgeBatchApplies(g, seg, s, b, isLast);
  }

  lemma JudgeSegmentApplies(g: Geometry, segs: seq<Segment>, stale: Stale, log: seq<seq<Placed>>, s: nat, firm: bool)
    requires LogHolds(g, segs, stale, log) && s < |segs| && Inside(segs[s], log[s])
    requires LastIsFirm(Scanned(g, segs, log), log, firm)
    ensures Applies(JoinAll(BatchVerdicts(g, segs, Scanned(g, segs, log), s)),
                    SegmentOps(segs[s].first, KeptAll(segs[s], log[s])), firm)
  {
    var verdicts, kept := BatchVerdicts(g, segs, Scanned(g, segs, log), s), KeptAll(segs[s], log[s]);
    var opss := seq(|kept|, k requires 0 <= k < |kept| => if WellFormed(kept[k]) then BatchOps(segs[s].first, kept[k]) else []);
    assert |verdicts| == |log[s]|;
    forall k | 0 <= k < |log[s]| ensures Applies(verdicts[k], opss[k], firm) {
      JudgeOneApplies(g, segs, stale, log, s, k, firm);
    }
    JoinApplies(verdicts, opss, firm);
  }

  /** The scan of a log: it never refuses, it applies what survives, it finds the last batch and
      where the next one goes. */
  lemma ScanAllFinds(g: Geometry, segs: seq<Segment>, stale: Stale, log: seq<seq<Placed>>, firm: bool)
    requires LogHolds(g, segs, stale, log)
    requires LastIsFirm(Scanned(g, segs, log), log, firm)
    ensures var r := ScanAll(g, segs, stale);
            && r.Ok? && r.value.lastBatch == LastBefore(segs, log, |segs|)
            && r.value.cursors == Cursors(Scanned(g, segs, log))
            && Applies(Ok(r.value.verdicts), LogOps(segs, KeptLog(segs, log)), firm)
            && JoinAll(SegmentVerdicts(g, segs, Scanned(g, segs, log))) == Ok(r.value.verdicts)
  {
    var scans, kept := Scanned(g, segs, log), KeptLog(segs, log);
    ScanSegmentsFind(g, segs, stale, log);
    var verdicts := SegmentVerdicts(g, segs, scans);
    var opss := seq(|segs|, s requires 0 <= s < |segs| => SegmentOps(segs[s].first, kept[s]));
    forall s | 0 <= s < |segs| ensures Applies(verdicts[s], opss[s], firm) {
      assert SegmentHolds(g, segs[s], stale, log[s]);
      JudgeSegmentApplies(g, segs, stale, log, s, firm);
    }
    JoinApplies(verdicts, opss, firm);
  }
}
