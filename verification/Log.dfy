/** What a segment holds: batches placed one after the other, the last one possibly torn. The
    scan finds exactly these batches. */
module Log {
  import opened Format
  import opened Ops
  import opened Recover

  /** A batch at its place in a segment. `live[i]` is false once recovery discarded write `i`;
      a firm batch has every live entry intact. */
  datatype Placed = Placed(seqno: nat, at: nat, entryAt: nat, entries: seq<Entry>, live: seq<bool>, firm: bool)

  /** Each entry begins where the one before it ends. */
  function Off(b: Placed, i: nat): (r: nat)
    requires i <= |b.entries|
    ensures r >= b.entryAt
  {
    if i == 0 then b.entryAt else Off(b, i - 1) + Footprint(b.entries[i - 1].len)
  }

  /** The record slot `i` of the persist log should hold. */
  function Rec(b: Placed, i: nat): Record
    requires i < |b.entries| == |b.live|
  {
    if b.live[i] then Rebuild(b.entries[i], Off(b, i)) else VoidRecord(b.seqno, i, |b.entries|)
  }

  predicate WellFormed(b: Placed) {
    && |b.live| == |b.entries| > 0
    && forall i | 0 <= i < |b.entries| ::
         b.entries[i].batch == b.seqno && b.entries[i].index == i && b.entries[i].count == |b.entries|
         && b.entries[i].kind != Kind.Void
  }

  predicate WellPlaced(g: Geometry, b: Placed) {
    && WellFormed(b)
    && b.at + Span(|b.entries|) <= g.Slots()
    && g.EntryStart() <= b.entryAt && Off(b, |b.entries|) <= g.EntryEnd()
  }

  lemma {:induction false} OffGrows(b: Placed, i: nat, j: nat)
    requires i <= j <= |b.entries|
    ensures Off(b, i) <= Off(b, j)
    ensures i < j ==> Off(b, i) + Footprint(b.entries[i].len) <= Off(b, j)
    decreases j - i
  {
    if i < j {
      OffGrows(b, i, j - 1);
    }
  }

  // ---- cells of a segment ----

  /** A record that is evidence: it decodes and is not older than its segment. */
  predicate Fresh(seg: Segment, j: nat)
    requires j < |seg.slots|
  {
    seg.slots[j].Valid? && seg.slots[j].record.index < seg.slots[j].record.count && seg.slots[j].record.batch >= seg.first
  }

  predicate Evident(seg: Segment, b: Placed, i: nat)
    requires b.at + |b.entries| <= |seg.slots| && i < |b.entries|
  {
    Fresh(seg, b.at + i)
  }

  predicate EntryOk(seg: Segment, b: Placed, i: nat)
    requires i < |b.entries|
  {
    Off(b, i) in seg.entries && seg.entries[Off(b, i)] == b.entries[i]
  }

  /** The segment's cells are this batch's or not evidence; a discarded write's entry is gone or
      out of the walk's reach. */
  predicate Coherent(g: Geometry, seg: Segment, b: Placed) {
    && WellPlaced(g, b) && |seg.slots| == g.Slots() && b.seqno >= seg.first
    && (forall i | 0 <= i < |b.entries| :: Evident(seg, b, i) ==> seg.slots[b.at + i] == Valid(Rec(b, i)))
    && (forall j | b.at + |b.entries| <= j < b.at + Span(|b.entries|) :: !Fresh(seg, j))
    && (forall o | o in seg.entries && seg.entries[o].batch == b.seqno :: OwnEntry(b, o, seg.entries[o]))
    && (forall i | 0 <= i < |b.entries| :: !b.live[i] && EntryOk(seg, b, i) ==> i > 0 && !b.live[i - 1])
  }

  predicate OwnEntry(b: Placed, o: nat, e: Entry) {
    e.index < |b.entries| && o == Off(b, e.index) && e == b.entries[e.index]
  }

  /** What the scan makes of slot `i`. */
  function Expect(seg: Segment, b: Placed, i: nat): Found
    requires WellFormed(b) && b.at + |b.entries| <= |seg.slots| && i < |b.entries|
    decreases i, 0
  {
    if Evident(seg, b, i) then Recorded(Rec(b, i))
    else if b.live[i] && EntryOk(seg, b, i) && (i > 0 ==> Survives(seg, b, i - 1)) then Rebuilt(Rec(b, i))
    else Lost
  }

  predicate Survives(seg: Segment, b: Placed, i: nat)
    requires WellFormed(b) && b.at + |b.entries| <= |seg.slots| && i < |b.entries|
    decreases i, 1
  {
    b.live[i] && !Expect(seg, b, i).Lost?
  }

  /** The batch as recovery keeps it: what it lost is discarded. */
  function Kept(seg: Segment, b: Placed): (k: Placed)
    requires WellFormed(b) && b.at + |b.entries| <= |seg.slots|
    ensures WellFormed(k)
  {
    b.(live := seq(|b.entries|, i requires 0 <= i < |b.entries| => Survives(seg, b, i)))
  }

  function LiveEnd(b: Placed, n: nat): nat
    requires n <= |b.entries| == |b.live|
  {
    if n == 0 then b.entryAt else if b.live[n - 1] then Off(b, n) else LiveEnd(b, n - 1)
  }

  /** Where the batch after `b` puts its entries. */
  function NextCursor(b: Placed): nat {
    AlignToBlock(if |b.entries| == |b.live| then LiveEnd(b, |b.entries|) else b.entryAt)
  }

  function FrameOf(b: Placed): Frame { Frame(b.at, b.seqno, |b.entries|, b.entryAt) }

  predicate NoneStale(seg: Segment, stale: Stale) {
    forall j | 0 <= j < |seg.slots| :: Fresh(seg, j) ==> !stale.IsStale(seg.slots[j].record.batch)
  }

  /** Where the walk stands before slot `i`: at its entry, unless the slot before was lost. */
  function WalkTo(seg: Segment, b: Placed, i: nat): Option<nat>
    requires WellFormed(b) && b.at + |b.entries| <= |seg.slots| && i <= |b.entries|
  {
    if i == 0 || Survives(seg, b, i - 1) then Some(Off(b, i)) else None
  }

  lemma FoundHereIs(g: Geometry, seg: Segment, stale: Stale, b: Placed, i: nat, walk: Option<nat>)
    requires Coherent(g, seg, b) && NoneStale(seg, stale) && i < |b.entries|
    requires walk == WalkTo(seg, b, i)
    ensures FoundHere(g, seg, stale, FrameOf(b), i, walk) == Expect(seg, b, i)
  {
    OffGrows(b, i, |b.entries|);
    if !Evident(seg, b, i) && walk.Some? {
      assert EntryOk(seg, b, i) ==> ReadEntry(g, seg, walk.value) == Some(b.entries[i]);
    }
  }

  /** Slot by slot, the scan finds what the batch says. */
  lemma {:induction false} FoundIs(g: Geometry, seg: Segment, stale: Stale, b: Placed, i: nat)
    requires Coherent(g, seg, b) && NoneStale(seg, stale) && i < |b.entries|
    ensures FoundAt(g, seg, stale, FrameOf(b), i) == Expect(seg, b, i)
    ensures WalkAt(g, seg, stale, FrameOf(b), i + 1) == WalkTo(seg, b, i + 1)
  {
    var f := FrameOf(b);
    if i > 0 {
      FoundIs(g, seg, stale, b, i - 1);
    }
    var walk := WalkAt(g, seg, stale, f, i);
    assert walk == WalkTo(seg, b, i);
    FoundHereIs(g, seg, stale, b, i, walk);
    assert FoundAt(g, seg, stale, f, i) == FoundHere(g, seg, stale, f, i, walk);
  }

  lemma {:induction false} EndIs(g: Geometry, seg: Segment, stale: Stale, b: Placed, n: nat)
    requires Coherent(g, seg, b) && NoneStale(seg, stale) && n <= |b.entries|
    ensures EntriesEnd(g, seg, stale, FrameOf(b), n) == LiveEnd(Kept(seg, b), n) <= Off(b, n)
  {
    if n > 0 {
      EndIs(g, seg, stale, b, n - 1);
      FoundIs(g, seg, stale, b, n - 1);
      OffGrows(b, n - 1, n);
      OffKept(seg, b, n);
    }
  }

  lemma {:induction false} OffKept(seg: Segment, b: Placed, n: nat)
    requires WellFormed(b) && b.at + |b.entries| <= |seg.slots| && n <= |b.entries|
    ensures Off(Kept(seg, b), n) == Off(b, n)
  {
    if n > 0 {
      OffKept(seg, b, n - 1);
    }
  }

  function ScanOf(seg: Segment, b: Placed): BatchScan
    requires WellFormed(b) && b.at + |b.entries| <= |seg.slots|
  {
    BatchScan(b.seqno, |b.entries|, b.at, seq(|b.entries|, i requires 0 <= i < |b.entries| => Expect(seg, b, i)))
  }

  lemma FoundSlotsAre(g: Geometry, seg: Segment, stale: Stale, b: Placed)
    requires Coherent(g, seg, b) && NoneStale(seg, stale)
    ensures FoundSlots(g, seg, stale, FrameOf(b)) == ScanOf(seg, b).slots
  {
    forall i | 0 <= i < |b.entries| ensures FoundSlots(g, seg, stale, FrameOf(b))[i] == Expect(seg, b, i) {
      FoundIs(g, seg, stale, b, i);
    }
  }

  // ---- a segment's batches ----

  predicate Inside(seg: Segment, bs: seq<Placed>) {
    forall i | 0 <= i < |bs| :: WellFormed(bs[i]) && bs[i].at + |bs[i].entries| <= |seg.slots|
  }

  function ScansOf(seg: Segment, bs: seq<Placed>, k: nat): seq<BatchScan>
    requires k <= |bs| && Inside(seg, bs)
  {
    seq(|bs| - k, i requires 0 <= i < |bs| - k => ScanOf(seg, bs[k + i]))
  }

  function AtOf(bs: seq<Placed>, k: nat): nat
    requires k <= |bs|
  {
    if k == 0 then 0 else bs[k - 1].at + Span(|bs[k - 1].entries|)
  }

  function CursorOf(g: Geometry, bs: seq<Placed>, k: nat): nat
    requires k <= |bs|
  {
    if k == 0 then g.EntryStart() else NextCursor(bs[k - 1])
  }

  function SeqnoOf(bs: seq<Placed>, k: nat, prev: nat): nat
    requires k <= |bs|
  {
    if k == 0 then prev else bs[k - 1].seqno
  }

  function LastSeqno(bs: seq<Placed>, prev: nat): nat { SeqnoOf(bs, |bs|, prev) }

  function Seqnos(bs: seq<Placed>): set<nat> { set k | 0 <= k < |bs| :: bs[k].seqno }

  predicate Follows(g: Geometry, seg: Segment, bs: seq<Placed>, k: nat)
    requires k < |bs|
  {
    && bs[k].at == AtOf(bs, k) && bs[k].entryAt == CursorOf(g, bs, k)
    && bs[k].seqno > SeqnoOf(bs, k, seg.prev)
  }

  /** The segment holds these batches, one after the other, and nothing else that is evidence. */
  predicate Holds(g: Geometry, seg: Segment, bs: seq<Placed>) {
    && |seg.slots| == g.Slots()
    && (forall k {:trigger Coherent(g, seg, bs[k])} | 0 <= k < |bs| :: Coherent(g, seg, bs[k]))
    && Inside(seg, bs)
    && (forall k {:trigger Follows(g, seg, bs, k)} | 0 <= k < |bs| :: Follows(g, seg, bs, k))
    && (forall j | AtOf(bs, |bs|) <= j < |seg.slots| :: !Fresh(seg, j))
    && (forall o | o in seg.entries && seg.entries[o].batch >= seg.first && seg.entries[o].index == 0 ::
          seg.entries[o].batch in Seqnos(bs))
  }

  /** Some cell of the batch tells where it is. */
  predicate Visible(seg: Segment, b: Placed)
    requires WellFormed(b) && b.at + |b.entries| <= |seg.slots|
  {
    EntryOk(seg, b, 0) || exists i | 0 <= i < |b.entries| :: Evident(seg, b, i)
  }

  /** Every slot of the batch is found. */
  predicate Whole(seg: Segment, b: Placed)
    requires WellFormed(b) && b.at + |b.entries| <= |seg.slots|
  {
    forall i | 0 <= i < |b.entries| :: !Expect(seg, b, i).Lost?
  }

  lemma WholeIsVisible(seg: Segment, b: Placed)
    requires WellFormed(b) && b.at + |b.entries| <= |seg.slots| && Whole(seg, b)
    ensures Visible(seg, b) && Kept(seg, b) == b
  {
    assert !Expect(seg, b, 0).Lost?;
    assert Evident(seg, b, 0) || EntryOk(seg, b, 0);
    forall i | 0 <= i < |b.entries| ensures Kept(seg, b).live[i] == b.live[i] {
      assert !Expect(seg, b, i).Lost?;
    }
    assert Kept(seg, b).live == b.live;
  }

  /** Every evident record sits at or after its index, counted from any batch boundary. */
  lemma {:induction false} Grounded(g: Geometry, seg: Segment, bs: seq<Placed>, k: nat, j: nat)
    requires Holds(g, seg, bs) && k <= |bs| && AtOf(bs, k) <= j < |seg.slots| && Fresh(seg, j)
    ensures j - seg.slots[j].record.index >= AtOf(bs, k)
    ensures k < |bs| && j >= bs[k].at + |bs[k].entries| ==> j - seg.slots[j].record.index > bs[k].at
    decreases |bs| - k
  {
    if k < |bs| {
      assert Follows(g, seg, bs, k) && Coherent(g, seg, bs[k]);
      if j < AtOf(bs, k + 1) {
        assert j < bs[k].at + |bs[k].entries| && Evident(seg, bs[k], j - bs[k].at);
      } else {
        Grounded(g, seg, bs, k + 1, j);
      }
    }
  }

  lemma ShapeByRecord(g: Geometry, seg: Segment, stale: Stale, b: Placed, last: nat, i: nat)
    requires Coherent(g, seg, b) && NoneStale(seg, stale) && b.seqno > last
    requires i < |b.entries| && Evident(seg, b, i)
    ensures ShapeAt(g, seg, stale, b.at, b.entryAt, last) == Here(b.seqno, |b.entries|)
  {
    var j := FirstValid(seg, stale, b.at);
    assert View(seg, stale, b.at + i).Valid?;
    assert j <= b.at + i;
    assert Evident(seg, b, j - b.at);
  }

  lemma ShapeByEntry(g: Geometry, seg: Segment, stale: Stale, b: Placed, last: nat)
    requires Coherent(g, seg, b) && b.seqno > last && !stale.IsStale(b.seqno)
    requires EntryOk(seg, b, 0)
    requires forall j | b.at <= j < |seg.slots| :: Fresh(seg, j) ==> j - seg.slots[j].record.index > b.at
    ensures ShapeAt(g, seg, stale, b.at, b.entryAt, last) == Here(b.seqno, |b.entries|)
  {
    var j := FirstValid(seg, stale, b.at);
    assert j < |seg.slots| ==> Fresh(seg, j);
    OffGrows(b, 0, |b.entries|);
    assert ReadEntry(g, seg, b.entryAt) == Some(b.entries[0]);
  }

  lemma FreshAt(seg: Segment, b: Placed, j: nat)
    requires b.at + |b.entries| <= |seg.slots| && b.at <= j < |seg.slots| && Fresh(seg, j)
    ensures j >= b.at + |b.entries| || exists i | 0 <= i < |b.entries| :: Evident(seg, b, i)
  {
    if j < b.at + |b.entries| { assert Evident(seg, b, j - b.at); }
  }

  /** At its boundary, a visible batch is located: by its first evident record, or by its
      first entry when no record is left. */
  lemma ShapeIs(g: Geometry, seg: Segment, stale: Stale, bs: seq<Placed>, k: nat)
    requires Holds(g, seg, bs) && NoneStale(seg, stale) && k < |bs|
    requires Visible(seg, bs[k]) && !stale.IsStale(bs[k].seqno)
    ensures ShapeAt(g, seg, stale, bs[k].at, bs[k].entryAt, SeqnoOf(bs, k, seg.prev)) == Here(bs[k].seqno, |bs[k].entries|)
  {
    var b, last := bs[k], SeqnoOf(bs, k, seg.prev);
    assert Follows(g, seg, bs, k) && Coherent(g, seg, b);
    if i :| 0 <= i < |b.entries| && Evident(seg, b, i) {
      ShapeByRecord(g, seg, stale, b, last, i);
    } else {
      forall j | b.at <= j < |seg.slots| && Fresh(seg, j) ensures j - seg.slots[j].record.index > b.at {
        FreshAt(seg, b, j);
        Grounded(g, seg, bs, k, j);
      }
      ShapeByEntry(g, seg, stale, b, last);
    }
  }

  lemma {:induction false} SeqnosGrow(g: Geometry, seg: Segment, bs: seq<Placed>, i: nat, k: nat)
    requires Holds(g, seg, bs) && i <= k <= |bs|
    ensures SeqnoOf(bs, i, seg.prev) <= SeqnoOf(bs, k, seg.prev)
    decreases k - i
  {
    if i < k {
      assert Follows(g, seg, bs, k - 1);
      SeqnosGrow(g, seg, bs, i, k - 1);
    }
  }

  /** After the last batch the log ends, whatever the entry log still holds there. */
  lemma ScanEnds(g: Geometry, seg: Segment, stale: Stale, bs: seq<Placed>, cursor: nat)
    requires Holds(g, seg, bs)
    ensures ScanFrom(g, seg, stale, AtOf(bs, |bs|), cursor, LastSeqno(bs, seg.prev))
            == Ok(SegmentScan([], AtOf(bs, |bs|), cursor))
  {
    var last := LastSeqno(bs, seg.prev);
    if AtOf(bs, |bs|) < |seg.slots| {
      if IsHead(g, seg, stale, cursor, last) {
        var k :| 0 <= k < |bs| && bs[k].seqno == seg.entries[cursor].batch;
        SeqnosGrow(g, seg, bs, k + 1, |bs|);
        assert false;
      }
      var j := FirstValid(seg, stale, AtOf(bs, |bs|));
      assert j < |seg.slots| ==> Fresh(seg, j);
    }
  }

  /** A scan from a slot, an entry offset and the last batch before them. */
  /** At batch `b`, the scan finds it and goes on after it. */
  predicate Passes(scan: Scanner, seg: Segment, b: Placed, last: nat)
    requires WellFormed(b) && b.at + |b.entries| <= |seg.slots|
  {
    scan(b.at, b.entryAt, last)
    == Prepend([ScanOf(seg, b)], scan(b.at + Span(|b.entries|), NextCursor(Kept(seg, b)), b.seqno))
  }

  lemma ScanStep(g: Geometry, seg: Segment, stale: Stale, b: Placed, last: nat)
    requires Coherent(g, seg, b) && NoneStale(seg, stale)
    requires ShapeAt(g, seg, stale, b.at, b.entryAt, last) == Here(b.seqno, |b.entries|)
    ensures Passes(ScannerOf(g, seg, stale), seg, b, last)
  {
    FoundSlotsAre(g, seg, stale, b);
    EndIs(g, seg, stale, b, |b.entries|);
  }

  predicate Readable(seg: Segment, stale: Stale, bs: seq<Placed>)
    requires Inside(seg, bs)
  {
    && NoneStale(seg, stale)
    && (forall i {:trigger Visible(seg, bs[i])} | 0 <= i < |bs| :: Visible(seg, bs[i]) && !stale.IsStale(bs[i].seqno))
    && (forall i {:trigger Whole(seg, bs[i])} | 0 <= i < |bs| - 1 :: Whole(seg, bs[i]))
  }

  /** Where batch `k` is, once the scan passed the ones before it. */
  predicate Linked(seg: Segment, bs: seq<Placed>, k: nat)
    requires k < |bs| && Inside(seg, bs)
  {
    bs[k].at == AtOf(bs, k) && (k > 0 ==> bs[k].entryAt == NextCursor(Kept(seg, bs[k - 1])))
  }

  lemma LinksHold(g: Geometry, seg: Segment, stale: Stale, bs: seq<Placed>, k: nat)
    requires Holds(g, seg, bs) && Readable(seg, stale, bs) && k < |bs|
    ensures Linked(seg, bs, k)
  {
    assert Follows(g, seg, bs, k);
    if k > 0 {
      assert Whole(seg, bs[k - 1]);
      WholeIsVisible(seg, bs[k - 1]);
    }
  }

  /** The scan of what is left from batch `k` on. */
  function Remaining(seg: Segment, bs: seq<Placed>, k: nat, cursor: nat): SegmentScan
    requires k <= |bs| && Inside(seg, bs)
  {
    SegmentScan(ScansOf(seg, bs, k), AtOf(bs, |bs|), if k == |bs| then cursor else NextCursor(Kept(seg, bs[|bs| - 1])))
  }

  lemma RemainingNext(seg: Segment, bs: seq<Placed>, k: nat, cursor: nat)
    requires Inside(seg, bs) && k < |bs|
    ensures Prepend([ScanOf(seg, bs[k])], Ok(Remaining(seg, bs, k + 1, NextCursor(Kept(seg, bs[k]))))) == Ok(Remaining(seg, bs, k, cursor))
  {
    assert [ScanOf(seg, bs[k])] + ScansOf(seg, bs, k + 1) == ScansOf(seg, bs, k);
  }

  lemma {:induction false} Compose(scan: Scanner, seg: Segment, bs: seq<Placed>, k: nat, cursor: nat)
    requires Inside(seg, bs) && k <= |bs| && (k < |bs| ==> cursor == bs[k].entryAt)
    requires forall i {:trigger Linked(seg, bs, i)} | 0 <= i < |bs| ::
               Linked(seg, bs, i) && Passes(scan, seg, bs[i], SeqnoOf(bs, i, seg.prev))
    requires forall c: nat :: scan(AtOf(bs, |bs|), c, LastSeqno(bs, seg.prev)) == Ok(SegmentScan([], AtOf(bs, |bs|), c))
    ensures scan(AtOf(bs, k), cursor, SeqnoOf(bs, k, seg.prev)) == Ok(Remaining(seg, bs, k, cursor))
    decreases |bs| - k
  {
    if k < |bs| {
      var next := NextCursor(Kept(seg, bs[k]));
      assert Linked(seg, bs, k);
      assert k + 1 < |bs| ==> Linked(seg, bs, k + 1);
      Compose(scan, seg, bs, k + 1, next);
      RemainingNext(seg, bs, k, cursor);
    } else {
      assert ScansOf(seg, bs, k) == [];
    }
  }

  /** The whole segment: the scan finds every batch and where the next one goes. */
  lemma ScanFinds(g: Geometry, seg: Segment, stale: Stale, bs: seq<Placed>)
    requires Holds(g, seg, bs) && Readable(seg, stale, bs)
    ensures ScanSegment(g, seg, stale, seg.prev) == Ok(Remaining(seg, bs, 0, g.EntryStart()))
  {
    var scan := ScannerOf(g, seg, stale);
    forall i {:trigger Linked(seg, bs, i)} | 0 <= i < |bs|
      ensures Linked(seg, bs, i) && Passes(scan, seg, bs[i], SeqnoOf(bs, i, seg.prev))
    {
      LinksHold(g, seg, stale, bs, i);
      assert Visible(seg, bs[i]) && Coherent(g, seg, bs[i]);
      ShapeIs(g, seg, stale, bs, i);
      ScanStep(g, seg, stale, bs[i], SeqnoOf(bs, i, seg.prev));
    }
    forall c: nat
      ensures scan(AtOf(bs, |bs|), c, LastSeqno(bs, seg.prev)) == Ok(SegmentScan([], AtOf(bs, |bs|), c))
    {
      ScanEnds(g, seg, stale, bs, c);
    }
    assert |bs| > 0 ==> Follows(g, seg, bs, 0);
    Compose(scan, seg, bs, 0, g.EntryStart());
  }
}
