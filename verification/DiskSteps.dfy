/** What the steps share: writes to the active segment and to the metainfo keep the disk's invariant. */
module DiskSteps {
  import opened Format
  import opened Ops
  import opened Recover
  import opened Log
  import opened Verdict
  import opened Writes
  import opened Tail
  import opened Spec
  import opened Runs
  import opened Invariant

  /** The same segments by their headers. */
  predicate SameHeaders(segs: seq<Segment>, segs': seq<Segment>) {
    && |segs'| == |segs|
    && forall s {:trigger segs'[s]} | 0 <= s < |segs| :: segs'[s].first == segs[s].first && segs'[s].prev == segs[s].prev
  }

  lemma SameHeadersSameOps(segs: seq<Segment>, segs': seq<Segment>, log: seq<seq<Placed>>)
    requires SameHeaders(segs, segs') && |segs| == |log|
    ensures LogOps(segs', log) == LogOps(segs, log)
    ensures forall s | 0 <= s <= |segs| :: LastBefore(segs', log, s) == LastBefore(segs, log, s)
  {
    assert seq(|segs'|, s requires 0 <= s < |segs'| => SegmentOps(segs'[s].first, log[s]))
        == seq(|segs|, s requires 0 <= s < |segs| => SegmentOps(segs[s].first, log[s]));
    forall s | 0 <= s <= |segs| ensures LastBefore(segs', log, s) == LastBefore(segs, log, s) {
      assert s > 0 ==> segs'[s - 1].prev == segs[s - 1].prev;
      assert segs != [] ==> segs'[0].prev == segs[0].prev;
    }
  }

  lemma ChainedLast(inv: SegmentInv, segs: seq<Segment>, log: seq<seq<Placed>>, tail: Option<Placed>, seg: Segment, tail': Option<Placed>)
    requires Chained(inv, segs, log, tail) && segs != []
    requires seg.first == segs[|segs| - 1].first && seg.prev == segs[|segs| - 1].prev
    requires inv(seg, log[|log| - 1], tail')
    ensures Chained(inv, segs[|segs| - 1 := seg], log, tail')
    ensures SameHeaders(segs, segs[|segs| - 1 := seg])
  {
    var segs' := segs[|segs| - 1 := seg];
    SameHeadersSameOps(segs, segs', log);
    forall s | 0 <= s < |segs'| ensures inv(segs'[s], log[s], TailAt(|segs'|, s, tail')) {
      assert inv(segs[s], log[s], TailAt(|segs|, s, tail));
    }
    forall s | 0 <= s < |segs'| ensures segs'[s].prev == LastBefore(segs', log, s) {
      assert segs[s].prev == LastBefore(segs, log, s);
    }
  }

  /** Each cell of `now` was there before or is of batch `n`. */
  predicate CellsFrom(seg: Segment, now: Segment, n: nat) {
    && now.first == seg.first && now.prev == seg.prev && |now.slots| == |seg.slots|
    && (forall j | 0 <= j < |now.slots| :: now.slots[j].Valid? ==> now.slots[j] == seg.slots[j] || now.slots[j].record.batch == n)
    && (forall o | o in now.entries :: (o in seg.entries && now.entries[o] == seg.entries[o]) || now.entries[o].batch == n)
  }

  lemma CellsFromNumbered(seg: Segment, now: Segment, n: nat, generation: nat, last: nat)
    requires CellsFrom(seg, now, n) && SegmentNumbered(seg, generation, last) && NumberOk(n, generation, last)
    ensures SegmentNumbered(now, generation, last)
  {
  }

  lemma NumberedPut(d: Disk, seg: Segment, n: nat, generation: nat, last: nat)
    requires Numbered(d, generation, last) && d.segs != [] && CellsFrom(LastSegment(d), seg, n) && NumberOk(n, generation, last)
    ensures Numbered(PutSegment(d, Active(d), seg), generation, last)
  {
    var d' := PutSegment(d, Active(d), seg);
    forall s | 0 <= s < |d'.segs| ensures SegmentNumbered(d'.segs[s], generation, last) {
      assert SegmentNumbered(d.segs[s], generation, last);
      if s == Active(d) { CellsFromNumbered(LastSegment(d), seg, n, generation, last); }
    }
  }

  lemma NumberedGrows(d: Disk, generation: nat, last: nat, generation': nat, last': nat)
    requires Numbered(d, generation, last)
    requires forall n: nat {:trigger NumberOk(n, generation, last)} :: NumberOk(n, generation, last) ==> NumberOk(n, generation', last')
    ensures Numbered(d, generation', last')
  {
    forall s | 0 <= s < |d.segs| ensures SegmentNumbered(d.segs[s], generation', last') {
      assert SegmentNumbered(d.segs[s], generation, last);
    }
    forall s | 0 <= s < |d.spares| && d.spares[s].Own?
      ensures CellsNumbered(d.spares[s].slots, d.spares[s].entries, generation', last')
    {
      assert CellsNumbered(d.spares[s].slots, d.spares[s].entries, generation, last);
    }
  }

  /** No copy installs the commit in flight or vouches for its batch. */
  predicate Unvouched(d: Disk, w: Witness)
    requires |d.segs| == |w.log|
  {
    && (d.a.Copy? ==> OldMeta(d.a.meta, d, w)) && (d.b.Copy? ==> OldMeta(d.b.meta, d, w))
  }

  predicate OldMeta(m: Meta, d: Disk, w: Witness)
    requires |d.segs| == |w.log|
  {
    m.floor == w.abs.floor && m.bytes == w.abs.bytes && m.lastBatch <= LastBefore(d.segs, w.log, |d.segs|)
  }

  lemma OldMetaStays(m: Meta, d: Disk, w: Witness, seg: Segment, t': Placed)
    requires |d.segs| == |w.log| && TailInside(d, w.tail) && MetaOk(m, d, w) && OldMeta(m, d, w) && w.tail.Some?
    requires CellsFrom(LastSegment(d), seg, t'.seqno) && t'.seqno == w.tail.value.seqno
    requires TailInside(PutSegment(d, Active(d), seg), Some(t'))
    ensures MetaOk(m, PutSegment(d, Active(d), seg), w.(tail := Some(t')))
    ensures OldMeta(m, PutSegment(d, Active(d), seg), w)
  {
    NumberedPut(d, seg, t'.seqno, m.generation + 1, 0);
    SameHeadersSameOps(d.segs, d.segs[Active(d) := seg], w.log);
  }

  lemma TailWriteStands(d: Disk, w: Witness, seg: Segment, t': Placed)
    requires Stands(d, w) && w.tail.Some? && Unvouched(d, w)
    requires CellsFrom(LastSegment(d), seg, t'.seqno) && t'.seqno == w.tail.value.seqno
    requires TailInside(PutSegment(d, Active(d), seg), Some(t')) && Pending(w.abs, Some(t'))
    ensures Stands(PutSegment(d, Active(d), seg), w.(tail := Some(t')))
    ensures Unvouched(PutSegment(d, Active(d), seg), w)
  {
    SameHeadersSameOps(d.segs, d.segs[Active(d) := seg], w.log);
    if d.a.Copy? { OldMetaStays(d.a.meta, d, w, seg, t'); }
    if d.b.Copy? { OldMetaStays(d.b.meta, d, w, seg, t'); }
  }

  /** A write to the batch in flight, before anything vouches for it. */
  lemma TailWriteKeeps(inv: SegmentInv, g: Geometry, d: Disk, w: Witness, seg: Segment, t': Placed)
    requires DiskInvOf(inv, g, d, w) && w.tail.Some? && Unvouched(d, w)
    requires CellsFrom(LastSegment(d), seg, t'.seqno) && t'.seqno == w.tail.value.seqno
    requires TailInside(PutSegment(d, Active(d), seg), Some(t')) && Pending(w.abs, Some(t'))
    requires inv(seg, w.log[|w.log| - 1], Some(t'))
    ensures DiskInvOf(inv, g, PutSegment(d, Active(d), seg), w.(tail := Some(t')))
    ensures Unvouched(PutSegment(d, Active(d), seg), w)
  {
    ChainedLast(inv, d.segs, w.log, w.tail, seg, Some(t'));
    TailWriteStands(d, w, seg, t');
    SparesStay(g, d, PutSegment(d, Active(d), seg));
  }

  lemma SparesStay(g: Geometry, d: Disk, d': Disk)
    requires SparesOk(g, d) && SameHeaders(d.segs, d'.segs)
    requires forall s {:trigger d'.spares[s]} | 0 <= s < |d'.spares| :: d'.spares[s] in d.spares
    ensures SparesOk(g, d')
  {
    FirstsStay(d, d');
    forall s | 0 <= s < |d'.spares|
      ensures match d'.spares[s] { case Own(_, _, slots, _) => |slots| == g.Slots() case Alias(first) => first in Firsts(d') }
    {
      var t :| 0 <= t < |d.spares| && d.spares[t] == d'.spares[s];
    }
  }

  lemma FirstsStay(d: Disk, d': Disk)
    requires SameHeaders(d.segs, d'.segs)
    ensures Firsts(d') == Firsts(d)
  {
    forall x ensures x in Firsts(d') <==> x in Firsts(d) {
      if x in Firsts(d) {
        var s :| 0 <= s < |d.segs| && d.segs[s].first == x;
        assert d'.segs[s].first == x;
      }
      if x in Firsts(d') {
        var s :| 0 <= s < |d'.segs| && d'.segs[s].first == x;
        assert d.segs[s].first == x;
      }
    }
  }

  // ---- a commit begins ----

  lemma FlightBegins(inv: SegmentInv, g: Geometry, d: Disk, w: Witness, f: Flight)
    requires DiskInvOf(inv, g, d, w) && w.abs.flight.None? && f.floor >= w.abs.floor
    ensures w.tail.None? && DiskInvOf(inv, g, d, w.(abs := w.abs.(flight := Some(f))))
  {
  }

  /** A batch of the newest generation is about to be written to the active segment. */
  lemma TailBegins(inv: SegmentInv, g: Geometry, d: Disk, w: Witness, t: Placed)
    requires DiskInvOf(inv, g, d, w) && w.tail.None? && Unvouched(d, w)
    requires TailInside(d, Some(t)) && Pending(w.abs, Some(t))
    requires inv(LastSegment(d), w.log[|w.log| - 1], Some(t))
    requires d.a.Copy? ==> GenerationOf(t.seqno) == d.a.meta.generation
    requires d.b.Copy? ==> GenerationOf(t.seqno) == d.b.meta.generation
    ensures DiskInvOf(inv, g, d, w.(tail := Some(t)))
  {
    ChainedLast(inv, d.segs, w.log, w.tail, LastSegment(d), Some(t));
    assert d.segs[|d.segs| - 1 := LastSegment(d)] == d.segs;
  }

  // ---- a segment is published ----

  lemma ChainedGrows(inv: SegmentInv, segs: seq<Segment>, log: seq<seq<Placed>>, seg: Segment)
    requires Chained(inv, segs, log, None) && inv(seg, [], None) && seg.prev == LastBefore(segs, log, |segs|)
    requires forall s {:trigger segs[s]} | 0 <= s < |segs| :: segs[s].first < seg.first
    ensures Chained(inv, segs + [seg], log + [[]], None)
  {
    var segs', log' := segs + [seg], log + [[]];
    forall s | 0 <= s < |segs'| ensures inv(segs'[s], log'[s], TailAt(|segs'|, s, None)) {
      if s < |segs| { assert inv(segs[s], log[s], TailAt(|segs|, s, None)); }
    }
    forall s | 0 <= s < |segs'| ensures segs'[s].prev == LastBefore(segs', log', s) {
      if s < |segs| { assert segs[s].prev == LastBefore(segs, log, s); }
    }
  }

  lemma GrownOps(segs: seq<Segment>, log: seq<seq<Placed>>, seg: Segment)
    requires |segs| == |log|
    ensures LogOps(segs + [seg], log + [[]]) == LogOps(segs, log)
  {
    var segs', log' := segs + [seg], log + [[]];
    var opss := seq(|segs'|, s requires 0 <= s < |segs'| => SegmentOps(segs'[s].first, log'[s]));
    assert opss[..|segs|] == seq(|segs|, s requires 0 <= s < |segs| => SegmentOps(segs[s].first, log[s]));
    assert opss[|segs|] == [];
  }

  /** The spares' cells were there before; a second name names a listed segment. */
  predicate SparesFrom(d: Disk, d': Disk) {
    forall s {:trigger d'.spares[s]} | 0 <= s < |d'.spares| ::
      match d'.spares[s]
      case Own(_, _, slots, entries) =>
        exists t | 0 <= t < |d.spares| :: d.spares[t].Own? && d.spares[t].slots == slots && d.spares[t].entries == entries
      case Alias(first) => first in Firsts(d')
  }

  lemma NumberedSpares(d: Disk, d': Disk, generation: nat, last: nat)
    requires Numbered(d, generation, last) && SparesFrom(d, d')
    requires forall s {:trigger d'.segs[s]} | 0 <= s < |d'.segs| :: SegmentNumbered(d'.segs[s], generation, last)
    ensures Numbered(d', generation, last)
  {
    forall s | 0 <= s < |d'.spares| && d'.spares[s].Own?
      ensures CellsNumbered(d'.spares[s].slots, d'.spares[s].entries, generation, last)
    {
      var t :| 0 <= t < |d.spares| && d.spares[t].Own? && d.spares[t].slots == d'.spares[s].slots
               && d.spares[t].entries == d'.spares[s].entries;
    }
  }

  lemma SparesFromOk(g: Geometry, d: Disk, d': Disk)
    requires SparesOk(g, d) && SparesFrom(d, d')
    ensures SparesOk(g, d')
  {
    forall s | 0 <= s < |d'.spares| && d'.spares[s].Own? ensures |d'.spares[s].slots| == g.Slots() {
      var t :| 0 <= t < |d.spares| && d.spares[t].Own? && d.spares[t].slots == d'.spares[s].slots
               && d.spares[t].entries == d'.spares[s].entries;
    }
  }

  lemma NumberedGrown(d: Disk, seg: Segment, d': Disk, generation: nat, last: nat)
    requires Numbered(d, generation, last) && SparesFrom(d, d') && d'.segs == d.segs + [seg]
    requires SegmentNumbered(seg, generation, last)
    ensures Numbered(d', generation, last)
  {
    forall s | 0 <= s < |d'.segs| ensures SegmentNumbered(d'.segs[s], generation, last) {
      assert s < |d.segs| ==> d'.segs[s] == d.segs[s];
    }
    NumberedSpares(d, d', generation, last);
  }

  lemma GrownMeta(m: Meta, d: Disk, w: Witness, seg: Segment, d': Disk)
    requires |d.segs| == |w.log| && w.tail.None? && MetaOk(m, d, w) && OldMeta(m, d, w)
    requires d'.segs == d.segs + [seg] && SparesFrom(d, d') && seg.prev == LastBefore(d.segs, w.log, |d.segs|)
    requires SegmentNumbered(seg, m.generation + 1, 0)
    ensures MetaOk(m, d', w.(log := w.log + [[]])) && OldMeta(m, d', w.(log := w.log + [[]]))
  {
    NumberedGrown(d, seg, d', m.generation + 1, 0);
  }

  lemma SegmentGrows(inv: SegmentInv, g: Geometry, d: Disk, w: Witness, seg: Segment, d': Disk)
    requires DiskInvOf(inv, g, d, w) && w.tail.None? && Unvouched(d, w)
    requires d' == d.(segs := d.segs + [seg], spares := d'.spares) && SparesFrom(d, d')
    requires inv(seg, [], None) && seg.prev == LastBefore(d.segs, w.log, |d.segs|)
    requires forall s {:trigger d.segs[s]} | 0 <= s < |d.segs| :: d.segs[s].first < seg.first
    requires d.a.Copy? ==> SegmentNumbered(seg, d.a.meta.generation + 1, 0)
    requires d.b.Copy? ==> SegmentNumbered(seg, d.b.meta.generation + 1, 0)
    ensures DiskInvOf(inv, g, d', w.(log := w.log + [[]])) && Unvouched(d', w.(log := w.log + [[]]))
  {
    ChainedGrows(inv, d.segs, w.log, seg);
    GrownOps(d.segs, w.log, seg);
    SparesFromOk(g, d, d');
    if d.a.Copy? { GrownMeta(d.a.meta, d, w, seg, d'); }
    if d.b.Copy? { GrownMeta(d.b.meta, d, w, seg, d'); }
  }

  lemma SparesMeta(m: Meta, d: Disk, w: Witness, d': Disk)
    requires d'.segs == d.segs && SparesFrom(d, d')
    requires TailInside(d, w.tail) && |d.segs| == |w.log| && MetaOk(m, d, w)
    ensures MetaOk(m, d', w)
  {
    NumberedSpares(d, d', m.generation + 1, 0);
  }

  lemma SparesChange(inv: SegmentInv, g: Geometry, d: Disk, w: Witness, d': Disk)
    requires DiskInvOf(inv, g, d, w) && d' == d.(spares := d'.spares) && SparesFrom(d, d')
    ensures DiskInvOf(inv, g, d', w)
  {
    SparesFromOk(g, d, d');
    if d.a.Copy? { SparesMeta(d.a.meta, d, w, d'); }
    if d.b.Copy? { SparesMeta(d.b.meta, d, w, d'); }
  }

  // ---- a metainfo copy is written ----

  function Other(which: Which): Which { if which.A? then B else A }

  lemma MetaStays(m: Meta, d: Disk, w: Witness, d': Disk)
    requires d'.segs == d.segs && d'.spares == d.spares
    requires TailInside(d, w.tail) && |d.segs| == |w.log| && MetaOk(m, d, w)
    ensures MetaOk(m, d', w)
  {
  }

  /** One copy is written or torn while the other is readable. */
  lemma TornCopyKeeps(inv: SegmentInv, g: Geometry, d: Disk, w: Witness, which: Which, m: Meta, d': Disk)
    requires DiskInvOf(inv, g, d, w) && TornCopy(d, which, m, d')
    requires MetaOk(m, d, w)
    requires var other := CopyAt(d, Other(which)); other.Copy? && (other.meta.seqno == m.seqno ==> other.meta == m)
    ensures DiskInvOf(inv, g, d', w)
  {
    MetaStays(m, d, w, d');
    if d.a.Copy? { MetaStays(d.a.meta, d, w, d'); }
    if d.b.Copy? { MetaStays(d.b.meta, d, w, d'); }
    SparesFromOk(g, d, d') by {
      forall s | 0 <= s < |d'.spares| && d'.spares[s].Own?
        ensures exists t | 0 <= t < |d.spares| :: d.spares[t].Own? && d.spares[t].slots == d'.spares[s].slots && d.spares[t].entries == d'.spares[s].entries
      {
        assert d.spares[s] == d'.spares[s];
      }
    }
  }

  // ---- the commit in flight is settled ----

  lemma SegmentOpsSnoc(first: nat, bs: seq<Placed>, t: Placed)
    requires WellFormed(t)
    ensures SegmentOps(first, bs + [t]) == SegmentOps(first, bs) + BatchOps(first, t)
  {
    var all := bs + [t];
    var opss := seq(|all|, k requires 0 <= k < |all| => if WellFormed(all[k]) then BatchOps(first, all[k]) else []);
    assert opss[..|bs|] == seq(|bs|, k requires 0 <= k < |bs| => if WellFormed(bs[k]) then BatchOps(first, bs[k]) else []);
    assert opss[|bs|] == BatchOps(first, t);
  }

  lemma ConcatUpdate<T>(xss: seq<seq<T>>, ys: seq<T>)
    requires xss != []
    ensures Concat(xss[|xss| - 1 := xss[|xss| - 1] + ys]) == Concat(xss) + ys
  {
    assert xss[|xss| - 1 := xss[|xss| - 1] + ys][..|xss| - 1] == xss[..|xss| - 1];
  }

  lemma MergedOps(segs: seq<Segment>, log: seq<seq<Placed>>, t: Placed)
    requires |segs| == |log| > 0 && WellFormed(t)
    ensures LogOps(segs, Merged(log, Some(t))) == LogOps(segs, log) + BatchOps(segs[|segs| - 1].first, t)
  {
    var n, log', more := |segs| - 1, Merged(log, Some(t)), BatchOps(segs[|segs| - 1].first, t);
    var opss := seq(|segs|, s requires 0 <= s < |segs| => SegmentOps(segs[s].first, log[s]));
    SegmentOpsSnoc(segs[n].first, log[n], t);
    assert seq(|segs|, s requires 0 <= s < |segs| => SegmentOps(segs[s].first, log'[s])) == opss[n := opss[n] + more];
    ConcatUpdate(opss, more);
  }

  lemma MergedLast(segs: seq<Segment>, log: seq<seq<Placed>>, t: Placed)
    requires |segs| == |log| > 0
    ensures LastBefore(segs, Merged(log, Some(t)), |segs|) == t.seqno
    ensures forall s {:trigger LastBefore(segs, log, s)} | 0 <= s < |segs| ::
              LastBefore(segs, Merged(log, Some(t)), s) == LastBefore(segs, log, s)
  {
  }

  lemma ChainedMerges(inv: SegmentInv, segs: seq<Segment>, log: seq<seq<Placed>>, tail: Option<Placed>)
    requires Chained(inv, segs, log, tail)
    requires tail.Some? ==> inv(segs[|segs| - 1], log[|log| - 1] + [tail.value], None)
    ensures Chained(inv, segs, Merged(log, tail), None)
  {
    var log' := Merged(log, tail);
    if tail.Some? { MergedLast(segs, log, tail.value); }
    forall s | 0 <= s < |segs| ensures inv(segs[s], log'[s], TailAt(|segs|, s, None)) {
      assert inv(segs[s], log[s], TailAt(|segs|, s, tail));
    }
    forall s | 0 <= s < |segs| ensures segs[s].prev == LastBefore(segs, log', s) {
      assert segs[s].prev == LastBefore(segs, log, s);
    }
  }

  /** What the batch in flight adds to the log. */
  function TailOps(d: Disk, tail: Option<Placed>): seq<Op<Item>>
    requires TailInside(d, tail)
  {
    if tail.Some? then BatchOps(LastSegment(d).first, tail.value) else []
  }

  lemma TailOpsMerge(d: Disk, log: seq<seq<Placed>>, tail: Option<Placed>)
    requires |d.segs| == |log| && TailInside(d, tail)
    ensures LogOps(d.segs, Merged(log, tail)) == LogOps(d.segs, log) + TailOps(d, tail)
  {
    if tail.Some? { MergedOps(d.segs, log, tail.value); }
  }

  /** Two logs that agree above a floor still do after the same operations, above any higher floor. */
  lemma FoldAgrees<V>(xs: seq<Op<V>>, ys: seq<Op<V>>, more: seq<Op<V>>, floor: nat, higher: nat)
    requires Above(Fold(map[], xs), floor) == Above(Fold(map[], ys), floor) && floor <= higher
    ensures Above(Fold(map[], xs + more), higher) == Above(Fold(map[], ys + more), higher)
  {
    FoldConcat(map[], xs, more);
    FoldConcat(map[], ys, more);
    FoldAbove(Fold(map[], xs), Fold(map[], ys), more, floor, higher);
  }

  lemma SettledMatches(d: Disk, w: Witness, abs': Abs)
    requires |d.segs| == |w.log| && TailInside(d, w.tail) && Matches(d.segs, w) && abs'.floor >= w.abs.floor
    requires abs'.hist == w.abs.hist + MapOps(CellOfItem, TailOps(d, w.tail))
    ensures Matches(d.segs, Witness(abs', Merged(w.log, w.tail), None))
  {
    TailOpsMerge(d, w.log, w.tail);
    MapOpsConcat(CellOfItem, LogOps(d.segs, w.log), TailOps(d, w.tail));
    EndsWithMore(w.abs.hist, CellOps(d.segs, w.log), MapOps(CellOfItem, TailOps(d, w.tail)));
    FoldAgrees(CellOps(d.segs, w.log), w.abs.hist, MapOps(CellOfItem, TailOps(d, w.tail)), w.abs.floor, abs'.floor);
  }

  lemma SettledMeta(m: Meta, d: Disk, w: Witness, abs': Abs)
    requires |d.segs| == |w.log| && TailInside(d, w.tail) && MetaOk(m, d, w)
    requires m.floor == abs'.floor && m.bytes == abs'.bytes
    requires w.tail.Some? ==> w.tail.value.seqno > LastBefore(d.segs, w.log, |d.segs|)
    ensures MetaOk(m, d, Witness(abs', Merged(w.log, w.tail), None))
  {
    if w.tail.Some? {
      MergedLast(d.segs, w.log, w.tail.value);
      var log': seq<seq<Placed>>, n := Merged(w.log, w.tail), |w.log| - 1;
      forall s, k | 0 <= s < |log'| && 0 <= k < |log'[s]| ensures !StaleOf(m).IsStale(log'[s][k].seqno) {
        assert s < n ==> log'[s][k] == w.log[s][k];
        assert s == n && k < |w.log[n]| ==> log'[s][k] == w.log[n][k];
      }
    }
  }

  /** The batch in flight joins the log and its writes the history. */
  lemma Settle(inv: SegmentInv, g: Geometry, d: Disk, w: Witness, abs': Abs)
    requires DiskInvOf(inv, g, d, w) && abs'.floor >= w.abs.floor && abs'.flight.None?
    requires abs'.hist == w.abs.hist + MapOps(CellOfItem, TailOps(d, w.tail))
    requires w.tail.Some? ==> inv(LastSegment(d), w.log[|w.log| - 1] + [w.tail.value], None)
    requires w.tail.Some? ==> w.tail.value.seqno > LastBefore(d.segs, w.log, |d.segs|)
    requires d.a.Copy? ==> d.a.meta.floor == abs'.floor && d.a.meta.bytes == abs'.bytes
    requires d.b.Copy? ==> d.b.meta.floor == abs'.floor && d.b.meta.bytes == abs'.bytes
    ensures DiskInvOf(inv, g, d, Witness(abs', Merged(w.log, w.tail), None))
  {
    ChainedMerges(inv, d.segs, w.log, w.tail);
    SettledMatches(d, w, abs');
    if d.a.Copy? { SettledMeta(d.a.meta, d, w, abs'); }
    if d.b.Copy? { SettledMeta(d.b.meta, d, w, abs'); }
  }

  // ---- the front segment is removed ----

  lemma ChainedDrops(inv: SegmentInv, segs: seq<Segment>, log: seq<seq<Placed>>)
    requires Chained(inv, segs, log, None) && |segs| > 1
    ensures Chained(inv, segs[1..], log[1..], None)
    ensures LastBefore(segs[1..], log[1..], |segs| - 1) == LastBefore(segs, log, |segs|)
  {
    var segs', log' := segs[1..], log[1..];
    forall s | 0 <= s < |segs'| ensures inv(segs'[s], log'[s], TailAt(|segs'|, s, None)) {
      assert inv(segs[s + 1], log[s + 1], TailAt(|segs|, s + 1, None));
    }
    forall s | 0 <= s < |segs'| ensures segs'[s].prev == LastBefore(segs', log', s) {
      assert segs[s + 1].prev == LastBefore(segs, log, s + 1);
    }
  }

  lemma {:induction false} ConcatHead<T>(xss: seq<seq<T>>)
    requires xss != []
    ensures Concat(xss) == xss[0] + Concat(xss[1..])
    decreases |xss|
  {
    var n := |xss| - 1;
    if n > 0 {
      ConcatHead(xss[..n]);
      assert xss[..n][1..] == xss[1..][..n - 1];
    }
  }

  lemma FrontOps(segs: seq<Segment>, log: seq<seq<Placed>>)
    requires |segs| == |log| > 0
    ensures LogOps(segs, log) == SegmentOps(segs[0].first, log[0]) + LogOps(segs[1..], log[1..])
  {
    var opss := seq(|segs|, s requires 0 <= s < |segs| => SegmentOps(segs[s].first, log[s]));
    ConcatHead(opss);
    var segs', log' := segs[1..], log[1..];
    assert opss[1..] == seq(|segs'|, s requires 0 <= s < |segs'| => SegmentOps(segs'[s].first, log'[s]));
  }

  lemma {:induction false} ConcatMember<T>(xss: seq<seq<T>>, x: T) returns (k: nat)
    requires x in Concat(xss)
    ensures k < |xss| && x in xss[k]
  {
    var n := |xss| - 1;
    if x in xss[n] { k := n; } else { k := ConcatMember(xss[..n], x); }
  }

  /** Every put of a segment's log points into that segment. */
  lemma SegmentPuts(first: nat, bs: seq<Placed>, op: Op<Item>)
    requires op in SegmentOps(first, bs) && op.Put?
    ensures op.value.at.segment == first
  {
    var k := ConcatMember(seq(|bs|, k requires 0 <= k < |bs| => if WellFormed(bs[k]) then BatchOps(first, bs[k]) else []), op);
    var i := ConcatMember(seq(|bs[k].entries|, i requires 0 <= i < |bs[k].entries| => OpAt(first, bs[k], i)), op);
  }

  /** Nothing above the floor lives in the front segment: the rest of the log says it all. */
  predicate FrontUnused(segs: seq<Segment>, log: seq<seq<Placed>>, floor: nat)
    requires |segs| == |log| > 0
  {
    var items := Fold(map[], LogOps(segs, log));
    forall p | p in items && p >= floor :: items[p].at.segment != segs[0].first
  }

  lemma UnusedFrontDrops(segs: seq<Segment>, log: seq<seq<Placed>>, floor: nat)
    requires |segs| == |log| > 0 && FrontUnused(segs, log, floor)
    ensures Above(Fold(map[], LogOps(segs[1..], log[1..])), floor) == Above(Fold(map[], LogOps(segs, log)), floor)
  {
    var xs, ys := SegmentOps(segs[0].first, log[0]), LogOps(segs[1..], log[1..]);
    FrontOps(segs, log);
    var all, rest := Fold(map[], xs + ys), Fold(map[], ys);
    forall p | p >= floor ensures (p in all <==> p in rest) && (p in rest ==> all[p] == rest[p]) {
      FoldSuffix(xs, ys, p);
      if p in all && p !in rest {
        SegmentPuts(segs[0].first, log[0], Op.Put(p, all[p]));
        assert false;
      }
    }
  }

  lemma CellsAgree(xs: seq<Op<Item>>, ys: seq<Op<Item>>, floor: nat)
    requires Above(Fold(map[], xs), floor) == Above(Fold(map[], ys), floor)
    ensures Above(Fold(map[], MapOps(CellOfItem, xs)), floor) == Above(Fold(map[], MapOps(CellOfItem, ys)), floor)
  {
    FoldMapAbove(CellOfItem, xs, floor);
    FoldMapAbove(CellOfItem, ys, floor);
  }

  lemma FrontCells(segs: seq<Segment>, log: seq<seq<Placed>>, hist: seq<Op<Cell>>)
    requires |segs| == |log| > 0 && EndsWith(hist, CellOps(segs, log))
    ensures EndsWith(hist, CellOps(segs[1..], log[1..]))
  {
    var xs, ys := SegmentOps(segs[0].first, log[0]), LogOps(segs[1..], log[1..]);
    FrontOps(segs, log);
    MapOpsConcat(CellOfItem, xs, ys);
    EndsWithRest(hist, MapOps(CellOfItem, xs), MapOps(CellOfItem, ys));
  }

  lemma NumberedFront(d: Disk, generation: nat, last: nat)
    requires Numbered(d, generation, last) && d.segs != []
    ensures Numbered(FrontRemoved(d), generation, last)
  {
    var d' := FrontRemoved(d);
    assert SegmentNumbered(d.segs[0], generation, last);
    forall s | 0 <= s < |d'.segs| ensures SegmentNumbered(d'.segs[s], generation, last) {
      assert d'.segs[s] == d.segs[s + 1];
    }
  }

  lemma FrontMeta(m: Meta, d: Disk, w: Witness)
    requires |d.segs| == |w.log| > 1 && w.tail.None? && MetaOk(m, d, w) && w.abs.flight.None?
    ensures MetaOk(m, FrontRemoved(d), w.(log := w.log[1..]))
  {
    NumberedFront(d, m.generation + 1, 0);
    forall s, k | 0 <= s < |w.log[1..]| && 0 <= k < |w.log[1..][s]| ensures !StaleOf(m).IsStale(w.log[1..][s][k].seqno) {
      assert w.log[1..][s][k] == w.log[s + 1][k];
    }
  }

  lemma FrontDrops(inv: SegmentInv, g: Geometry, d: Disk, w: Witness)
    requires DiskInvOf(inv, g, d, w) && |d.segs| > 1 && w.abs.flight.None? && OneSpare(d)
    requires FrontUnused(d.segs, w.log, w.abs.floor) && |d.segs[0].slots| == g.Slots()
    ensures DiskInvOf(inv, g, FrontRemoved(d), w.(log := w.log[1..]))
  {
    ChainedDrops(inv, d.segs, w.log);
    UnusedFrontDrops(d.segs, w.log, w.abs.floor);
    CellsAgree(LogOps(d.segs[1..], w.log[1..]), LogOps(d.segs, w.log), w.abs.floor);
    FrontCells(d.segs, w.log, w.abs.hist);
    if d.a.Copy? { FrontMeta(d.a.meta, d, w); }
    if d.b.Copy? { FrontMeta(d.b.meta, d, w); }
  }

  // ---- the scan drops or restates the batch in flight ----

  /** A batch with a record missing is vouched for by no copy. */
  lemma MissingIsUnvouched(d: Disk, w: Witness)
    requires Stands(d, w) && w.tail.Some? && !AllEvident(LastSegment(d), w.tail.value)
    ensures Unvouched(d, w)
  {
  }

  lemma TailDrops(inv: SegmentInv, g: Geometry, d: Disk, w: Witness)
    requires DiskInvOf(inv, g, d, w) && w.tail.Some? && !AllEvident(LastSegment(d), w.tail.value)
    requires inv(LastSegment(d), w.log[|w.log| - 1], None)
    ensures DiskInvOf(inv, g, d, w.(tail := None))
  {
    ChainedLast(inv, d.segs, w.log, w.tail, LastSegment(d), None);
    assert d.segs[|d.segs| - 1 := LastSegment(d)] == d.segs;
  }
}
