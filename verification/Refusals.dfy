/** When open refuses a disk, for any disk: a batch that is gone while later evidence remains, a link or a
    metainfo that names a batch not found, and a write lost twice before the last batch. What it accepts,
    it accepts with every record that counts. */
module Refusals {
  import opened Format
  import opened Recover
  import opened Evidence
  import Runs

  // ---- every segment ----

  /** The last batch found in these segments, `first` when none is. */
  function LastFound(scans: seq<SegmentScan>, first: nat): nat {
    if scans == [] then first
    else
      var n := |scans| - 1;
      if scans[n].batches == [] then LastFound(scans[..n], first) else scans[n].batches[|scans[n].batches| - 1].seqno
  }

  /** Each segment names the last batch found before it, and holds these batches. */
  ghost predicate SegmentIs(g: Geometry, segs: seq<Segment>, stale: Stale, first: nat, scans: seq<SegmentScan>, s: nat) {
    s < |segs| == |scans| && segs[s].prev == LastFound(scans[..s], first) && HoldsExactly(g, segs[s], stale, segs[s].prev, scans[s])
  }

  ghost predicate LogIs(g: Geometry, segs: seq<Segment>, stale: Stale, first: nat, scans: seq<SegmentScan>) {
    |scans| == |segs| && forall s {:trigger SegmentIs(g, segs, stale, first, scans, s)} | 0 <= s < |segs| :: SegmentIs(g, segs, stale, first, scans, s)
  }

  lemma {:induction false} LastFoundFront(scans: seq<SegmentScan>, first: nat)
    requires scans != []
    ensures LastFound(scans, first) == LastFound(scans[1..], LastOf(scans[0], first))
    decreases |scans|
  {
    var n := |scans| - 1;
    if n > 0 {
      assert scans[1..][..n - 1] == scans[..n][1..];
      LastFoundFront(scans[..n], first);
    }
  }

  lemma LogBehind(g: Geometry, segs: seq<Segment>, stale: Stale, first: nat, scans: seq<SegmentScan>)
    requires segs != [] && LogIs(g, segs, stale, first, scans)
    ensures segs[0].prev == first && HoldsExactly(g, segs[0], stale, first, scans[0])
    ensures LogIs(g, segs[1..], stale, LastOf(scans[0], first), scans[1..])
  {
    assert SegmentIs(g, segs, stale, first, scans, 0);
    forall s {:trigger SegmentIs(g, segs[1..], stale, LastOf(scans[0], first), scans[1..], s)} | 0 <= s < |segs| - 1
      ensures SegmentIs(g, segs[1..], stale, LastOf(scans[0], first), scans[1..], s)
    {
      assert SegmentIs(g, segs, stale, first, scans, s + 1);
      LastFoundFront(scans[..s + 1], first);
      assert scans[..s + 1][1..] == scans[1..][..s];
    }
  }

  lemma LogAhead(g: Geometry, segs: seq<Segment>, stale: Stale, first: nat, scan: SegmentScan, rest: seq<SegmentScan>)
    requires segs != [] && segs[0].prev == first && HoldsExactly(g, segs[0], stale, first, scan)
    requires LogIs(g, segs[1..], stale, LastOf(scan, first), rest)
    ensures LogIs(g, segs, stale, first, [scan] + rest)
  {
    var scans := [scan] + rest;
    forall s {:trigger SegmentIs(g, segs, stale, first, scans, s)} | 0 <= s < |segs| ensures SegmentIs(g, segs, stale, first, scans, s) {
      if s > 0 {
        assert SegmentIs(g, segs[1..], stale, LastOf(scan, first), rest, s - 1);
        LastFoundFront(scans[..s], first);
        assert scans[..s][1..] == rest[..s - 1];
      }
    }
  }

  ghost predicate PassOneIs(g: Geometry, segs: seq<Segment>, stale: Stale, first: nat) {
    var r := ScanSegments(g, segs, stale, first);
    && (r.Ok? ==> LogIs(g, segs, stale, first, r.value.0))
    && (forall x: seq<SegmentScan> {:trigger LogIs(g, segs, stale, first, x)} | LogIs(g, segs, stale, first, x) :: r == Ok((x, LastFound(x, first))))
  }

  lemma LogIsFound(g: Geometry, segs: seq<Segment>, stale: Stale, first: nat, x: seq<SegmentScan>)
    requires segs != [] && LogIs(g, segs, stale, first, x) && ScanSegment(g, segs[0], stale, first) == Ok(x[0])
    requires ScanSegments(g, segs[1..], stale, LastOf(x[0], first)) == Ok((x[1..], LastFound(x[1..], LastOf(x[0], first))))
    ensures ScanSegments(g, segs, stale, first) == Ok((x, LastFound(x, first)))
  {
    LogBehind(g, segs, stale, first, x);
    LastFoundFront(x, first);
    assert [x[0]] + x[1..] == x;
  }

  lemma FoundIsLog(g: Geometry, segs: seq<Segment>, stale: Stale, first: nat)
    requires segs != [] && segs[0].prev == first && ScanSegment(g, segs[0], stale, first).Ok?
    requires HoldsExactly(g, segs[0], stale, first, ScanSegment(g, segs[0], stale, first).value)
    requires PassOneIs(g, segs[1..], stale, LastOf(ScanSegment(g, segs[0], stale, first).value, first))
    ensures var r := ScanSegments(g, segs, stale, first); r.Ok? ==> LogIs(g, segs, stale, first, r.value.0)
  {
    var scan := ScanSegment(g, segs[0], stale, first).value;
    var rest := ScanSegments(g, segs[1..], stale, LastOf(scan, first));
    if rest.Ok? { LogAhead(g, segs, stale, first, scan, rest.value.0); }
  }

  /** Pass 1 over any segments: it returns the log they hold, and refuses exactly when they hold none: when
      a segment cannot be told, or names another batch than the last one found before it. */
  lemma {:induction false} PassOne(g: Geometry, segs: seq<Segment>, stale: Stale, first: nat)
    ensures PassOneIs(g, segs, stale, first)
  {
    if segs == [] {
      assert LogIs(g, segs, stale, first, []);
    } else {
      ScanSegmentIs(g, segs[0], stale, first);
      var scanned := ScanSegment(g, segs[0], stale, first);
      if segs[0].prev == first && scanned.Ok? {
        PassOne(g, segs[1..], stale, LastOf(scanned.value, first));
        FoundIsLog(g, segs, stale, first);
      }
      forall x: seq<SegmentScan> {:trigger LogIs(g, segs, stale, first, x)} | LogIs(g, segs, stale, first, x)
        ensures ScanSegments(g, segs, stale, first) == Ok((x, LastFound(x, first)))
      {
        LogBehind(g, segs, stale, first, x);
        assert scanned == Ok(x[0]);
        LogIsFound(g, segs, stale, first, x);
      }
    }
  }

  /** Segment `s` names another batch than the last one found before it, or loses one itself; `n` is the
      number of the batch that is gone. */
  ghost predicate GoneFrom(g: Geometry, segs: seq<Segment>, stale: Stale, first: nat, scans: seq<SegmentScan>, n: nat) {
    var s := |scans|;
    && s < |segs| && LogIs(g, segs[..s], stale, first, scans)
    && var last := LastFound(scans, first);
    if segs[s].prev != last then n == last + 1
    else exists batches: seq<BatchScan>, to: (nat, nat, nat) ::
           Leads(FindsIn(g, segs[s], stale), 0, g.EntryStart(), last, batches, to) && Loses(g, segs[s], stale, to.0, to.1, to.2, n)
  }

  lemma GoneFurther(g: Geometry, segs: seq<Segment>, stale: Stale, first: nat, scan: SegmentScan, rest: seq<SegmentScan>, n: nat)
    requires segs != [] && segs[0].prev == first && HoldsExactly(g, segs[0], stale, first, scan)
    requires GoneFrom(g, segs[1..], stale, LastOf(scan, first), rest, n)
    ensures GoneFrom(g, segs, stale, first, [scan] + rest, n)
  {
    var scans, s := [scan] + rest, |rest|;
    assert segs[1..][..s] == segs[..s + 1][1..];
    LogAhead(g, segs[..s + 1], stale, first, scan, rest);
    LastFoundFront(scans, first);
    assert scans[1..] == rest && segs[1..][s] == segs[s + 1];
  }

  /** A refusal of pass 1 names the batch that is gone: the one after the last it could tell, or one that
      does not fit its segment. */
  lemma {:induction false} PassOneLoses(g: Geometry, segs: seq<Segment>, stale: Stale, first: nat) returns (scans: seq<SegmentScan>)
    requires ScanSegments(g, segs, stale, first).Err?
    ensures ScanSegments(g, segs, stale, first).error.LostBatch?
    ensures GoneFrom(g, segs, stale, first, scans, ScanSegments(g, segs, stale, first).error.batch)
  {
    var scanned := ScanSegment(g, segs[0], stale, first);
    scans := [];
    assert segs[..0] == [];
    if segs[0].prev == first && scanned.Ok? {
      ScanSegmentIs(g, segs[0], stale, first);
      var rest := PassOneLoses(g, segs[1..], stale, LastOf(scanned.value, first));
      scans := [scanned.value] + rest;
      GoneFurther(g, segs, stale, first, scanned.value, rest, ScanSegments(g, segs, stale, first).error.batch);
    } else if scanned.Err? && segs[0].prev == first {
      var batches, to := ScanSegmentLoses(g, segs[0], stale, first);
    }
  }

  // ---- pass 2 ----

  predicate IsBatch(scans: seq<SegmentScan>, s: nat, k: nat) { s < |scans| && k < |scans[s].batches| }

  /** A batch comes after this one, in its segment or in a later one. */
  predicate Later(scans: seq<SegmentScan>, s: nat, k: nat)
    requires IsBatch(scans, s, k)
  {
    k + 1 < |scans[s].batches| || exists t | s < t < |scans| :: scans[t].batches != []
  }

  /** Both cells of a write are lost, and a batch comes after it. */
  predicate Hole(scans: seq<SegmentScan>, s: nat, k: nat, i: nat) {
    IsBatch(scans, s, k) && i < |scans[s].batches[k].slots| && scans[s].batches[k].slots[i].Lost? && Later(scans, s, k)
  }

  ghost predicate Sound(scans: seq<SegmentScan>) { forall s: nat, k: nat, i: nat :: !Hole(scans, s, k, i) }

  lemma {:induction false} JoinsOk(rs: seq<Result<Verdicts, OpenError>>)
    ensures JoinAll(rs).Ok? <==> forall i | 0 <= i < |rs| :: rs[i].Ok?
  {
    if rs != [] { JoinsOk(rs[..|rs| - 1]); }
  }

  lemma {:induction false} JoinsErr(rs: seq<Result<Verdicts, OpenError>>) returns (n: nat)
    requires JoinAll(rs).Err?
    ensures n < |rs| && JoinAll(rs) == rs[n] && forall i | 0 <= i < n :: rs[i].Ok?
  {
    if JoinAll(rs[..|rs| - 1]).Err? {
      n := JoinsErr(rs[..|rs| - 1]);
    } else {
      n := |rs| - 1;
      JoinsOk(rs[..n]);
      assert forall i | 0 <= i < n :: rs[..n][i] == rs[i];
    }
  }

  lemma LastIsEnd(scans: seq<SegmentScan>, s: nat, k: nat)
    requires IsBatch(scans, s, k)
    ensures IsLastBatch(scans, s, k) <==> !Later(scans, s, k)
  {
  }

  lemma BatchOk(g: Geometry, segs: seq<Segment>, scans: seq<SegmentScan>, s: nat, k: nat)
    requires |segs| == |scans| && IsBatch(scans, s, k)
    ensures var r := BatchVerdicts(g, segs, scans, s)[k];
            && (r.Ok? <==> forall i: nat :: !Hole(scans, s, k, i))
            && (r.Err? ==> exists i: nat :: Hole(scans, s, k, i) && r.error == DoubleFault(scans[s].batches[k].seqno, i) && forall j: nat | j < i :: !Hole(scans, s, k, j))
  {
    var b, isLast := scans[s].batches[k], IsLastBatch(scans, s, k);
    var rs := SlotVerdicts(g, segs[s], b, isLast);
    LastIsEnd(scans, s, k);
    forall i: nat | i < |rs| ensures rs[i].Ok? <==> !Hole(scans, s, k, i) { }
    JoinsOk(rs);
    if JoinAll(rs).Err? {
      var n := JoinsErr(rs);
      assert Hole(scans, s, k, n);
    }
  }

  /** Where the first hole of these segments is. */
  ghost predicate FirstHole(scans: seq<SegmentScan>, s: nat, k: nat, i: nat) {
    Hole(scans, s, k, i) && forall t: nat, l: nat, j: nat | Hole(scans, t, l, j) :: s < t || (s == t && (k < l || (k == l && i <= j)))
  }

  lemma SegmentOk(g: Geometry, segs: seq<Segment>, scans: seq<SegmentScan>, s: nat)
    requires |segs| == |scans| && s < |scans|
    ensures var r := JoinAll(BatchVerdicts(g, segs, scans, s));
            && (r.Ok? <==> forall k: nat, i: nat :: !Hole(scans, s, k, i))
            && (r.Err? ==> exists k: nat, i: nat :: Hole(scans, s, k, i) && r.error == DoubleFault(scans[s].batches[k].seqno, i)
                                                     && forall l: nat, j: nat | Hole(scans, s, l, j) :: k < l || (k == l && i <= j))
  {
    var rs := BatchVerdicts(g, segs, scans, s);
    forall k: nat | k < |rs| ensures rs[k].Ok? <==> forall i: nat :: !Hole(scans, s, k, i) { BatchOk(g, segs, scans, s, k); }
    JoinsOk(rs);
    if JoinAll(rs).Ok? {
      forall k: nat, i: nat ensures !Hole(scans, s, k, i) { if k < |rs| { assert rs[k].Ok?; } }
    } else {
      var n := JoinsErr(rs);
      BatchOk(g, segs, scans, s, n);
      var i: nat :| Hole(scans, s, n, i) && rs[n].error == DoubleFault(scans[s].batches[n].seqno, i) && forall j: nat | j < i :: !Hole(scans, s, n, j);
      forall l: nat, j: nat | l < n ensures !Hole(scans, s, l, j) { assert rs[l].Ok?; }
    }
  }

  /** Pass 2 refuses exactly when a write before the last batch is lost twice, and names the first. */
  lemma PassTwo(g: Geometry, segs: seq<Segment>, scans: seq<SegmentScan>)
    requires |segs| == |scans|
    ensures var r := JoinAll(SegmentVerdicts(g, segs, scans));
            && (r.Ok? <==> Sound(scans))
            && (r.Err? ==> exists s: nat, k: nat, i: nat :: FirstHole(scans, s, k, i) && r.error == DoubleFault(scans[s].batches[k].seqno, i))
  {
    var rs := SegmentVerdicts(g, segs, scans);
    forall s: nat | s < |rs| ensures rs[s].Ok? <==> forall k: nat, i: nat :: !Hole(scans, s, k, i) { SegmentOk(g, segs, scans, s); }
    JoinsOk(rs);
    if JoinAll(rs).Ok? {
      forall s: nat, k: nat, i: nat ensures !Hole(scans, s, k, i) { if s < |rs| { assert rs[s].Ok?; } }
    } else {
      var n := JoinsErr(rs);
      SegmentOk(g, segs, scans, n);
      var k: nat, i: nat :| Hole(scans, n, k, i) && rs[n].error == DoubleFault(scans[n].batches[k].seqno, i)
                            && forall l: nat, j: nat | Hole(scans, n, l, j) :: k < l || (k == l && i <= j);
      forall t: nat, l: nat, j: nat | t < n ensures !Hole(scans, t, l, j) { assert rs[t].Ok?; }
      assert FirstHole(scans, n, k, i);
    }
  }

  // ---- open ----

  function FirstLink(segs: seq<Segment>): nat { if segs == [] then 0 else segs[0].prev }

  /** The segments hold this log, with no write lost before its last batch. */
  ghost predicate Trusts(g: Geometry, segs: seq<Segment>, stale: Stale, scans: seq<SegmentScan>) {
    LogIs(g, segs, stale, FirstLink(segs), scans) && Sound(scans)
  }

  /** The scan of any disk: it succeeds exactly when the segments hold a log with no write lost before its
      last batch, and then it says where that log ends; a log with such a hole is refused by its first one,
      and segments that hold no log as a lost batch. */
  lemma ScanAllIs(g: Geometry, segs: seq<Segment>, stale: Stale)
    ensures var r := ScanAll(g, segs, stale);
            && (forall x: seq<SegmentScan> {:trigger LogIs(g, segs, stale, FirstLink(segs), x)} | LogIs(g, segs, stale, FirstLink(segs), x) ::
                  if Sound(x) then r.Ok? && r.value.lastBatch == LastFound(x, FirstLink(segs)) && CursorsAre(r.value.cursors, x)
                  else exists s: nat, k: nat, i: nat :: FirstHole(x, s, k, i) && r == Err(DoubleFault(x[s].batches[k].seqno, i)))
            && ((forall x: seq<SegmentScan> :: !LogIs(g, segs, stale, FirstLink(segs), x)) ==>
                  r.Err? && r.error.LostBatch? && exists x: seq<SegmentScan> :: GoneFrom(g, segs, stale, FirstLink(segs), x, r.error.batch))
            && (r.Ok? ==> exists x: seq<SegmentScan> :: Trusts(g, segs, stale, x))
  {
    var first := FirstLink(segs);
    PassOne(g, segs, stale, first);
    var pass1 := ScanSegments(g, segs, stale, first);
    if pass1.Ok? {
      PassTwo(g, segs, pass1.value.0);
      assert LogIs(g, segs, stale, first, pass1.value.0);
      assert pass1 == Ok((pass1.value.0, LastFound(pass1.value.0, first)));
      if Sound(pass1.value.0) { assert Trusts(g, segs, stale, pass1.value.0); }
    } else {
      var x := PassOneLoses(g, segs, stale, first);
    }
  }

  predicate CursorsAre(cursors: seq<(nat, nat)>, scans: seq<SegmentScan>) {
    |cursors| == |scans| && forall s {:trigger cursors[s]} | 0 <= s < |scans| :: cursors[s].0 == scans[s].persistNext && cursors[s].1 == scans[s].entryNext
  }

  /** Whether an open goes on after its scan, from any state and on any disk: exactly when the segments hold
      a log without a hole that reaches the batch the metainfo names. */
  lemma OpenGoesOnExactly(g: Geometry, s: Runs.State, s': Runs.State)
    requires Runs.ScanStep(g, s, s')
    ensures var stale, segs := Runs.StaleOf(s.pc.meta), s.disk.segs;
            !s'.pc.Refused? <==> exists x: seq<SegmentScan> :: Trusts(g, segs, stale, x) && LastFound(x, FirstLink(segs)) >= s.pc.meta.lastBatch
    ensures s'.pc.Refused? || s'.pc.WriteBack? || s'.pc.GenerationA?
    ensures var r := ScanAll(g, s.disk.segs, Runs.StaleOf(s.pc.meta));
            if s'.pc.Refused? then s'.pc.error == (if r.Err? then r.error else LostBatch(s.pc.meta.lastBatch)) else r == Ok(s'.pc.scan)
  {
    var stale, segs := Runs.StaleOf(s.pc.meta), s.disk.segs;
    ScanAllIs(g, segs, stale);
    if !s'.pc.Refused? {
      var x: seq<SegmentScan> :| Trusts(g, segs, stale, x);
      assert LogIs(g, segs, stale, FirstLink(segs), x);
    }
    if x: seq<SegmentScan> :| Trusts(g, segs, stale, x) && LastFound(x, FirstLink(segs)) >= s.pc.meta.lastBatch {
      assert LogIs(g, segs, stale, FirstLink(segs), x);
    }
  }

  /** So an open that goes on has found every record that counts, in every segment. */
  lemma OpenLeavesNothing(g: Geometry, s: Runs.State, s': Runs.State, n: nat, j: nat) returns (x: seq<SegmentScan>)
    requires Runs.ScanStep(g, s, s') && !s'.pc.Refused?
    requires n < |s.disk.segs| && Counts(s.disk.segs[n], Runs.StaleOf(s.pc.meta), j)
    ensures Trusts(g, s.disk.segs, Runs.StaleOf(s.pc.meta), x) && n < |x| && Covers(x[n], j) && j < x[n].persistNext
  {
    var stale, segs := Runs.StaleOf(s.pc.meta), s.disk.segs;
    OpenGoesOnExactly(g, s, s');
    x :| Trusts(g, segs, stale, x);
    assert SegmentIs(g, segs, stale, FirstLink(segs), x, n);
    ScanSegmentIs(g, segs[n], stale, segs[n].prev);
    NothingLeftBehind(g, segs[n], stale, segs[n].prev, j);
  }

  // ---- what recovery counts ----

  function Tally(slots: seq<Found>, lost: bool): nat {
    if slots == [] then 0
    else
      var n := |slots| - 1;
      Tally(slots[..n], lost) + if (if lost then slots[n].Lost? else slots[n].Rebuilt?) then 1 else 0
  }

  predicate CountsOne(r: Result<Verdicts, OpenError>, found: Found) {
    r.Ok? ==> r.value.rebuilt == (if found.Rebuilt? then 1 else 0) && r.value.voided == (if found.Lost? then 1 else 0)
  }

  lemma {:induction false} VerdictsTally(rs: seq<Result<Verdicts, OpenError>>, slots: seq<Found>)
    requires |rs| == |slots| && JoinAll(rs).Ok? && forall i | 0 <= i < |rs| :: CountsOne(rs[i], slots[i])
    ensures JoinAll(rs).value.rebuilt == Tally(slots, false) && JoinAll(rs).value.voided == Tally(slots, true)
  {
    if rs != [] { VerdictsTally(rs[..|rs| - 1], slots[..|rs| - 1]); }
  }

  /** A judged batch reports how many of its records were rebuilt and how many writes it lost. */
  lemma BatchTallies(g: Geometry, seg: Segment, s: nat, b: BatchScan, isLast: bool)
    requires JudgeBatch(g, seg, s, b, isLast).Ok?
    ensures var v := JudgeBatch(g, seg, s, b, isLast).value; v.rebuilt == Tally(b.slots, false) && v.voided == Tally(b.slots, true)
  {
    var rs := SlotVerdicts(g, seg, b, isLast);
    forall i | 0 <= i < |rs| ensures CountsOne(rs[i], b.slots[i]) { }
    VerdictsTally(rs, b.slots);
  }
}
