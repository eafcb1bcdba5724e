/** The journal a run leaves open, on a medium that then loses cells. */
module Media {
  import opened Format
  import opened Recover
  import opened Log
  import opened Verdict
  import opened Tail
  import opened Runs
  import opened Invariant
  import opened Refinement
  import opened Guarantees
  import opened Refusals
  import opened Faults

  predicate NoneDiscarded(log: seq<seq<Placed>>) { forall s {:trigger log[s]} | 0 <= s < |log| :: AllWritten(log[s]) }

  lemma ChainIsCommitted(g: Geometry, segs: seq<Segment>, log: seq<seq<Placed>>)
    requires Chained(Held(g), segs, log, None) && NoneDiscarded(log)
    ensures Committed(g, segs, log)
  {
    forall s {:trigger log[s]} | 0 <= s < |segs| ensures Holds(g, segs[s], log[s]) && AllWritten(log[s]) {
      assert TailAt(|segs|, s, None) == None && Held(g)(segs[s], log[s], TailAt(|segs|, s, None));
      assert WithTail(log[s], None) == log[s];
    }
    forall s {:trigger segs[s]} | 0 < s < |segs| ensures segs[s].prev == LastSeqno(log[s - 1], segs[s - 1].prev) {
      assert segs[s].prev == LastBefore(segs, log, s);
    }
  }

  lemma ReadyIsCommitted(g: Geometry, s: State, w: Witness)
    requires Inv(g, s, w) && s.pc.Ready? && NoneDiscarded(w.log)
    ensures Committed(g, s.disk.segs, w.log) && s.mem.lastBatch == LastBefore(s.disk.segs, w.log, |s.disk.segs|)
  {
    assert w.tail == None;
    ChainIsCommitted(g, s.disk.segs, w.log);
  }

  /** After any run that leaves the journal open with no write discarded, whatever cells its medium loses:
      the next scan refuses, or finds the log's own batches from the first on, each write as it was written;
      and every batch, if it reaches the last one. */
  lemma RunNeverLies(g: Geometry, run: seq<State>, hurt: seq<Segment>) returns (w: Witness, scans: seq<SegmentScan>)
    requires g.Valid() && Run(g, run) && run[|run| - 1].pc.Ready? && AllHurt(run[|run| - 1].disk.segs, hurt)
    ensures Inv(g, run[|run| - 1], w)
    ensures NoneDiscarded(w.log) && ScanAll(g, hurt, StaleOf(run[|run| - 1].mem.meta)).Ok? ==>
              && Trusts(g, hurt, StaleOf(run[|run| - 1].mem.meta), scans) && TrueLog(scans, w.log)
              && (ScanAll(g, hurt, StaleOf(run[|run| - 1].mem.meta)).value.lastBatch >= run[|run| - 1].mem.lastBatch ==> AllFound(scans, w.log))
  {
    var s := run[|run| - 1];
    w := WitnessOf(g, run);
    scans := [];
    if NoneDiscarded(w.log) && ScanAll(g, hurt, StaleOf(s.mem.meta)).Ok? {
      ReadyIsCommitted(g, s, w);
      scans := HurtIsTrue(g, s.disk.segs, hurt, StaleOf(s.mem.meta), w.log);
    }
  }

  predicate AllFound(scans: seq<SegmentScan>, log: seq<seq<Placed>>) {
    |scans| == |log| && forall s {:trigger scans[s]} | 0 <= s < |log| :: |scans[s].batches| == |log[s]|
  }

  lemma HurtIsTrue(g: Geometry, segs: seq<Segment>, hurt: seq<Segment>, stale: Stale, log: seq<seq<Placed>>) returns (scans: seq<SegmentScan>)
    requires Committed(g, segs, log) && AllHurt(segs, hurt) && ScanAll(g, hurt, stale).Ok?
    ensures Trusts(g, hurt, stale, scans) && TrueLog(scans, log)
    ensures ScanAll(g, hurt, stale).value.lastBatch >= LastBefore(segs, log, |segs|) ==> AllFound(scans, log)
  {
    scans := DamageNeverLies(g, segs, hurt, stale, log);
    if segs != [] && ScanAll(g, hurt, stale).value.lastBatch >= LastBefore(segs, log, |segs|) {
      scans := NothingLost(g, segs, hurt, stale, log);
    }
  }
}
