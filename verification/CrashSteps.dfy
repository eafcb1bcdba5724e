/** A crash at any point leaves a disk that still stands for the same abstract state. */
module CrashSteps {
  import opened Format
  import opened Ops
  import opened Recover
  import opened Log
  import opened Verdict
  import opened Writes
  import opened Tail
  import opened Spec
  import opened Runs
  import opened Invariant
  import opened DiskSteps
  import opened MemSteps
  import opened Begin
  import opened RollSteps
  import opened PutSteps
  import opened CommitSteps

  // ---- the batch's own writes ----

  lemma EntriesTorn(g: Geometry, seg: Segment, bs: seq<Placed>, t: Placed, torn: Segment)
    requires SegInv(g, seg, bs, Some(t)) && AllLive(t) && (t.firm ==> NoRecords(seg, t)) && TornEntries(seg, t, torn)
    ensures Held(g)(torn, bs, Some(t)) && CellsFrom(seg, torn, t.seqno)
  {
    EntriesKeep(g, seg, bs, t, torn);
    TornEntriesCells(seg, t, torn);
  }

  lemma RecordsTorn(g: Geometry, seg: Segment, bs: seq<Placed>, t: Placed, torn: Segment)
    requires SegInv(g, seg, bs, Some(t)) && PrefixOk(seg, t)
    requires t.at + Span(|t.entries|) <= |seg.slots| && TornRecords(seg, t, torn)
    ensures Held(g)(torn, bs, Some(t)) && CellsFrom(seg, torn, t.seqno)
  {
    RecordsKeep(g, seg, bs, t, torn);
    TornRecordsCells(seg, t, torn);
  }

  lemma BothTorn(g: Geometry, seg: Segment, bs: seq<Placed>, t: Placed, mid: Segment, torn: Segment)
    requires SegInv(g, seg, bs, Some(t)) && AllLive(t) && !t.firm && TornEntries(seg, t, mid)
    requires |mid.slots| == |seg.slots| && t.at + Span(|t.entries|) <= |seg.slots| && TornRecords(mid, t, torn)
    ensures Held(g)(torn, bs, Some(t)) && CellsFrom(seg, torn, t.seqno)
  {
    EntriesTorn(g, seg, bs, t, mid);
    RecordsTorn(g, mid, bs, t, torn);
    CellsFromBoth(seg, mid, torn, t.seqno);
  }

  /** The segment in flight, as a crash may leave it. */
  lemma SegmentTorn(g: Geometry, d: Disk, w: Witness, d': Disk, entries: bool, records: bool) returns (torn: Segment)
    requires Chained(Held(g), d.segs, w.log, w.tail) && w.tail.Some? && TailInside(d, w.tail) && AllLive(w.tail.value)
    requires w.tail.value.at + Span(|w.tail.value.entries|) <= |LastSegment(d).slots|
    requires CrashedSegment(d, d', w.tail.value, entries, records) && (entries || records)
    requires w.tail.value.firm ==> !(entries && records)
    requires w.tail.value.firm && entries ==> NoRecords(LastSegment(d), w.tail.value)
    requires records && !entries ==> w.tail.value.firm && AllEntries(LastSegment(d), w.tail.value)
    ensures Held(g)(torn, w.log[|w.log| - 1], w.tail) && CellsFrom(LastSegment(d), torn, w.tail.value.seqno)
    ensures d' == PutSegment(d, Active(d), torn)
  {
    var seg, bs, t := LastSegment(d), w.log[|w.log| - 1], w.tail.value;
    ActiveInv(g, d, w);
    var mid, end :| CrashedThrough(d, d', t, entries, records, mid, end);
    torn := end;
    if !records {
      EntriesTorn(g, seg, bs, t, torn);
    } else if !entries {
      AllEntriesPrefix(seg, t);
      RecordsTorn(g, seg, bs, t, torn);
    } else {
      BothTorn(g, seg, bs, t, mid, torn);
    }
  }

  lemma PutTorn(inv: SegmentInv, g: Geometry, s: State, w: Witness, c: Commit, torn: Segment)
    requires g.Valid() && DiskInvOf(inv, g, s.disk, w) && InCommit(g, s, w, c)
    requires CellsFrom(LastSegment(s.disk), torn, w.tail.value.seqno) && inv(torn, w.log[|w.log| - 1], w.tail)
    ensures DiskInvOf(inv, g, PutSegment(s.disk, Active(s.disk), torn), w)
  {
    Wrote(inv, g, s, w, c, torn, w.tail.value, Down);
  }

  lemma CrashPuts(g: Geometry, s: State, w: Witness, d: Disk)
    requires Inv(g, s, w) && (s.pc.PutEntries? || s.pc.PutRecords? || s.pc.PutBoth?) && CrashLeaves(s, d) && d != s.disk
    ensures DiskInvOf(Held(g), g, d, w)
  {
    var torn := SegmentTorn(g, s.disk, w, d, !s.pc.PutRecords?, !s.pc.PutEntries?);
    PutTorn(Held(g), g, s, w, s.pc.c, torn);
  }

  // ---- the metainfo copies ----

  lemma CrashMetas(inv: SegmentInv, g: Geometry, s: State, w: Witness, d: Disk)
    requires InvOf(inv, g, s, w) && (s.pc.MetaA? || s.pc.MetaB? || s.pc.RepairMeta?) && CrashLeaves(s, d) && d != s.disk
    ensures DiskInvOf(inv, g, d, w)
  {
    match s.pc
    case MetaA(c) =>
      CommitMetaOk(c.meta.value, s, w);
      TornCopyKeeps(inv, g, s.disk, w, A, c.meta.value, d);
    case MetaB(c) => TornCopyKeeps(inv, g, s.disk, w, B, c.meta.value, d);
    case RepairMeta(m, which) => TornCopyKeeps(inv, g, s.disk, w, which, m, d);
  }

  // ---- segments and spares ----

  lemma CrashRoll(inv: SegmentInv, g: Geometry, s: State, w: Witness, d: Disk)
    requires InvOf(inv, g, s, w) && s.pc.Roll? && CrashLeaves(s, d) && d != s.disk
    ensures DiskInvOf(inv, g, d, w)
  {
    HeadersFrom(s.disk, d);
    SparesChange(inv, g, s.disk, w, d);
  }

  lemma AliasFrom(d: Disk, d': Disk, first: nat)
    requires d'.spares == [] || d'.spares == [Alias(first)]
    requires first in Firsts(d')
    ensures SparesFrom(d, d')
  {
  }

  lemma CrashRename(g: Geometry, s: State, w: Witness, d: Disk)
    requires Inv(g, s, w) && s.pc.RollRename? && CrashLeaves(s, d) && d != s.disk
    ensures DiskInvOf(Held(g), g, d, w.(log := w.log + [[]]))
  {
    AdoptedIs(g, s, w);
    assert d.segs[|s.disk.segs|].first == s.pc.plan.seqno;
    AliasFrom(s.disk, d, s.pc.plan.seqno);
    RolledDisk(Held(g), g, s, w, s.pc.plan, Adopted(s), d);
  }

  lemma CrashSweep(inv: SegmentInv, g: Geometry, s: State, w: Witness, d: Disk) returns (w': Witness)
    requires InvOf(inv, g, s, w) && s.pc.Sweep? && CrashLeaves(s, d) && d != s.disk
    requires s.disk.segs != [] ==> |s.disk.segs[0].slots| == g.Slots()
    ensures DiskInvOf(inv, g, d, w') && w'.abs == w.abs
  {
    if d == FrontRemoved(s.disk) {
      DeadIsUnused(s.mem, s.disk.segs, w.log, w.abs.floor);
      FrontDrops(inv, g, s.disk, w);
      w' := w.(log := w.log[1..]);
    } else {
      assert s.disk.segs[0].first in Firsts(d);
      AliasFrom(s.disk, d, s.disk.segs[0].first);
      SparesChange(inv, g, s.disk, w, d);
      w' := w;
    }
  }

  /** Spares that were there before. */
  lemma FewerSpares(inv: SegmentInv, g: Geometry, d: Disk, w: Witness, d': Disk)
    requires DiskInvOf(inv, g, d, w) && d' == d.(spares := d'.spares) && forall x | x in d'.spares :: x in d.spares
    ensures DiskInvOf(inv, g, d', w)
  {
    forall s | 0 <= s < |d'.spares|
      ensures match d'.spares[s] {
                case Own(_, _, slots, entries) =>
                  exists t | 0 <= t < |d.spares| :: d.spares[t].Own? && d.spares[t].slots == slots && d.spares[t].entries == entries
                case Alias(first) => first in Firsts(d')
              }
    {
      assert d'.spares[s] in d'.spares;
      var t :| 0 <= t < |d.spares| && d.spares[t] == d'.spares[s];
      assert d.spares[t] == d'.spares[s];
    }
    SparesChange(inv, g, d, w, d');
  }

  lemma CrashPick(inv: SegmentInv, g: Geometry, s: State, w: Witness, d: Disk)
    requires InvOf(inv, g, s, w) && s.pc.PickSpare? && CrashLeaves(s, d)
    ensures DiskInvOf(inv, g, d, w)
  {
    FewerSpares(inv, g, s.disk, w, d);
  }
}
