/** The batch in flight is written to the active segment, whole or torn by a crash. */
module PutSteps {
  import opened Format
  import opened Ops
  import opened Recover
  import opened Log
  import opened Verdict
  import opened Writes
  import opened Tail
  import opened Spec
  import opened Runs
  import opened Invariant
  import opened DiskSteps
  import opened MemSteps
  import opened Begin

  // ---- the cells a write touches ----

  lemma TornEntriesCells(seg: Segment, t: Placed, torn: Segment)
    requires TornEntries(seg, t, torn) && WellFormed(t)
    ensures CellsFrom(seg, torn, t.seqno)
  {
  }

  lemma TornRecordsCells(seg: Segment, t: Placed, torn: Segment)
    requires WellFormed(t) && t.at + Span(|t.entries|) <= |seg.slots| && TornRecords(seg, t, torn)
    ensures CellsFrom(seg, torn, t.seqno)
  {
    forall j | 0 <= j < |torn.slots| && torn.slots[j].Valid? && torn.slots[j] != seg.slots[j]
      ensures torn.slots[j].record.batch == t.seqno
    {
      var i := j - t.at;
      assert torn.slots[j] == RecordBlocks(t)[i];
      assert torn.slots[j] == Valid(Rec(t, i));
    }
  }

  lemma CellsFromBoth(seg: Segment, mid: Segment, end: Segment, n: nat)
    requires CellsFrom(seg, mid, n) && CellsFrom(mid, end, n)
    ensures CellsFrom(seg, end, n)
  {
  }

  /** A firm batch whose every write is live has all of it or none of it to prove. */
  lemma AllEntriesPrefix(seg: Segment, t: Placed)
    requires WellFormed(t) && AllLive(t) && AllEntries(seg, t)
    requires forall i | 0 <= i < |t.entries| :: t.entries[i].ordered ==> t.firm
    ensures PrefixOk(seg, t)
  {
    forall i | 0 <= i < |t.entries| ensures Reaches(seg, t, i) {
      forall k | 0 <= k <= i ensures t.live[k] && EntryOk(seg, t, k) {
      }
    }
  }

  lemma WrittenEvident(g: Geometry, seg: Segment, t: Placed)
    requires WellFormed(t) && t.at + Span(|t.entries|) <= |seg.slots| && t.seqno >= seg.first
    ensures AllEvident(WriteRecords(seg, t), t)
  {
    WriteRecordsIsTorn(seg, t);
    forall i | 0 <= i < |t.entries| ensures Evident(WriteRecords(seg, t), t, i) {
      assert WriteRecords(seg, t).slots[t.at + i] == Valid(Rec(t, i));
    }
  }

  // ---- memory ----

  lemma MemWrites(g: Geometry, s: State, w: Witness, seg: Segment, t': Placed, pc': Pc)
    requires MemInv(g, s, w) && w.tail.Some? && s.disk.segs != [] && t'.seqno == w.tail.value.seqno
    requires CellsFrom(LastSegment(s.disk), seg, t'.seqno)
    ensures MemInv(g, State(PutSegment(s.disk, Active(s.disk), seg), pc', s.mem), w.(tail := Some(t')))
  {
    SameHeadersSameOps(s.disk.segs, s.disk.segs[Active(s.disk) := seg], w.log);
    NumberedPut(s.disk, seg, t'.seqno, s.mem.meta.generation, t'.seqno);
  }

  predicate InCommit(g: Geometry, s: State, w: Witness, c: Commit) {
    BothCopies(s.disk, s.mem.meta) && MemInv(g, s, w) && Writing(c, s, w)
  }

  /** What a write leaves: the disk's invariant, and memory's. */
  lemma Wrote(inv: SegmentInv, g: Geometry, s: State, w: Witness, c: Commit, seg: Segment, t': Placed, pc': Pc)
    requires g.Valid() && DiskInvOf(inv, g, s.disk, w) && InCommit(g, s, w, c)
    requires CellsFrom(LastSegment(s.disk), seg, t'.seqno) && t' == w.tail.value.(firm := t'.firm) && inv(seg, w.log[|w.log| - 1], Some(t'))
    requires w.tail.value.firm ==> t'.firm
    ensures var s', w' := State(PutSegment(s.disk, Active(s.disk), seg), pc', s.mem), w.(tail := Some(t'));
            && DiskInvOf(inv, g, s'.disk, w') && BothCopies(s'.disk, s'.mem.meta) && MemInv(g, s', w')
            && LastSegment(s'.disk) == seg
  {
    assert Unvouched(s.disk, w);
    assert Pending(w.abs, Some(t'));
    TailWriteKeeps(inv, g, s.disk, w, seg, t');
    MemWrites(g, s, w, seg, t', pc');
  }

  // ---- ordered: the entries, then the records ----

  lemma EntriesDone(g: Geometry, seg: Segment, bs: seq<Placed>, t: Placed)
    requires SegInv(g, seg, bs, Some(t)) && AllLive(t) && (t.firm ==> NoRecords(seg, t))
    ensures var now := WriteEntries(seg, t);
            Held(g)(now, bs, Some(t)) && AllEntries(now, t) && CellsFrom(seg, now, t.seqno)
  {
    WriteEntriesIsTorn(seg, t);
    EntriesKeep(g, seg, bs, t, WriteEntries(seg, t));
    TornEntriesCells(seg, t, WriteEntries(seg, t));
  }

  lemma EntriesAt(g: Geometry, d: Disk, w: Witness)
    requires Chained(Held(g), d.segs, w.log, w.tail) && w.tail.Some? && TailInside(d, w.tail) && AllLive(w.tail.value)
    requires NoRecords(LastSegment(d), w.tail.value)
    ensures var now := WriteEntries(LastSegment(d), w.tail.value);
            && Held(g)(now, w.log[|w.log| - 1], w.tail) && AllEntries(now, w.tail.value)
            && CellsFrom(LastSegment(d), now, w.tail.value.seqno)
  {
    ActiveInv(g, d, w);
    EntriesDone(g, LastSegment(d), w.log[|w.log| - 1], w.tail.value);
  }

  lemma WroteEntries(inv: SegmentInv, g: Geometry, s: State, w: Witness, c: Commit, seg: Segment)
    requires g.Valid() && DiskInvOf(inv, g, s.disk, w) && InCommit(g, s, w, c) && w.tail.value.firm
    requires CellsFrom(LastSegment(s.disk), seg, w.tail.value.seqno) && inv(seg, w.log[|w.log| - 1], w.tail)
    requires AllEntries(seg, w.tail.value)
    ensures InvOf(inv, g, State(PutSegment(s.disk, Active(s.disk), seg), PutRecords(c), s.mem), w)
  {
    Wrote(inv, g, s, w, c, seg, w.tail.value, PutRecords(c));
  }

  lemma EntriesOf(inv: SegmentInv, g: Geometry, s: State, w: Witness, s': State, seg: Segment)
    requires InvOf(inv, g, s, w) && s.pc.PutEntries?
    requires s' == State(PutSegment(s.disk, Active(s.disk), seg), PutRecords(s.pc.c), s.mem)
    requires CellsFrom(LastSegment(s.disk), seg, w.tail.value.seqno) && inv(seg, w.log[|w.log| - 1], w.tail)
    requires AllEntries(seg, w.tail.value)
    ensures InvOf(inv, g, s', w)
  {
    WroteEntries(inv, g, s, w, s.pc.c, seg);
  }

  lemma Entries(g: Geometry, s: State, w: Witness, s': State)
    requires Inv(g, s, w) && EntriesStep(s, s')
    ensures Inv(g, s', w)
  {
    EntriesAt(g, s.disk, w);
    EntriesOf(Held(g), g, s, w, s', WriteEntries(LastSegment(s.disk), w.tail.value));
  }

  lemma RecordsDone(g: Geometry, seg: Segment, bs: seq<Placed>, t: Placed)
    requires SegInv(g, seg, bs, Some(t)) && PrefixOk(seg, t)
    requires t.at + Span(|t.entries|) <= |seg.slots|
    ensures var now := WriteRecords(seg, t);
            && Held(g)(now, bs, Some(t)) && AllEvident(now, t) && CellsFrom(seg, now, t.seqno)
            && now.entries == seg.entries && PrefixOk(now, t)
  {
    WriteRecordsIsTorn(seg, t);
    RecordsKeep(g, seg, bs, t, WriteRecords(seg, t));
    TornRecordsCells(seg, t, WriteRecords(seg, t));
    WrittenEvident(g, seg, t);
  }

  lemma SameEntries(seg: Segment, now: Segment, t: Placed)
    requires AllEntries(seg, t) && now.entries == seg.entries
    ensures AllEntries(now, t)
  {
    forall i | 0 <= i < |t.entries| ensures EntryOk(now, t, i) {
      assert EntryOk(seg, t, i);
    }
  }

  /** Every write of the batch is durable. */
  lemma WroteBatch(inv: SegmentInv, g: Geometry, s: State, w: Witness, c: Commit, seg: Segment, t': Placed)
    requires g.Valid() && DiskInvOf(inv, g, s.disk, w) && InCommit(g, s, w, c)
    requires t' == w.tail.value.(firm := true) && inv(seg, w.log[|w.log| - 1], Some(t'))
    requires CellsFrom(LastSegment(s.disk), seg, t'.seqno) && AllEvident(seg, t') && AllEntries(seg, t')
    ensures InvOf(inv, g, State(PutSegment(s.disk, Active(s.disk), seg), MetaA(c.(batch := Some(t'))), s.mem), w.(tail := Some(t')))
  {
    Wrote(inv, g, s, w, c, seg, t', MetaA(c.(batch := Some(t'))));
  }

  lemma RecordsOf(inv: SegmentInv, g: Geometry, s: State, w: Witness, s': State, seg: Segment)
    requires InvOf(inv, g, s, w) && s.pc.PutRecords?
    requires s' == State(PutSegment(s.disk, Active(s.disk), seg), MetaA(s.pc.c), s.mem)
    requires CellsFrom(LastSegment(s.disk), seg, w.tail.value.seqno) && inv(seg, w.log[|w.log| - 1], w.tail)
    requires AllEvident(seg, w.tail.value) && AllEntries(seg, w.tail.value)
    ensures InvOf(inv, g, s', w)
  {
    assert w.tail.value == w.tail.value.(firm := true) && s.pc.c == s.pc.c.(batch := w.tail);
    WroteBatch(inv, g, s, w, s.pc.c, seg, w.tail.value);
  }

  lemma Records(g: Geometry, s: State, w: Witness, s': State)
    requires Inv(g, s, w) && RecordsStep(s, s')
    ensures Inv(g, s', w)
  {
    var seg, t := LastSegment(s.disk), w.tail.value;
    ActiveInv(g, s.disk, w);
    AllEntriesPrefix(seg, t);
    RecordsDone(g, seg, w.log[|w.log| - 1], t);
    SameEntries(seg, WriteRecords(seg, t), t);
    RecordsOf(Held(g), g, s, w, s', WriteRecords(seg, t));
  }

  // ---- batched: both at once ----

  lemma BothDone(g: Geometry, seg: Segment, bs: seq<Placed>, t: Placed)
    requires SegInv(g, seg, bs, Some(t)) && AllLive(t) && !t.firm && t.at + Span(|t.entries|) <= |seg.slots|
    ensures var now, u := WriteRecords(WriteEntries(seg, t), t), t.(firm := true);
            && Held(g)(now, bs, Some(u)) && AllEvident(now, u) && AllEntries(now, u) && CellsFrom(seg, now, t.seqno)
  {
    EntriesDone(g, seg, bs, t);
    var mid := WriteEntries(seg, t);
    AllEntriesPrefix(mid, t);
    RecordsDone(g, mid, bs, t);
    var now := WriteRecords(mid, t);
    SameEntries(mid, now, t);
    CellsFromBoth(seg, mid, now, t.seqno);
    MadeFirm(g, now, bs, t);
  }

  lemma BothOf(inv: SegmentInv, g: Geometry, s: State, w: Witness, s': State, seg: Segment, u: Placed)
    requires InvOf(inv, g, s, w) && s.pc.PutBoth? && u == w.tail.value.(firm := true)
    requires s' == State(PutSegment(s.disk, Active(s.disk), seg), MetaA(s.pc.c.(batch := Some(u))), s.mem)
    requires CellsFrom(LastSegment(s.disk), seg, u.seqno) && inv(seg, w.log[|w.log| - 1], Some(u))
    requires AllEvident(seg, u) && AllEntries(seg, u)
    ensures InvOf(inv, g, s', w.(tail := Some(u)))
  {
    WroteBatch(inv, g, s, w, s.pc.c, seg, u);
  }

  lemma Both(g: Geometry, s: State, w: Witness, s': State) returns (w': Witness)
    requires Inv(g, s, w) && BothStep(s, s')
    ensures Inv(g, s', w') && w'.abs == w.abs && w'.log == w.log
  {
    var seg, t := LastSegment(s.disk), w.tail.value;
    ActiveInv(g, s.disk, w);
    BothDone(g, seg, w.log[|w.log| - 1], t);
    BothOf(Held(g), g, s, w, s', WriteRecords(WriteEntries(seg, t), t), t.(firm := true));
    w' := w.(tail := Some(t.(firm := true)));
  }
}
