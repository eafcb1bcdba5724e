/** Reads of an open journal: an entry comes back only if it is exactly the one its record names. */
module Reads {
  import opened Format
  import opened Ops
  import opened Recover
  import opened Log
  import opened Verdict
  import opened Writes
  import opened Tail
  import opened Spec
  import opened Runs
  import opened Invariant
  import opened DiskSteps
  import opened MemSteps

  datatype Read = Empty | DamagedEntry(id: nat) | Stored(id: nat, payload: seq<int>)

  /** The record the index stands for. */
  function RecordOf(position: nat, at: Located): Record {
    Record(Kind.Put, at.ordered, at.index, at.count, at.batch, position, at.id, at.offset, at.len, at.crc)
  }

  /** The bytes at the entry's place, judged against its record. */
  function Judge(seg: Segment, position: nat, at: Located): Read {
    if at.offset in seg.entries && EntryMatches(RecordOf(position, at), seg.entries[at.offset])
    then Stored(at.id, seg.entries[at.offset].payload)
    else DamagedEntry(at.id)
  }

  function ReadFrom(segs: seq<Segment>, first: nat, position: nat, at: Located): Read {
    if segs == [] then DamagedEntry(at.id)
    else if segs[0].first == first then Judge(segs[0], position, at)
    else ReadFrom(segs[1..], first, position, at)
  }

  function ReadAt(s: State, position: nat): Read {
    if position !in s.mem.index then Empty
    else
      var at := s.mem.index[position];
      if at.damaged then DamagedEntry(at.id) else ReadFrom(s.disk.segs, at.segment, position, at)
  }

  /** What a caller may read at a position: its cell; the bytes of a soft one may be damaged. */
  predicate ReadFits(r: Read, contents: map<nat, Cell>, position: nat) {
    if position !in contents then r == Empty
    else
      var c := contents[position];
      r == Stored(c.id, c.payload) || (c.soft && r == DamagedEntry(c.id))
  }

  // ---- where an item comes from ----

  /** Item `item` at `position` is write `i` of batch `b` of a segment. */
  predicate ComesFrom(item: Item, position: nat, first: nat, b: Placed, i: nat) {
    WellFormed(b) && i < |b.entries| && OpAt(first, b, i) == [Op.Put(position, item)]
  }

  lemma Origin(segs: seq<Segment>, log: seq<seq<Placed>>, position: nat) returns (s: nat, k: nat, i: nat)
    requires |segs| == |log| && position in Fold(map[], LogOps(segs, log))
    ensures s < |segs| && k < |log[s]|
    ensures ComesFrom(Fold(map[], LogOps(segs, log))[position], position, segs[s].first, log[s][k], i)
  {
    var ops := LogOps(segs, log);
    FoldOrigin(ops, position);
    var op := Op.Put(position, Fold(map[], ops)[position]);
    s := ConcatMember(seq(|segs|, s requires 0 <= s < |segs| => SegmentOps(segs[s].first, log[s])), op);
    k, i := SegmentOrigin(segs[s].first, log[s], op);
  }

  lemma SegmentOrigin(first: nat, bs: seq<Placed>, op: Op<Item>) returns (k: nat, i: nat)
    requires op in SegmentOps(first, bs) && op.Put?
    ensures k < |bs| && ComesFrom(op.value, op.position, first, bs[k], i)
  {
    k := ConcatMember(seq(|bs|, k requires 0 <= k < |bs| => if WellFormed(bs[k]) then BatchOps(first, bs[k]) else []), op);
    var b := bs[k];
    i := ConcatMember(seq(|b.entries|, i requires 0 <= i < |b.entries| => OpAt(first, b, i)), op);
  }

  /** A durable write reads back; of a soft one, damage may be all that is left. */
  lemma JudgeIsRight(g: Geometry, seg: Segment, b: Placed, i: nat, position: nat, item: Item)
    requires Coherent(g, seg, b) && Solid(seg, b) && ComesFrom(item, position, seg.first, b, i)
    ensures var r := Judge(seg, position, item.at);
            r == Stored(item.cell.id, item.cell.payload) || (item.cell.soft && r == DamagedEntry(item.cell.id))
  {
    assert Evident(seg, b, i);
    assert b.firm ==> EntryOk(seg, b, i);
    var o := Off(b, i);
    if o in seg.entries && seg.entries[o].batch == b.seqno {
      assert OwnEntry(b, o, seg.entries[o]);
    }
  }

  lemma {:induction false} ReadFromIs(segs: seq<Segment>, s: nat, position: nat, at: Located)
    requires s < |segs| && forall i, j {:trigger segs[i], segs[j]} | 0 <= i < j < |segs| :: segs[i].first < segs[j].first
    ensures ReadFrom(segs, segs[s].first, position, at) == Judge(segs[s], position, at)
  {
    if s > 0 {
      forall i, j {:trigger segs[1..][i], segs[1..][j]} | 0 <= i < j < |segs[1..]| ensures segs[1..][i].first < segs[1..][j].first {
        assert segs[i + 1].first < segs[j + 1].first;
      }
      ReadFromIs(segs[1..], s - 1, position, at);
    }
  }

  lemma SolidHere(g: Geometry, segs: seq<Segment>, log: seq<seq<Placed>>, s: nat, k: nat)
    requires Chained(Held(g), segs, log, None) && s < |segs| && k < |log[s]|
    ensures Coherent(g, segs[s], log[s][k]) && Solid(segs[s], log[s][k])
  {
    assert Held(g)(segs[s], log[s], TailAt(|segs|, s, None));
    assert WithTail(log[s], None)[k] == log[s][k];
    assert Solid(segs[s], log[s][k]) && Coherent(g, segs[s], WithTail(log[s], None)[k]);
  }

  lemma ItemReads(g: Geometry, segs: seq<Segment>, log: seq<seq<Placed>>, position: nat, item: Item)
    requires Chained(Held(g), segs, log, None)
    requires position in Fold(map[], LogOps(segs, log)) && item == Fold(map[], LogOps(segs, log))[position]
    ensures var r := ReadFrom(segs, item.at.segment, position, item.at);
            r == Stored(item.cell.id, item.cell.payload) || (item.cell.soft && r == DamagedEntry(item.cell.id))
    ensures item.at.id == item.cell.id && exists s {:trigger segs[s]} | 0 <= s < |segs| :: segs[s].first == item.at.segment
  {
    var s, k, i := Origin(segs, log, position);
    SolidHere(g, segs, log, s, k);
    JudgeIsRight(g, segs[s], log[s][k], i, position, item);
    ReadFromIs(segs, s, position, item.at);
  }

  /** What the index holds is what the log holds, cell by cell. */
  lemma IndexIsContents(s: State, w: Witness, position: nat)
    requires |s.disk.segs| == |w.log| && Matches(s.disk.segs, w)
    requires Reflects(s.mem.index, Above(Fold(map[], LogOps(s.disk.segs, w.log)), w.abs.floor))
    ensures position in s.mem.index <==> position in Contents(w.abs)
    ensures position in s.mem.index ==>
              var items := Fold(map[], LogOps(s.disk.segs, w.log));
              && position in items && Contents(w.abs)[position] == items[position].cell
              && Undamaged(s.mem.index[position]) == items[position].at
              && (s.mem.index[position].damaged ==> items[position].cell.soft)
  {
    var items := Above(Fold(map[], LogOps(s.disk.segs, w.log)), w.abs.floor);
    FoldMapAbove(CellOfItem, LogOps(s.disk.segs, w.log), w.abs.floor);
    assert Contents(w.abs) == MapIndex(CellOfItem, items);
    assert position in s.mem.index.Keys <==> position in items.Keys;
  }

  /** Every read of an open journal returns what the abstract state holds. */
  lemma ReadIsRight(g: Geometry, s: State, w: Witness, position: nat)
    requires Inv(g, s, w) && s.pc == Ready
    ensures ReadFits(ReadAt(s, position), Contents(w.abs), position)
    ensures position in s.mem.index ==> s.mem.index[position].segment in Firsts(s.disk)
  {
    IndexIsContents(s, w, position);
    if position in s.mem.index {
      var at := s.mem.index[position];
      var item := Fold(map[], LogOps(s.disk.segs, w.log))[position];
      ItemReads(g, s.disk.segs, w.log, position, item);
      assert !at.damaged ==> at == item.at;
    }
  }
}
