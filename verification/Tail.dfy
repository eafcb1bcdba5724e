/** A segment whose batches are durable, with at most one batch in flight after them. */
module Tail {
  import opened Format
  import opened Ops
  import opened Recover
  import opened Log
  import opened Verdict
  import opened Writes

  /** Every record of the batch is on disk. */
  predicate Solid(seg: Segment, b: Placed)
    requires WellFormed(b) && b.at + |b.entries| <= |seg.slots|
  {
    AllEvident(seg, b) && Firm(seg, b)
  }

  /** Up to its last live write, a firm batch is live and intact. */
  predicate Reaches(seg: Segment, b: Placed, i: nat)
    requires i < |b.entries| == |b.live|
  {
    forall k | 0 <= k <= i :: b.live[k] && EntryOk(seg, b, k)
  }

  predicate PrefixOk(seg: Segment, b: Placed)
    requires WellFormed(b)
  {
    && (forall i | 0 <= i < |b.entries| :: b.entries[i].ordered ==> b.firm)
    && (b.firm ==> forall i | 0 <= i < |b.entries| :: b.live[i] ==> Reaches(seg, b, i))
  }

  /** In flight, an evident record of a firm batch proves every entry up to its own. */
  predicate TailOk(seg: Segment, b: Placed)
    requires WellFormed(b) && b.at + |b.entries| <= |seg.slots|
  {
    && (forall i | 0 <= i < |b.entries| :: b.entries[i].ordered ==> b.firm)
    && (b.firm ==> forall i | 0 <= i < |b.entries| :: b.live[i] && Evident(seg, b, i) ==> Reaches(seg, b, i))
  }

  function WithTail(bs: seq<Placed>, tail: Option<Placed>): seq<Placed> {
    if tail.Some? then bs + [tail.value] else bs
  }

  predicate SegInv(g: Geometry, seg: Segment, bs: seq<Placed>, tail: Option<Placed>) {
    && Holds(g, seg, WithTail(bs, tail)) && Inside(seg, bs)
    && (forall k {:trigger Solid(seg, bs[k])} | 0 <= k < |bs| :: Solid(seg, bs[k]))
    && (tail.Some? ==> Coherent(g, seg, tail.value) && TailOk(seg, tail.value))
  }

  lemma FirmWithin(seg: Segment, b: Placed)
    requires WellFormed(b) && b.at + |b.entries| <= |seg.slots|
    requires PrefixOk(seg, b) || TailOk(seg, b)
    ensures PrefixOk(seg, b) ==> TailOk(seg, b)
    ensures Firm(seg, b)
  {
    forall i | 0 <= i < |b.entries| && b.firm && b.live[i] && Evident(seg, b, i) ensures EntryOk(seg, b, i) {
      assert Reaches(seg, b, i);
    }
  }

  /** What recovery keeps of a firm batch is a prefix of it, intact. */
  lemma {:induction false} KeptReaches(seg: Segment, t: Placed, i: nat)
    requires WellFormed(t) && t.at + |t.entries| <= |seg.slots| && TailOk(seg, t) && t.firm
    requires i < |t.entries| && Survives(seg, t, i)
    ensures forall k | 0 <= k <= i :: Survives(seg, t, k) && EntryOk(seg, t, k)
  {
    if i > 0 {
      if Evident(seg, t, i) {
        assert Reaches(seg, t, i);
        ReachedSurvives(seg, t, i, i - 1);
      }
      assert Survives(seg, t, i - 1);
      KeptReaches(seg, t, i - 1);
    }
    assert EntryOk(seg, t, i) by {
      if Evident(seg, t, i) { assert Reaches(seg, t, i); }
    }
  }

  lemma {:induction false} ReachedSurvives(seg: Segment, t: Placed, i: nat, k: nat)
    requires WellFormed(t) && t.at + |t.entries| <= |seg.slots|
    requires k <= i < |t.entries| && Reaches(seg, t, i)
    ensures Survives(seg, t, k)
  {
    if k > 0 {
      ReachedSurvives(seg, t, i, k - 1);
    }
  }

  lemma KeptIsPrefix(seg: Segment, t: Placed)
    requires WellFormed(t) && t.at + |t.entries| <= |seg.slots| && TailOk(seg, t)
    ensures PrefixOk(seg, Kept(seg, t))
  {
    var k := Kept(seg, t);
    forall i | t.firm && 0 <= i < |k.entries| && k.live[i] ensures Reaches(seg, k, i) {
      KeptReaches(seg, t, i);
      forall j | 0 <= j <= i ensures k.live[j] && EntryOk(seg, k, j) {
        OffKept(seg, t, j);
        assert EntryOk(seg, t, j);
      }
    }
  }

  // ---- steps on a segment ----

  lemma TornEntriesSolid(g: Geometry, seg: Segment, bs: seq<Placed>, t: Placed, torn: Segment, k: nat)
    requires Holds(g, seg, bs + [t]) && WellFormed(t) && TornEntries(seg, t, torn) && k < |bs|
    requires Inside(seg, bs) && Solid(seg, bs[k])
    ensures Solid(torn, bs[k])
  {
    var all, b := bs + [t], bs[k];
    assert all[k] == b && all[|bs|] == t && Coherent(g, seg, all[k]);
    BeforeLast(g, seg, all, k);
    SeqnoBelowLast(g, seg, all, k);
    LiveEndBounds(b, |b.entries|);
    forall i | 0 <= i < |b.entries|
      ensures Evident(torn, b, i)
      ensures b.firm && b.live[i] ==> EntryOk(torn, b, i)
    {
      assert Evident(seg, b, i);
      TornEntryStays(seg, t, torn, b, i);
    }
  }

  lemma TornRecordsSolid(g: Geometry, seg: Segment, bs: seq<Placed>, t: Placed, torn: Segment, k: nat)
    requires Holds(g, seg, bs + [t]) && Coherent(g, seg, t) && TornRecords(seg, t, torn) && k < |bs|
    requires Inside(seg, bs) && Solid(seg, bs[k])
    ensures Solid(torn, bs[k])
  {
    var all, b := bs + [t], bs[k];
    assert all[k] == b && all[|bs|] == t && Coherent(g, seg, all[k]);
    BeforeLast(g, seg, all, k);
    EarlierRecordsStay(g, seg, t, torn, b);
    forall i | 0 <= i < |b.entries|
      ensures Evident(torn, b, i)
      ensures EntryOk(torn, b, i) <==> EntryOk(seg, b, i)
    {
      assert Evident(seg, b, i);
    }
  }

  /** Nothing of the batch is on disk yet, or every entry of it is. */
  predicate NoRecords(seg: Segment, t: Placed)
    requires t.at + |t.entries| <= |seg.slots|
  {
    forall i | 0 <= i < |t.entries| :: !Evident(seg, t, i)
  }

  predicate AllEntries(seg: Segment, t: Placed) { forall i | 0 <= i < |t.entries| :: EntryOk(seg, t, i) }

  /** The entries of the batch in flight, whole or torn. */
  lemma EntriesKeep(g: Geometry, seg: Segment, bs: seq<Placed>, t: Placed, torn: Segment)
    requires SegInv(g, seg, bs, Some(t)) && AllLive(t) && TornEntries(seg, t, torn)
    requires t.firm ==> NoRecords(seg, t)
    ensures SegInv(g, torn, bs, Some(t))
    ensures NoRecords(seg, t) ==> NoRecords(torn, t)
  {
    var all := bs + [t];
    assert all[|all| - 1] == t;
    TornEntriesHold(g, seg, all, torn);
    assert Coherent(g, torn, all[|bs|]);
    forall k | 0 <= k < |bs| ensures Solid(torn, bs[k]) {
      assert Solid(seg, bs[k]);
      TornEntriesSolid(g, seg, bs, t, torn, k);
    }
    forall i | 0 <= i < |t.entries| && NoRecords(seg, t) ensures !Evident(torn, t, i) {
      assert !Evident(seg, t, i);
    }
  }

  /** The records of the batch in flight, whole or torn. */
  lemma RecordsKeep(g: Geometry, seg: Segment, bs: seq<Placed>, t: Placed, torn: Segment)
    requires SegInv(g, seg, bs, Some(t)) && TornRecords(seg, t, torn)
    requires PrefixOk(seg, t)
    ensures SegInv(g, torn, bs, Some(t)) && PrefixOk(torn, t)
  {
    var all := bs + [t];
    assert all[|all| - 1] == t;
    TornRecordsHold(g, seg, all, torn);
    assert Coherent(g, torn, all[|bs|]);
    forall k | 0 <= k < |bs| ensures Solid(torn, bs[k]) {
      assert Solid(seg, bs[k]);
      TornRecordsSolid(g, seg, bs, t, torn, k);
    }
    forall i | 0 <= i < |t.entries| && t.firm && t.live[i] ensures Reaches(torn, t, i) {
      assert Reaches(seg, t, i);
      forall k | 0 <= k <= i ensures EntryOk(torn, t, k) { assert EntryOk(seg, t, k); }
    }
    FirmWithin(torn, t);
  }

  /** Recovery's view of the batch in flight. */
  lemma KeptKeeps(g: Geometry, seg: Segment, bs: seq<Placed>, t: Placed)
    requires SegInv(g, seg, bs, Some(t))
    ensures SegInv(g, seg, bs, Some(Kept(seg, t))) && PrefixOk(seg, Kept(seg, t))
    ensures AllEvident(seg, t) ==> Kept(seg, t) == t
  {
    KeptHolds(g, seg, bs, t);
    KeptCoherent(g, seg, t);
    KeptIsPrefix(seg, t);
    FirmWithin(seg, Kept(seg, t));
    if AllEvident(seg, t) {
      forall i | 0 <= i < |t.entries| ensures !Expect(seg, t, i).Lost? {
        assert Evident(seg, t, i);
      }
      WholeIsVisible(seg, t);
    }
  }

  lemma InvisibleKeeps(g: Geometry, seg: Segment, bs: seq<Placed>, t: Placed)
    requires SegInv(g, seg, bs, Some(t)) && !Visible(seg, t)
    ensures SegInv(g, seg, bs, None)
  {
    InvisibleDrops(g, seg, bs, t);
  }

  /** Once every record of it is durable, the batch joins the log. */
  lemma JoinsLog(g: Geometry, seg: Segment, bs: seq<Placed>, t: Placed)
    requires SegInv(g, seg, bs, Some(t)) && AllEvident(seg, t)
    ensures SegInv(g, seg, bs + [t], None)
  {
    FirmWithin(seg, t);
    var all := bs + [t];
    forall k | 0 <= k < |all| ensures Solid(seg, all[k]) {
      if k < |bs| { assert Solid(seg, bs[k]); }
    }
  }

  /** A batch is about to be written. */
  lemma NewTail(g: Geometry, seg: Segment, bs: seq<Placed>, t: Placed)
    requires SegInv(g, seg, bs, None) && Below(seg, t.seqno) && WellPlaced(g, t) && AllLive(t)
    requires t.at == AtOf(bs, |bs|) && t.entryAt == CursorOf(g, bs, |bs|)
    requires t.seqno > LastSeqno(bs, seg.prev) && t.seqno >= seg.first
    requires forall i | 0 <= i < |t.entries| :: t.entries[i].ordered ==> t.firm
    ensures SegInv(g, seg, bs, Some(t)) && NoRecords(seg, t)
  {
    NewBatchHolds(g, seg, bs, t);
    var all := bs + [t];
    assert Coherent(g, seg, all[|bs|]);
    forall i | 0 <= i < |t.entries| ensures !Evident(seg, t, i) {
      assert !Fresh(seg, t.at + i);
    }
  }

  lemma FirmCell(seg: Segment, t: Placed, u: Placed, i: nat)
    requires WellFormed(t) && u == t.(firm := u.firm) && t.at + |t.entries| <= |seg.slots| && i < |t.entries|
    ensures EntryOk(seg, u, i) <==> EntryOk(seg, t, i)
    ensures Evident(seg, u, i) <==> Evident(seg, t, i)
    ensures Rec(u, i) == Rec(t, i)
  {
    SameOff(t, u, i);
  }

  lemma FirmOwns(t: Placed, u: Placed, o: nat, e: Entry)
    requires u == t.(firm := u.firm) && OwnEntry(t, o, e)
    ensures OwnEntry(u, o, e)
  {
    SameOff(t, u, e.index);
  }

  lemma FirmCoherent(g: Geometry, seg: Segment, t: Placed, u: Placed)
    requires Coherent(g, seg, t) && u == t.(firm := u.firm)
    ensures Coherent(g, seg, u)
  {
    SameOff(t, u, |t.entries|);
    forall i | 0 <= i < |t.entries|
      ensures EntryOk(seg, u, i) <==> EntryOk(seg, t, i)
      ensures Evident(seg, u, i) <==> Evident(seg, t, i)
      ensures Rec(u, i) == Rec(t, i)
    {
      FirmCell(seg, t, u, i);
    }
    forall o | o in seg.entries && seg.entries[o].batch == u.seqno ensures OwnEntry(u, o, seg.entries[o]) {
      FirmOwns(t, u, o, seg.entries[o]);
    }
  }

  lemma FirmEntries(seg: Segment, t: Placed, u: Placed)
    requires WellFormed(t) && u == t.(firm := u.firm) && t.at + |t.entries| <= |seg.slots| && AllEntries(seg, t)
    ensures AllEntries(seg, u) && (AllEvident(seg, t) ==> AllEvident(seg, u))
  {
    forall i | 0 <= i < |t.entries| ensures EntryOk(seg, u, i) && (Evident(seg, u, i) <==> Evident(seg, t, i)) {
      assert EntryOk(seg, t, i);
      FirmCell(seg, t, u, i);
    }
  }

  lemma FirmPrefix(seg: Segment, u: Placed)
    requires WellFormed(u) && AllLive(u) && u.firm && AllEntries(seg, u)
    ensures PrefixOk(seg, u)
  {
    forall i | 0 <= i < |u.entries| ensures Reaches(seg, u, i) {
      forall k | 0 <= k <= i ensures EntryOk(seg, u, k) {
      }
    }
  }

  /** A durable batch is firm: what its records name is there. */
  lemma MadeFirm(g: Geometry, seg: Segment, bs: seq<Placed>, t: Placed)
    requires SegInv(g, seg, bs, Some(t)) && AllLive(t) && AllEntries(seg, t)
    ensures var u := t.(firm := true);
            SegInv(g, seg, bs, Some(u)) && PrefixOk(seg, u) && AllEntries(seg, u) && (AllEvident(seg, t) ==> AllEvident(seg, u))
  {
    var u := t.(firm := true);
    FirmEntries(seg, t, u);
    FirmCoherent(g, seg, t, u);
    FirmPrefix(seg, u);
    Swapped(g, seg, bs, t, u);
    FirmWithin(seg, u);
  }

  lemma {:induction false} SameOff(t: Placed, u: Placed, i: nat)
    requires t.entries == u.entries && t.entryAt == u.entryAt && i <= |t.entries|
    ensures Off(u, i) == Off(t, i)
  {
    if i > 0 {
      SameOff(t, u, i - 1);
    }
  }
}
