/** The in-memory index and the live counts of the segments it points into. */
module LiveIndex {
  import opened Ops
  import opened Recover

  datatype Counted = Counted(first: nat, live: nat)

  /** The positions whose entry lies in the segment. */
  function Owners(index: map<nat, Located>, first: nat): set<nat> { set p | p in index && index[p].segment == first }

  predicate Sorted(segments: seq<Counted>) {
    forall i, j {:trigger segments[i], segments[j]} | 0 <= i < j < |segments| :: segments[i].first < segments[j].first
  }

  predicate Listed(segments: seq<Counted>, first: nat) { exists i | 0 <= i < |segments| :: segments[i].first == first }

  /** Every entry's segment is open, and each segment counts its entries. */
  predicate Counts(index: map<nat, Located>, segments: seq<Counted>) {
    && Sorted(segments)
    && (forall p {:trigger Listed(segments, index[p].segment)} | p in index :: Listed(segments, index[p].segment))
    && (forall i {:trigger Owners(index, segments[i].first)} | 0 <= i < |segments| :: segments[i].live == |Owners(index, segments[i].first)|)
  }

  lemma OwnersPut(index: map<nat, Located>, p: nat, at: Located, first: nat)
    ensures |Owners(index[p := at], first)| + (if p in index && index[p].segment == first then 1 else 0)
         == |Owners(index, first)| + (if at.segment == first then 1 else 0)
  {
    var rest := Owners(index, first) - {p};
    assert Owners(index[p := at], first) == if at.segment == first then rest + {p} else rest;
    assert p in Owners(index, first) ==> Owners(index, first) == rest + {p};
    assert p !in Owners(index, first) ==> Owners(index, first) == rest;
  }

  lemma OwnersDrop(index: map<nat, Located>, p: nat, first: nat)
    requires p in index
    ensures |Owners(index, first)| == |Owners(index - {p}, first)| + if index[p].segment == first then 1 else 0
  {
    var now := index - {p};
    if index[p].segment == first { assert Owners(index, first) == Owners(now, first) + {p}; }
    else { assert Owners(now, first) == Owners(index, first); }
  }

  predicate SameFirsts(a: seq<Counted>, b: seq<Counted>) { |a| == |b| && forall i {:trigger b[i]} | 0 <= i < |a| :: b[i].first == a[i].first }

  class Index {
    var index: map<nat, Located>
    var segments: seq<Counted>

    ghost predicate Valid()
      reads this
    {
      Counts(index, segments)
    }

    constructor ()
      ensures Valid() && index == map[] && segments == []
    {
      index, segments := map[], [];
    }

    /** The segment a located entry lies in, by binary search. */
    method SegmentIndex(first: nat) returns (at: nat)
      requires Sorted(segments) && Listed(segments, first)
      ensures at < |segments| && segments[at].first == first
    {
      var lo, hi := 0, |segments|;
      while true
        invariant 0 <= lo <= hi <= |segments| && exists i | lo <= i < hi :: segments[i].first == first
        decreases hi - lo
      {
        var mid := lo + (hi - lo) / 2;
        if segments[mid].first == first { return mid; }
        if segments[mid].first < first { lo := mid + 1; } else { hi := mid; }
      }
    }

    /** A new segment is listed last. */
    method AddSegment(first: nat)
      requires Valid() && forall i | 0 <= i < |segments| :: segments[i].first < first
      modifies `segments
      ensures Valid() && segments == old(segments) + [Counted(first, 0)]
    {
      forall p | p in index ensures index[p].segment != first && Listed(segments + [Counted(first, 0)], index[p].segment) {
        assert Listed(segments, index[p].segment);
        var i :| 0 <= i < |segments| && segments[i].first == index[p].segment;
        assert (segments + [Counted(first, 0)])[i].first == index[p].segment;
      }
      assert Owners(index, first) == {};
      segments := segments + [Counted(first, 0)];
    }

    /** An entry is released: its segment's count covers it. */
    method Release(gone: Located)
      requires Sorted(segments) && Listed(segments, gone.segment)
      requires forall i {:trigger segments[i]} | 0 <= i < |segments| && segments[i].first == gone.segment :: segments[i].live > 0
      modifies `segments
      ensures SameFirsts(old(segments), segments)
      ensures forall i {:trigger segments[i]} | 0 <= i < |segments| ::
                segments[i].live == old(segments)[i].live - if segments[i].first == gone.segment then 1 else 0
    {
      var at := SegmentIndex(gone.segment);
      assert segments[at].live > 0;
      segments := segments[at := segments[at].(live := segments[at].live - 1)];
    }

    /** A put: the new entry is counted before the old one is released. */
    method Insert(p: nat, at: Located)
      requires Valid() && Listed(segments, at.segment)
      modifies this
      ensures Valid() && index == old(index)[p := at] && SameFirsts(old(segments), segments)
    {
      ghost var was := index;
      var s := SegmentIndex(at.segment);
      segments := segments[s := segments[s].(live := segments[s].live + 1)];
      forall i | 0 <= i < |segments| { OwnersPut(was, p, at, segments[i].first); }
      if p in index {
        var gone := index[p];
        StillListed(old(segments), segments, gone.segment);
        assert forall i {:trigger segments[i]} | 0 <= i < |segments| && segments[i].first == gone.segment :: p in Owners(was, segments[i].first);
        index := index[p := at];
        Release(gone);
      } else {
        index := index[p := at];
      }
      Recounted(was, index, old(segments), segments);
    }

    method Remove(p: nat)
      requires Valid() && p in index
      modifies this
      ensures Valid() && index == old(index) - {p} && SameFirsts(old(segments), segments)
    {
      ghost var was := index;
      var gone := index[p];
      index := index - {p};
      forall i | 0 <= i < |segments| { OwnersDrop(was, p, segments[i].first); }
      Release(gone);
      Recounted(was, index, old(segments), segments);
    }

    /** One operation: the index is the fold's, and the counts follow. */
    method Apply(op: Op<Located>)
      requires Valid() && (op.Put? ==> Listed(segments, op.value.segment))
      modifies this
      ensures Valid() && index == Ops.Apply(old(index), op) && SameFirsts(old(segments), segments)
      ensures op.Put? ==> index == old(index)[op.position := op.value]
      ensures op.Clear? ==> index == map p | p in old(index) && (p < op.start || p >= op.end) :: old(index)[p]
    {
      match op
      case Put(p, at) => Insert(p, at);
      case Clear(start, end) =>
        var gone := set p | p in index && start <= p < end;
        RemoveAll(gone);
        assert index == Ops.Apply(old(index), op);
    }

    method RemoveAll(positions: set<nat>)
      requires Valid() && positions <= index.Keys
      modifies this
      ensures Valid() && index == old(index) - positions && SameFirsts(old(segments), segments)
    {
      var left := positions;
      ghost var gone: set<nat> := {};
      while left != {}
        invariant Valid() && SameFirsts(old(segments), segments)
        invariant left <= positions - gone && positions <= gone + left && gone <= positions && index == old(index) - gone
        decreases |left|
      {
        var p :| p in left;
        Remove(p);
        DropMore(old(index), gone, p);
        left, gone := left - {p}, gone + {p};
      }
      assert gone == positions;
    }

    method DropBelowFloor(floor: nat)
      requires Valid()
      modifies this
      ensures Valid() && index == Above(old(index), floor) == map p | p in old(index) && p >= floor :: old(index)[p]
    {
      var gone := set p | p in index && p < floor;
      RemoveAll(gone);
    }

    /** Segments are dropped from the front while none of the index lies in them; one always stays. */
    method RemoveDeadSegments() returns (removed: nat)
      requires Valid()
      modifies `segments
      ensures Valid() && removed <= |old(segments)| && segments == old(segments)[removed..]
      ensures forall i | 0 <= i < removed :: Owners(index, old(segments)[i].first) == {}
      ensures removed > 0 ==> segments != []
      ensures |segments| > 1 ==> segments[0].live > 0
    {
      removed := 0;
      while |segments| > 1 && segments[0].live == 0
        invariant Valid() && removed <= |old(segments)| && segments == old(segments)[removed..]
        invariant forall i | 0 <= i < removed :: Owners(index, old(segments)[i].first) == {}
        invariant removed > 0 ==> segments != []
        decreases |segments|
      {
        FrontDrops(index, segments);
        segments := segments[1..];
        removed := removed + 1;
      }
    }
  }

  lemma DropMore(index: map<nat, Located>, gone: set<nat>, p: nat)
    ensures index - gone - {p} == index - (gone + {p})
  {
  }

  lemma StillListed(a: seq<Counted>, b: seq<Counted>, first: nat)
    requires SameFirsts(a, b) && Listed(a, first)
    ensures Listed(b, first)
  {
    var i :| 0 <= i < |a| && a[i].first == first;
    assert b[i].first == first;
  }

  lemma Recounted(was: map<nat, Located>, index: map<nat, Located>, before: seq<Counted>, segments: seq<Counted>)
    requires Counts(was, before) && SameFirsts(before, segments)
    requires forall i {:trigger segments[i]} | 0 <= i < |segments| :: |Owners(index, segments[i].first)| == segments[i].live
    requires forall p {:trigger index[p]} | p in index :: Listed(before, index[p].segment)
    ensures Counts(index, segments)
  {
    forall p {:trigger index[p]} | p in index ensures Listed(segments, index[p].segment) { StillListed(before, segments, index[p].segment); }
  }

  lemma FrontDrops(index: map<nat, Located>, segments: seq<Counted>)
    requires Counts(index, segments) && |segments| > 1 && segments[0].live == 0
    ensures Counts(index, segments[1..]) && Owners(index, segments[0].first) == {}
  {
    assert Owners(index, segments[0].first) == {};
    forall p {:trigger index[p]} | p in index ensures Listed(segments[1..], index[p].segment) {
      assert Listed(segments, index[p].segment);
      var i :| 0 <= i < |segments| && segments[i].first == index[p].segment;
      assert i > 0 by { assert p !in Owners(index, segments[0].first); }
      assert segments[1..][i - 1].first == index[p].segment;
    }
  }

  // ---- the counts cover the index ----

  function Live(segments: seq<Counted>): nat {
    if segments == [] then 0 else Live(segments[..|segments| - 1]) + segments[|segments| - 1].live
  }

  /** The positions in the first segments. */
  function In(index: map<nat, Located>, segments: seq<Counted>): set<nat> {
    set p | p in index && Listed(segments, index[p].segment)
  }

  lemma {:induction false} LiveCounts(index: map<nat, Located>, segments: seq<Counted>)
    requires Sorted(segments) && forall i {:trigger segments[i]} | 0 <= i < |segments| :: segments[i].live == |Owners(index, segments[i].first)|
    ensures Live(segments) == |In(index, segments)|
  {
    if segments == [] {
      assert In(index, segments) == {};
    } else {
      var n := |segments| - 1;
      LiveCounts(index, segments[..n]);
      InSnoc(index, segments);
    }
  }

  lemma InSnoc(index: map<nat, Located>, segments: seq<Counted>)
    requires Sorted(segments) && segments != []
    ensures var n := |segments| - 1;
            && In(index, segments) == In(index, segments[..n]) + Owners(index, segments[n].first)
            && In(index, segments[..n]) !! Owners(index, segments[n].first)
  {
    var n := |segments| - 1;
    forall p | p in index
      ensures Listed(segments, index[p].segment) <==> Listed(segments[..n], index[p].segment) || index[p].segment == segments[n].first
      ensures Listed(segments[..n], index[p].segment) ==> index[p].segment != segments[n].first
    {
      if i :| 0 <= i < |segments| && segments[i].first == index[p].segment {
        if i < n { assert segments[..n][i].first == index[p].segment; }
      }
      if i :| 0 <= i < n && segments[..n][i].first == index[p].segment {
        assert segments[i].first < segments[n].first;
      }
    }
  }

  /** The live counts together are the index, entry for entry. */
  lemma LiveCoversIndex(index: map<nat, Located>, segments: seq<Counted>)
    requires Counts(index, segments)
    ensures Live(segments) == |index|
  {
    LiveCounts(index, segments);
    assert In(index, segments) == index.Keys;
  }
}
