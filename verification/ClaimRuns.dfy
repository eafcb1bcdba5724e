/** What the claim table promises under every schedule. */
module ClaimRuns {
  import opened Claims

  predicate Mine(pc: Pc) {
    pc.Took? || pc.Named? || pc.Marked? || pc.Rescan? || pc.Check? || pc.Yields? || pc.Unnamed? || pc.Won? || pc.Filled?
  }

  /** No index is handed out twice: a fetch-and-add below the capacity returns the first index
      not handed out yet, and no two claimants ever hold the same one. */
  lemma IndexIsNew(capacity: nat, moves: seq<Move>, p: nat)
    requires p in Exec(capacity, moves).procs && Exec(capacity, moves).procs[p].Search?
    ensures var t, t' := Exec(capacity, moves), Exec(capacity, moves + [Go(p)]);
            p in t'.procs && (t'.procs[p].Took? ==> t'.procs[p].mine == |t.takings| < capacity && |t'.takings| == |t.takings| + 1)
  {
    var t := Exec(capacity, moves);
    ExecKeeps(capacity, moves);
    assert (moves + [Go(p)])[..|moves|] == moves;
    Takes(t, p, t.procs[p].id);
  }

  lemma IndexHeldOnce(capacity: nat, moves: seq<Move>, p: nat, q: nat)
    requires var t := Exec(capacity, moves); p != q && p in t.procs && q in t.procs && Mine(t.procs[p]) && Mine(t.procs[q])
    ensures var t := Exec(capacity, moves); t.procs[p].mine != t.procs[q].mine && t.procs[p].mine < capacity
  {
    ExecKeeps(capacity, moves);
    var t := Exec(capacity, moves);
    assert PcOk(t, p, t.procs[p]) && PcOk(t, q, t.procs[q]);
  }

  lemma ReadyKept(t: Table, m: Move, i: nat)
    requires Inv(t) && i < |t.cells| && t.cells[i].state == Ready
    ensures |Do(t, m).cells| == |t.cells| && Do(t, m).cells[i] == t.cells[i]
  {
    assert CellOk(t, i);
    if m.Go? && m.p in t.procs {
      assert PcOk(t, m.p, t.procs[m.p]);
    }
  }

  /** A ready entry never changes again, */
  lemma {:induction false} ReadyStays(capacity: nat, moves: seq<Move>, more: seq<Move>, i: nat)
    requires i < capacity == |Exec(capacity, moves).cells| && Exec(capacity, moves).cells[i].state == Ready
    ensures |Exec(capacity, moves + more).cells| == capacity
    ensures Exec(capacity, moves + more).cells[i] == Exec(capacity, moves).cells[i]
    decreases |more|
  {
    if more == [] {
      assert moves + more == moves;
    } else {
      var n := |more| - 1;
      ReadyStays(capacity, moves, more[..n], i);
      ExecKeeps(capacity, moves + more[..n]);
      assert (moves + more)[..|moves + more| - 1] == moves + more[..n];
      ReadyKept(Exec(capacity, moves + more[..n]), more[n], i);
    }
  }

  /** and what a claim returns is one, filled, of the identity it asked for. */
  lemma EntryIsReady(capacity: nat, moves: seq<Move>, p: nat)
    requires var t := Exec(capacity, moves); p in t.procs && t.procs[p].Done? && t.procs[p].outcome.Entry?
    ensures var t := Exec(capacity, moves); var i := t.procs[p].outcome.i;
            i < capacity == |t.cells| && t.cells[i] == Cell(Ready, t.procs[p].id, true)
  {
    ExecKeeps(capacity, moves);
    var t := Exec(capacity, moves);
    assert PcOk(t, p, t.procs[p]);
    Reads(t, t.procs[p].outcome.i);
    assert CellOk(t, t.procs[p].outcome.i);
  }

  /** A claim is told to come back only by an entry that was still initializing when it had been read 4096
      times, or that was given up by the claimant it had yielded to; an entry given up during a search only
      starts the search again. */
  lemma BusyIsPatient(capacity: nat, moves: seq<Move>, p: nat)
    requires var t := Exec(capacity, moves); p in t.procs && !t.procs[p].Done?
    requires var t := Exec(capacity, moves + [Go(p)]); p in t.procs && t.procs[p].Done? && t.procs[p].outcome.Busy?
    ensures var t := Exec(capacity, moves); var pc := t.procs[p];
            && pc.Await? && pc.i < |t.cells|
            && if t.cells[pc.i].state == Initializing then pc.k >= 4096 else t.cells[pc.i].state == Unused && !pc.retry
  {
    ExecKeeps(capacity, moves);
    var t := Exec(capacity, moves);
    assert (moves + [Go(p)])[..|moves|] == moves;
    assert PcOk(t, p, t.procs[p]);
  }

  /** A claim is told that the table is full only when every index has been handed out. */
  lemma FullIsFull(capacity: nat, moves: seq<Move>, p: nat)
    requires var t := Exec(capacity, moves); p in t.procs && t.procs[p].Done? && t.procs[p].outcome.Full?
    ensures |Exec(capacity, moves).takings| == capacity
  {
    ExecKeeps(capacity, moves);
    var t := Exec(capacity, moves);
    assert PcOk(t, p, t.procs[p]);
  }

  predicate Settled(t: Table, id: nat) {
    forall i {:trigger t.takings[i]} | 0 <= i < |t.takings| && t.takings[i].id == id :: t.takings[i].fate != Working
  }

  lemma {:induction false} Winner(t: Table, id: nat, mine: nat) returns (i: nat)
    requires Inv(t) && Settled(t, id) && mine < |t.takings| && t.takings[mine].id == id
    ensures i < |t.takings| && t.takings[i].id == id && t.takings[i].fate == Published
  {
    if t.takings[mine].fate == Published {
      i := mine;
    } else {
      assert Excused(t, mine);
      var j :| 0 <= j < |t.takings| && YieldsTo(t, mine, j);
      if t.takings[j].fate == Published { i := j; } else { i := Winner(t, id, j); }
    }
  }

  /** Claimants of one identity never all give up: once each that took an index has settled, one
      of them is ready. */
  lemma SomeoneWins(capacity: nat, moves: seq<Move>, id: nat, mine: nat)
    requires var t := Exec(capacity, moves); Settled(t, id) && mine < |t.takings| && t.takings[mine].id == id
    ensures var t := Exec(capacity, moves); |t.cells| == capacity && exists i | 0 <= i < capacity :: t.cells[i] == Cell(Ready, id, true)
  {
    ExecKeeps(capacity, moves);
    var t := Exec(capacity, moves);
    var i := Winner(t, id, mine);
    Reads(t, i);
    assert CellOk(t, i);
  }
}
