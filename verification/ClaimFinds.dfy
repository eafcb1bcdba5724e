/** A claim of an identity that already has a ready entry: it takes no index and is never told the table is
    full. It gets the entry, unless a claimant of a lower index is in its way. */
module ClaimFinds {
  import opened Claims
  import opened ClaimRuns
  import opened ClaimUnique

  predicate IsReady(t: Table, id: nat, j: nat) { j < |t.takings| && t.takings[j].id == id && t.takings[j].fate == Published }

  /** The claim is searching, waiting for an entry of its identity, or over without a refusal. */
  predicate Finding(t: Table, p: nat, id: nat, j: nat) {
    && IsReady(t, id, j) && p in t.procs && t.procs[p].id == id
    && match t.procs[p] {
         case Start(_) => true
         case Search(_, n, i) => i <= j < n
         case Look(_, n, i) => i <= j < n
         case Await(_, _, _, retry) => retry
         case Done(_, outcome) => outcome != Full
         case _ => false
       }
  }

  /** From index `n` on, none was handed to the claimant. */
  predicate TookNone(t: Table, p: nat, n: nat) { forall i {:trigger t.takings[i]} | n <= i < |t.takings| :: t.takings[i].who != p }

  /** No other claim of `p` begins. */
  predicate OneClaim(more: seq<Move>, p: nat) { forall k | 0 <= k < |more| :: !(more[k].Begin? && more[k].p == p) }

  lemma ReadyCell(t: Table, id: nat, j: nat)
    requires Inv(t) && IsReady(t, id, j)
    ensures j < |t.cells| && t.cells[j] == Cell(Ready, id, true) && id != 0 && Entries(t) == |t.takings|
  {
    Reads(t, j);
    assert CellOk(t, j);
  }

  lemma ReadyOn(t: Table, m: Move, id: nat, j: nat)
    requires Inv(t) && IsReady(t, id, j)
    ensures IsReady(Do(t, m), id, j)
  {
    if m.Go? && m.p in t.procs { assert PcOk(t, m.p, t.procs[m.p]); }
  }

  /** The claimant's own step. */
  lemma FindsOn(t: Table, p: nat, id: nat, j: nat)
    requires Inv(t) && Finding(t, p, id, j)
    ensures Finding(Step(t, p), p, id, j) && Step(t, p).takings == t.takings
  {
    ReadyCell(t, id, j);
    assert PcOk(t, p, t.procs[p]);
  }

  lemma OtherMoves(t: Table, m: Move, p: nat)
    requires Inv(t) && p in t.procs && (m.Go? ==> m.p != p) && (m.Begin? ==> m.p != p)
    ensures p in Do(t, m).procs && Do(t, m).procs[p] == t.procs[p]
    ensures forall i {:trigger Do(t, m).takings[i]} | |t.takings| <= i < |Do(t, m).takings| :: Do(t, m).takings[i].who != p
    ensures |t.takings| <= |Do(t, m).takings|
    ensures forall i {:trigger Do(t, m).takings[i]} | 0 <= i < |t.takings| :: Do(t, m).takings[i].who == t.takings[i].who
  {
    if m.Go? && m.p in t.procs {
      var _ := StepMoves(t, m.p);
      assert PcOk(t, m.p, t.procs[m.p]);
    }
  }

  lemma FindsThrough(t: Table, m: Move, p: nat, id: nat, j: nat, n: nat)
    requires Inv(t) && Finding(t, p, id, j) && TookNone(t, p, n) && n <= |t.takings| && !(m.Begin? && m.p == p)
    ensures Finding(Do(t, m), p, id, j) && TookNone(Do(t, m), p, n) && n <= |Do(t, m).takings|
  {
    if m == Go(p) {
      FindsOn(t, p, id, j);
    } else {
      ReadyOn(t, m, id, j);
      OtherMoves(t, m, p);
    }
  }

  function After(capacity: nat, before: seq<Move>, p: nat, id: nat, more: seq<Move>): Table { Exec(capacity, before + [Begin(p, id)] + more) }

  lemma AfterNext(capacity: nat, before: seq<Move>, p: nat, id: nat, more: seq<Move>)
    ensures more == [] ==> After(capacity, before, p, id, more) == Do(Exec(capacity, before), Begin(p, id))
    ensures more != [] ==> After(capacity, before, p, id, more) == Do(After(capacity, before, p, id, more[..|more| - 1]), more[|more| - 1])
  {
    if more == [] {
      assert before + [Begin(p, id)] + more == before + [Begin(p, id)];
      var _ := Goes(capacity, before, Begin(p, id));
    } else {
      var n := |more| - 1;
      assert before + [Begin(p, id)] + more == before + [Begin(p, id)] + more[..n] + [more[n]];
      var _ := Goes(capacity, before + [Begin(p, id)] + more[..n], more[n]);
    }
  }

  lemma {:induction false} StaysFinding(capacity: nat, before: seq<Move>, p: nat, id: nat, more: seq<Move>, j: nat)
    requires Idle(Exec(capacity, before), p) && id != 0 && IsReady(Exec(capacity, before), id, j) && OneClaim(more, p)
    ensures var t := After(capacity, before, p, id, more);
            Inv(t) && Finding(t, p, id, j) && TookNone(t, p, |Exec(capacity, before).takings|) && |Exec(capacity, before).takings| <= |t.takings|
    decreases |more|
  {
    ExecKeeps(capacity, before);
    ExecKeeps(capacity, before + [Begin(p, id)] + more);
    AfterNext(capacity, before, p, id, more);
    if more != [] {
      var n := |more| - 1;
      StaysFinding(capacity, before, p, id, more[..n], j);
      FindsThrough(After(capacity, before, p, id, more[..n]), more[n], p, id, j, |Exec(capacity, before).takings|);
    }
  }

  /** Under every schedule: a claim that begins when an entry of its identity is ready takes no index, and
      when it is over it has a ready entry of that identity or found one still initializing; it is never
      told that the table is full. */
  lemma FindsExisting(capacity: nat, before: seq<Move>, p: nat, id: nat, more: seq<Move>, j: nat)
    requires Idle(Exec(capacity, before), p) && id != 0 && OneClaim(more, p)
    requires j < capacity == |Exec(capacity, before).cells| && Exec(capacity, before).cells[j] == Cell(Ready, id, true)
    ensures var t := After(capacity, before, p, id, more);
            && p in t.procs && !Mine(t.procs[p]) && !t.procs[p].Over? && TookNone(t, p, |Exec(capacity, before).takings|)
            && (t.procs[p].Done? ==>
                  match t.procs[p].outcome
                  case Entry(i) => i < |t.cells| && t.cells[i] == Cell(Ready, id, true)
                  case Busy => true
                  case Full => false)
  {
    var t0 := Exec(capacity, before);
    ExecKeeps(capacity, before);
    assert CellOk(t0, j);
    StaysFinding(capacity, before, p, id, more, j);
    var t := After(capacity, before, p, id, more);
    assert PcOk(t, p, t.procs[p]);
    if t.procs[p].Done? && t.procs[p].outcome.Entry? { ReadyCell(t, id, t.procs[p].outcome.i); }
  }

  // ---- when it gets the entry ----

  /** Index `j` is the first ready one of the identity. */
  predicate IsFirstReady(t: Table, id: nat, j: nat) { IsReady(t, id, j) && forall i | 0 <= i < j :: !IsReady(t, id, i) }

  /** A lower index of the identity is still worked on, and its claimant is not giving it up. */
  predicate InTheWay(t: Table, id: nat, j: nat) {
    exists i | 0 <= i < j :: i < |t.takings| && i < |t.cells| && t.takings[i].id == id && !Gone(t, i)
  }

  predicate Getting(t: Table, p: nat, id: nat, j: nat) {
    && Finding(t, p, id, j) && Passed(t, id, j)
    && (t.procs[p].Await? ==> t.procs[p].i == j) && (t.procs[p].Done? ==> t.procs[p].outcome == Entry(j))
  }

  lemma GoneCell(t: Table, id: nat, i: nat)
    requires Inv(t) && i < |t.takings| && id != 0 && GoneIf(t, id, i)
    ensures i < |t.cells| && t.cells[i].id != id
  {
    Reads(t, i);
    assert CellOk(t, i);
  }

  lemma GetsOn(t: Table, p: nat, id: nat, j: nat)
    requires Inv(t) && Getting(t, p, id, j)
    ensures Getting(Step(t, p), p, id, j)
  {
    FindsOn(t, p, id, j);
    ReadyCell(t, id, j);
    PassedOn(t, Go(p), id, j);
    if t.procs[p].Look? && t.procs[p].i < j { GoneCell(t, id, t.procs[p].i); }
  }

  lemma GetsThrough(t: Table, m: Move, p: nat, id: nat, j: nat)
    requires Inv(t) && Getting(t, p, id, j) && !(m.Begin? && m.p == p)
    ensures Getting(Do(t, m), p, id, j)
  {
    if m == Go(p) {
      GetsOn(t, p, id, j);
    } else {
      ReadyOn(t, m, id, j);
      OtherMoves(t, m, p);
      PassedOn(t, m, id, j);
    }
  }

  /** With nobody in the way, the claim can only end with that entry. */
  lemma {:induction false} GetsTheEntry(capacity: nat, before: seq<Move>, p: nat, id: nat, more: seq<Move>, j: nat)
    requires Idle(Exec(capacity, before), p) && id != 0 && OneClaim(more, p)
    requires IsFirstReady(Exec(capacity, before), id, j) && !InTheWay(Exec(capacity, before), id, j)
    ensures var t := After(capacity, before, p, id, more); Inv(t) && Getting(t, p, id, j)
    decreases |more|
  {
    ExecKeeps(capacity, before);
    ExecKeeps(capacity, before + [Begin(p, id)] + more);
    AfterNext(capacity, before, p, id, more);
    if more != [] {
      var n := |more| - 1;
      GetsTheEntry(capacity, before, p, id, more[..n], j);
      GetsThrough(After(capacity, before, p, id, more[..n]), more[n], p, id, j);
    } else {
      var t0 := Exec(capacity, before);
      forall k: nat | k < j ensures GoneIf(t0, id, k) { }
      PassedOn(t0, Begin(p, id), id, j);
    }
  }

  // ---- when it may be told to come back ----

  lemma Push(capacity: nat, before: seq<Move>, p: nat, id: nat, more: seq<Move>, m: Move) returns (longer: seq<Move>)
    requires OneClaim(more, p) && m.Go?
    ensures longer == more + [m] && OneClaim(longer, p) && After(capacity, before, p, id, longer) == Do(After(capacity, before, p, id, more), m)
  {
    longer := more + [m];
    AfterNext(capacity, before, p, id, longer);
    assert longer[..|more|] == more;
  }

  /** The entry stays initializing, and the claimant's patience runs out. */
  lemma {:induction false} Spins(capacity: nat, before: seq<Move>, p: nat, id: nat, more: seq<Move>, i: nat, k: nat) returns (longer: seq<Move>)
    requires OneClaim(more, p) && k <= BUSY_SPINS
    requires var t := After(capacity, before, p, id, more);
             p in t.procs && t.procs[p] == Await(id, i, k, true) && i < |t.cells| && t.cells[i].state == Initializing
    ensures OneClaim(longer, p) && var t := After(capacity, before, p, id, longer); p in t.procs && t.procs[p] == Done(id, Busy)
    decreases BUSY_SPINS - k
  {
    longer := Push(capacity, before, p, id, more, Go(p));
    if k < BUSY_SPINS { longer := Spins(capacity, before, p, id, longer, i, k + 1); }
  }

  /** What a search stops at: an entry of the identity that is in use. */
  predicate Stops(t: Table, id: nat, i: nat) { i < |t.cells| && t.cells[i].state != Unused && t.cells[i].id == id }

  lemma {:induction false} SearchesTo(capacity: nat, before: seq<Move>, p: nat, id: nat, more: seq<Move>, n: nat, k: nat, i: nat)
    returns (longer: seq<Move>, at: nat)
    requires OneClaim(more, p) && k <= i < n
    requires var t := After(capacity, before, p, id, more); p in t.procs && t.procs[p] == Search(id, n, k) && Stops(t, id, i)
    ensures OneClaim(longer, p) && k <= at <= i
    ensures var t := After(capacity, before, p, id, longer);
            t.cells == After(capacity, before, p, id, more).cells && p in t.procs && t.procs[p] == Await(id, at, 0, true) && Stops(t, id, at)
    decreases i - k
  {
    var t := After(capacity, before, p, id, more);
    longer := Push(capacity, before, p, id, more, Go(p));
    at := k;
    if t.cells[k].state == Unused {
      longer, at := SearchesTo(capacity, before, p, id, longer, n, k + 1, i);
    } else {
      longer := Push(capacity, before, p, id, longer, Go(p));
      if t.cells[k].id != id { longer, at := SearchesTo(capacity, before, p, id, longer, n, k + 1, i); }
    }
  }

  lemma {:induction false} ExecHeld(capacity: nat, moves: seq<Move>, i: nat)
    requires i < |Exec(capacity, moves).takings|
    ensures Held(Exec(capacity, moves), i)
  {
    var n := |moves| - 1;
    ExecKeeps(capacity, moves);
    if moves != [] {
      var t := Exec(capacity, moves[..n]);
      ExecKeeps(capacity, moves[..n]);
      if moves[n].Go? && moves[n].p in t.procs {
        assert PcOk(t, moves[n].p, t.procs[moves[n].p]);
        if t.procs[moves[n].p].Search? { Takes(t, moves[n].p, t.procs[moves[n].p].id); }
      }
      if i < |t.takings| {
        ExecHeld(capacity, moves[..n], i);
        StillHeld(t, moves[n], i);
      }
    }
  }

  /** A claimant that took an index can always show it. */
  lemma Shows(capacity: nat, before: seq<Move>, p: nat, id: nat, more: seq<Move>, i: nat) returns (longer: seq<Move>)
    requires OneClaim(more, p)
    requires var t := After(capacity, before, p, id, more); i < |t.takings| && i < |t.cells| && t.takings[i].id == id && t.takings[i].fate == Working && !Gone(t, i)
    requires var t := After(capacity, before, p, id, more); p in t.procs && !Mine(t.procs[p])
    ensures OneClaim(longer, p) && Stops(After(capacity, before, p, id, longer), id, i)
    ensures var t, t' := After(capacity, before, p, id, more), After(capacity, before, p, id, longer);
            t'.takings == t.takings && p in t'.procs && t'.procs[p] == t.procs[p]
  {
    var t := After(capacity, before, p, id, more);
    ExecKeeps(capacity, before + [Begin(p, id)] + more);
    ExecHeld(capacity, before + [Begin(p, id)] + more, i);
    var q := t.takings[i].who;
    assert PcOk(t, q, t.procs[q]);
    longer := more;
    if t.procs[q].Took? { longer := Push(capacity, before, p, id, longer, Go(q)); }
    if After(capacity, before, p, id, longer).procs[q].Named? { longer := Push(capacity, before, p, id, longer, Go(q)); }
    assert CellOk(t, i);
  }

  lemma BusyFrom(capacity: nat, before: seq<Move>, p: nat, id: nat, more: seq<Move>, j: nat, i: nat) returns (longer: seq<Move>)
    requires OneClaim(more, p) && i < j
    requires var t := After(capacity, before, p, id, more); p in t.procs && t.procs[p] == Start(id) && Stops(t, id, i) && IsFirstReady(t, id, j)
    ensures OneClaim(longer, p) && var t := After(capacity, before, p, id, longer); p in t.procs && t.procs[p] == Done(id, Busy)
  {
    var t := After(capacity, before, p, id, more);
    ExecKeeps(capacity, before + [Begin(p, id)] + more);
    ReadyCell(t, id, j);
    longer := Push(capacity, before, p, id, more, Go(p));
    var at: nat;
    longer, at := SearchesTo(capacity, before, p, id, longer, |t.takings|, 0, i);
    assert !IsReady(t, id, at);
    Reads(t, at);
    longer := Spins(capacity, before, p, id, longer, at, 0);
  }

  /** The claim may be told to come back exactly when a lower claimant of its identity is in the way at its
      beginning; else it gets the first ready entry. */
  lemma BusyExactly(capacity: nat, before: seq<Move>, p: nat, id: nat, j: nat)
    requires Idle(Exec(capacity, before), p) && id != 0 && IsFirstReady(Exec(capacity, before), id, j)
    ensures InTheWay(Exec(capacity, before), id, j)
            <==> exists more: seq<Move> :: OneClaim(more, p) && EndsBusy(After(capacity, before, p, id, more), p)
  {
    var t0 := Exec(capacity, before);
    if InTheWay(t0, id, j) {
      var i :| 0 <= i < j && i < |t0.takings| && i < |t0.cells| && t0.takings[i].id == id && !Gone(t0, i);
      var more := BusyWhenInTheWay(capacity, before, p, id, j, i);
    } else if more: seq<Move> :| OneClaim(more, p) && EndsBusy(After(capacity, before, p, id, more), p) {
      GetsTheEntry(capacity, before, p, id, more, j);
    }
  }

  predicate EndsBusy(t: Table, p: nat) { p in t.procs && t.procs[p].Done? && t.procs[p].outcome == Busy }

  lemma BusyWhenInTheWay(capacity: nat, before: seq<Move>, p: nat, id: nat, j: nat, i: nat) returns (more: seq<Move>)
    requires Idle(Exec(capacity, before), p) && id != 0 && IsFirstReady(Exec(capacity, before), id, j) && i < j
    requires var t := Exec(capacity, before); i < |t.takings| && i < |t.cells| && t.takings[i].id == id && !Gone(t, i)
    ensures OneClaim(more, p) && EndsBusy(After(capacity, before, p, id, more), p)
  {
    var t0 := Exec(capacity, before);
    ExecKeeps(capacity, before);
    AfterNext(capacity, before, p, id, []);
    assert !IsReady(t0, id, i);
    more := Shows(capacity, before, p, id, [], i);
    forall k | 0 <= k < j ensures !IsReady(After(capacity, before, p, id, more), id, k) { assert !IsReady(t0, id, k); }
    more := BusyFrom(capacity, before, p, id, more, j, i);
  }

  /** It does happen: entry 1 is ready and the claimant of entry 0 has not named it yet. */
  lemma CanBeBusy(capacity: nat) returns (before: seq<Move>, more: seq<Move>)
    requires capacity >= 2
    ensures var t := Exec(capacity, before); |t.cells| == capacity && t.cells[1] == Cell(Ready, 7, true) && Idle(t, 2)
    ensures OneClaim(more, 2) && EndsBusy(After(capacity, before, 2, 7, more), 2)
  {
    before := SecondPasses(capacity);
    before := Goes(capacity, before, Go(1));
    before := Goes(capacity, before, Go(1));
    var t := Exec(capacity, before);
    assert t == Two(capacity, FRESH, Cell(Ready, 7, true), (Working, Published), Took(7, 0), Done(7, Entry(1)));
    assert IsFirstReady(t, 7, 1) && !Gone(t, 0);
    more := BusyWhenInTheWay(capacity, before, 2, 7, 1, 0);
  }
}
