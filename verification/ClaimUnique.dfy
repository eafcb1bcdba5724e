/** At most one ready entry per identity: what decides it. A claimant that took an index is hidden until
    it marks its entry initializing; a rescan that passes a lower claimant of its identity while that one
    is hidden is the only way to a second ready entry. */
module ClaimUnique {
  import opened Claims
  import opened ClaimRuns

  predicate OneReady(t: Table) {
    forall i, j {:trigger t.takings[i], t.takings[j]} | 0 <= i < j < |t.takings| ::
      t.takings[i].fate == Published && t.takings[j].fate == Published ==> t.takings[i].id != t.takings[j].id
  }

  /** The index was handed out, and its entry does not show it yet. */
  predicate Hidden(t: Table, i: nat) {
    i < |t.takings| && i < |t.cells| && t.takings[i].fate == Working && t.cells[i].state == Unused
  }

  /** The move is a rescan's look at a lower index of its identity that is hidden. */
  predicate Misses(t: Table, m: Move) {
    && m.Go? && m.p in t.procs && t.procs[m.p].Rescan?
    && var pc := t.procs[m.p]; pc.i < pc.n && pc.i < pc.mine && Hidden(t, pc.i) && t.takings[pc.i].id == pc.id
  }

  /** No rescan ever misses a claimant. */
  predicate Careful(capacity: nat, moves: seq<Move>) {
    moves == [] || (Careful(capacity, moves[..|moves| - 1]) && !Misses(Exec(capacity, moves[..|moves| - 1]), moves[|moves| - 1]))
  }

  // ---- what careful schedules keep ----

  /** The index was given up, or its claimant is about to. */
  predicate Gone(t: Table, k: nat)
    requires k < |t.takings| && k < |t.cells|
  {
    t.takings[k].fate == Released || (t.takings[k].fate == Working && t.cells[k].state == Initializing && t.cells[k].id == 0)
  }

  predicate GoneIf(t: Table, id: nat, k: nat) {
    k < |t.takings| && k < |t.cells| && t.takings[k].id == id ==> Gone(t, k)
  }

  /** Every index of the identity below the bound is gone. */
  predicate Passed(t: Table, id: nat, to: nat) {
    forall k: nat {:trigger GoneIf(t, id, k)} | k < to :: GoneIf(t, id, k)
  }

  /** The index showed itself. */
  predicate Shown(t: Table, i: nat) {
    i < |t.takings| && i < |t.cells| && (t.takings[i].fate == Working ==> t.cells[i].state == Initializing)
  }

  predicate Ahead(t: Table, pc: Pc) {
    match pc
    case Rescan(id, mine, n, i) => mine < n && Passed(t, id, Min(i, mine))
    case Check(id, mine, n, i, _) => mine < n && Passed(t, id, Min(i, mine)) && Shown(t, i)
    case Won(id, mine) => Passed(t, id, mine)
    case Filled(id, mine) => Passed(t, id, mine)
    case _ => true
  }

  predicate FirstOf(t: Table, j: nat)
    requires j < |t.takings|
  {
    t.takings[j].fate == Published ==> Passed(t, t.takings[j].id, j)
  }

  predicate CarefulInv(t: Table) {
    && Inv(t) && (forall p {:trigger t.procs[p]} | p in t.procs :: Ahead(t, t.procs[p]))
    && (forall j {:trigger FirstOf(t, j)} | 0 <= j < |t.takings| :: FirstOf(t, j))
  }

  lemma CarefulIsOne(t: Table)
    requires CarefulInv(t)
    ensures OneReady(t)
  {
    forall i, j {:trigger t.takings[i], t.takings[j]} | 0 <= i < j < |t.takings| && t.takings[i].fate == Published && t.takings[j].fate == Published
      ensures t.takings[i].id != t.takings[j].id
    {
      assert FirstOf(t, j) && GoneIf(t, t.takings[j].id, i) && CellOk(t, i);
    }
  }

  // ---- one step ----

  /** A step moves its claimant only, which keeps its identity and is finished for good once finished. */
  lemma StepMoves(t: Table, p: nat) returns (pc: Pc)
    requires p in t.procs
    ensures Step(t, p).procs == t.procs[p := pc]
    ensures pc.id == t.procs[p].id && (t.procs[p].Done? ==> pc.Done?)
  {
    assert t.procs == t.procs[p := t.procs[p]];
    pc := Step(t, p).procs[p];
  }

  /** A gone index stays gone and a shown one stays shown, wherever the mover is. */
  lemma MovesOnward(t: Table, m: Move, k: nat)
    requires m.Go? && m.p in t.procs ==> PcOk(t, m.p, t.procs[m.p])
    requires k < |t.takings| && k < |t.cells| && CellOk(t, k)
    ensures var t' := Do(t, m);
            && |t'.cells| == |t.cells| && k < |t'.takings| && t'.takings[k].id == t.takings[k].id
            && (Gone(t, k) ==> Gone(t', k)) && (Shown(t, k) ==> Shown(t', k))
  {
  }

  lemma Onward(t: Table, m: Move, k: nat)
    requires Inv(t) && k < |t.takings|
    ensures var t' := Do(t, m);
            && k < |t.cells| == |t'.cells| && k < |t'.takings| && t'.takings[k].id == t.takings[k].id
            && (Gone(t, k) ==> Gone(t', k)) && (Shown(t, k) ==> Shown(t', k))
  {
    Reads(t, k);
    assert CellOk(t, k);
    MovesOnward(t, m, k);
  }

  lemma PassedOn(t: Table, m: Move, id: nat, to: nat)
    requires Inv(t) && Passed(t, id, to) && to <= |t.takings|
    ensures Passed(Do(t, m), id, to)
  {
    var t' := Do(t, m);
    forall k: nat {:trigger GoneIf(t', id, k)} | k < to ensures GoneIf(t', id, k) {
      Onward(t, m, k);
      assert GoneIf(t, id, k);
    }
  }

  /** The others keep what they passed. */
  lemma AheadOn(t: Table, m: Move, q: nat)
    requires Inv(t) && q in t.procs && Ahead(t, t.procs[q])
    ensures Ahead(Do(t, m), t.procs[q])
  {
    var pc := t.procs[q];
    assert PcOk(t, q, pc);
    match pc
    case Rescan(id, mine, n, i) => PassedOn(t, m, id, Min(i, mine));
    case Check(id, mine, n, i, _) =>
      PassedOn(t, m, id, Min(i, mine));
      Onward(t, m, i);
    case Won(id, mine) => PassedOn(t, m, id, mine);
    case Filled(id, mine) => PassedOn(t, m, id, mine);
    case _ =>
  }

  /** The rescan goes past an entry that holds no claimant of its identity before its own index. */
  lemma GoesPast(t: Table, id: nat, mine: nat, i: nat)
    requires Passed(t, id, Min(i, mine)) && (i < mine ==> GoneIf(t, id, i))
    ensures Passed(t, id, Min(i + 1, mine))
  {
  }

  lemma RescanAhead(t: Table, p: nat)
    requires CarefulInv(t) && p in t.procs && t.procs[p].Rescan? && !Misses(t, Go(p))
    ensures p in Step(t, p).procs && Ahead(t, Step(t, p).procs[p])
  {
    var pc := t.procs[p];
    assert PcOk(t, p, pc) && Ahead(t, pc);
    if pc.i < pc.n {
      Reads(t, pc.i);
      assert CellOk(t, pc.i);
      if pc.i == pc.mine || t.cells[pc.i].state == Unused { GoesPast(t, pc.id, pc.mine, pc.i); }
    }
  }

  lemma CheckAhead(t: Table, p: nat)
    requires CarefulInv(t) && p in t.procs && t.procs[p].Check?
    ensures p in Step(t, p).procs && Ahead(t, Step(t, p).procs[p])
  {
    var pc := t.procs[p];
    assert PcOk(t, p, pc) && Ahead(t, pc);
    Reads(t, pc.i);
    assert CellOk(t, pc.i);
    if t.cells[pc.i].id != pc.id || !(pc.ready || pc.i < pc.mine) { GoesPast(t, pc.id, pc.mine, pc.i); }
  }

  /** A rescan begins with every lower index in view, and a won claim is filled as it was won. */
  lemma OthersAhead(t: Table, p: nat)
    requires Inv(t) && p in t.procs && Ahead(t, t.procs[p]) && !t.procs[p].Rescan? && !t.procs[p].Check?
    ensures p in Step(t, p).procs && Ahead(Step(t, p), Step(t, p).procs[p])
  {
    var pc := t.procs[p];
    assert PcOk(t, p, pc);
    if pc.Won? { PassedOn(t, Go(p), pc.id, pc.mine); }
  }

  /** Where the claimant itself comes to. */
  lemma SelfAhead(t: Table, p: nat)
    requires CarefulInv(t) && p in t.procs && !Misses(t, Go(p))
    ensures p in Step(t, p).procs && Ahead(Step(t, p), Step(t, p).procs[p])
  {
    var t' := Step(t, p);
    assert Ahead(t, t.procs[p]);
    if t.procs[p].Rescan? {
      RescanAhead(t, p);
      SameAhead(t, t', t'.procs[p]);
    } else if t.procs[p].Check? {
      CheckAhead(t, p);
      SameAhead(t, t', t'.procs[p]);
    } else {
      OthersAhead(t, p);
    }
  }

  lemma SameAhead(t: Table, t': Table, pc: Pc)
    requires t'.cells == t.cells && t'.takings == t.takings && Ahead(t, pc)
    ensures Ahead(t', pc)
  {
    match pc
    case Rescan(id, mine, n, i) => SamePassed(t, t', id, Min(i, mine));
    case Check(id, mine, n, i, _) => SamePassed(t, t', id, Min(i, mine));
    case Won(id, mine) => SamePassed(t, t', id, mine);
    case Filled(id, mine) => SamePassed(t, t', id, mine);
    case _ =>
  }

  lemma SamePassed(t: Table, t': Table, id: nat, to: nat)
    requires t'.cells == t.cells && t'.takings == t.takings && Passed(t, id, to)
    ensures Passed(t', id, to)
  {
    forall k: nat {:trigger GoneIf(t', id, k)} | k < to ensures GoneIf(t', id, k) { assert GoneIf(t, id, k); }
  }

  /** An index is published only by a claimant that passed every lower one of its identity. */
  lemma FirstOn(t: Table, m: Move, j: nat)
    requires CarefulInv(t) && j < |Do(t, m).takings|
    ensures FirstOf(Do(t, m), j)
  {
    if j < |t.takings| {
      assert FirstOf(t, j);
      Onward(t, m, j);
      if t.takings[j].fate == Published {
        PassedOn(t, m, t.takings[j].id, j);
      } else if m.Go? && m.p in t.procs && t.procs[m.p].Filled? && t.procs[m.p].mine == j {
        assert PcOk(t, m.p, t.procs[m.p]) && Ahead(t, t.procs[m.p]);
        PassedOn(t, m, t.takings[j].id, j);
      }
    }
  }

  lemma AheadNext(t: Table, m: Move, q: nat)
    requires CarefulInv(t) && !Misses(t, m) && q in Do(t, m).procs
    ensures Ahead(Do(t, m), Do(t, m).procs[q])
  {
    if m.Go? && q == m.p {
      SelfAhead(t, q);
    } else {
      if m.Go? && m.p in t.procs { var _ := StepMoves(t, m.p); }
      if q in t.procs && Do(t, m).procs[q] == t.procs[q] {
        assert Ahead(t, t.procs[q]);
        AheadOn(t, m, q);
      }
    }
  }

  lemma DoCarefully(t: Table, m: Move)
    requires CarefulInv(t) && !Misses(t, m)
    ensures CarefulInv(Do(t, m))
  {
    var t' := Do(t, m);
    DoKeeps(t, m);
    forall q {:trigger t'.procs[q]} | q in t'.procs ensures Ahead(t', t'.procs[q]) { AheadNext(t, m, q); }
    forall j {:trigger FirstOf(t', j)} | 0 <= j < |t'.takings| ensures FirstOf(t', j) { FirstOn(t, m, j); }
  }

  /** Whatever else overlaps, while no rescan misses a claimant at most one entry of each identity is
      ever ready. */
  lemma {:induction false} CarefulIsUnique(capacity: nat, moves: seq<Move>)
    requires Careful(capacity, moves)
    ensures CarefulInv(Exec(capacity, moves)) && OneReady(Exec(capacity, moves))
  {
    ExecKeeps(capacity, moves);
    if moves != [] {
      CarefulIsUnique(capacity, moves[..|moves| - 1]);
      DoCarefully(Exec(capacity, moves[..|moves| - 1]), moves[|moves| - 1]);
    }
    CarefulIsOne(Exec(capacity, moves));
  }

  // ---- claims that do not overlap ----

  /** A claim for an identity begins only while no other one for it is under way. */
  predicate MaySerially(t: Table, m: Move) {
    m.Begin? ==> forall q {:trigger t.procs[q]} | q in t.procs && q != m.p && t.procs[q].id == m.id :: t.procs[q].Done?
  }

  predicate Serial(capacity: nat, moves: seq<Move>) {
    moves == [] || (Serial(capacity, moves[..|moves| - 1]) && MaySerially(Exec(capacity, moves[..|moves| - 1]), moves[|moves| - 1]))
  }

  /** An index being worked on is the one its owner holds. */
  predicate Held(t: Table, i: nat)
    requires i < |t.takings|
  {
    var p := t.takings[i].who;
    t.takings[i].fate == Working ==> p in t.procs && Mine(t.procs[p]) && t.procs[p].mine == i && t.procs[p].id == t.takings[i].id
  }

  predicate Exclusive(t: Table) {
    forall p, q {:trigger t.procs[p], t.procs[q]} | p in t.procs && q in t.procs && p != q && !t.procs[p].Done? && !t.procs[q].Done? ::
      t.procs[p].id != t.procs[q].id
  }

  predicate SerialInv(t: Table) {
    Inv(t) && Exclusive(t) && forall i {:trigger Held(t, i)} | 0 <= i < |t.takings| :: Held(t, i)
  }

  /** Where the mover was and what is held decide what is held next. */
  lemma StillHeld(t: Table, m: Move, i: nat)
    requires m.Go? && m.p in t.procs ==> PcOk(t, m.p, t.procs[m.p])
    requires i < |t.takings| && Held(t, i)
    ensures i < |Do(t, m).takings| && Held(Do(t, m), i)
  {
  }

  lemma HeldOn(t: Table, m: Move, i: nat)
    requires SerialInv(t) && i < |Do(t, m).takings|
    ensures Held(Do(t, m), i)
  {
    if m.Go? && m.p in t.procs && t.procs[m.p].Search? { Takes(t, m.p, t.procs[m.p].id); }
    if i < |t.takings| {
      assert Held(t, i);
      StillHeld(t, m, i);
    }
  }

  /** A move leaves each claimant the identity it had, or brings in one. */
  lemma SameIdentity(t: Table, m: Move, q: nat)
    requires q in Do(t, m).procs && !Do(t, m).procs[q].Done?
    ensures (q in t.procs && !t.procs[q].Done? && Do(t, m).procs[q].id == t.procs[q].id)
            || (m.Begin? && m.p == q && Do(t, m).procs[q].id == m.id && Do(t, m) != t)
  {
    if m.Go? && m.p in t.procs { var _ := StepMoves(t, m.p); }
  }

  lemma ExclusiveOn(t: Table, m: Move)
    requires Exclusive(t) && MaySerially(t, m)
    ensures Exclusive(Do(t, m))
  {
    var t' := Do(t, m);
    forall p, q {:trigger t'.procs[p], t'.procs[q]} | p in t'.procs && q in t'.procs && p != q && !t'.procs[p].Done? && !t'.procs[q].Done?
      ensures t'.procs[p].id != t'.procs[q].id
    {
      SameIdentity(t, m, p);
      SameIdentity(t, m, q);
    }
  }

  lemma MissesNobody(t: Table, m: Move)
    requires SerialInv(t)
    ensures !Misses(t, m)
  {
    if m.Go? && m.p in t.procs && t.procs[m.p].Rescan? {
      assert PcOk(t, m.p, t.procs[m.p]);
      if t.procs[m.p].i < |t.takings| { assert Held(t, t.procs[m.p].i); }
    }
  }

  lemma DoSerially(t: Table, m: Move)
    requires SerialInv(t) && MaySerially(t, m)
    ensures SerialInv(Do(t, m)) && !Misses(t, m)
  {
    DoKeeps(t, m);
    ExclusiveOn(t, m);
    MissesNobody(t, m);
    forall i {:trigger Held(Do(t, m), i)} | 0 <= i < |Do(t, m).takings| ensures Held(Do(t, m), i) { HeldOn(t, m, i); }
  }

  /** Claims for one identity that do not overlap miss nobody, whatever the others do. */
  lemma {:induction false} SerialIsCareful(capacity: nat, moves: seq<Move>)
    requires Serial(capacity, moves)
    ensures SerialInv(Exec(capacity, moves)) && Careful(capacity, moves)
  {
    ExecKeeps(capacity, moves);
    if moves != [] {
      SerialIsCareful(capacity, moves[..|moves| - 1]);
      DoSerially(Exec(capacity, moves[..|moves| - 1]), moves[|moves| - 1]);
    }
  }

  // ---- and when a rescan does pass one ----

  /** Two claimants of identity 7 and the first two entries. */
  function Two(capacity: nat, a: Cell, b: Cell, fates: (Fate, Fate), first: Pc, second: Pc): Table
    requires capacity >= 2
  {
    Table(2, Empty(capacity).cells[0 := a][1 := b], [Taking(0, 7, fates.0), Taking(1, 7, fates.1)], map[0 := first, 1 := second])
  }

  lemma Goes(capacity: nat, moves: seq<Move>, m: Move) returns (more: seq<Move>)
    ensures more == moves + [m] && Exec(capacity, more) == Do(Exec(capacity, moves), m)
  {
    more := moves + [m];
    assert more[..|moves|] == moves;
  }

  /** The first takes index 0 and pauses; the second takes index 1. */
  lemma BothTake(capacity: nat) returns (moves: seq<Move>)
    requires capacity >= 2
    ensures Exec(capacity, moves) == Two(capacity, FRESH, FRESH, (Working, Working), Took(7, 0), Took(7, 1))
  {
    var c := Empty(capacity).cells;
    moves := Goes(capacity, [], Begin(0, 7));
    moves := Goes(capacity, moves, Go(0));
    moves := Goes(capacity, moves, Go(0));
    assert Exec(capacity, moves) == Table(1, c, [Taking(0, 7, Working)], map[0 := Took(7, 0)]);
    moves := Goes(capacity, moves, Begin(1, 7));
    moves := Goes(capacity, moves, Go(1));
    assert Exec(capacity, moves) == Table(1, c, [Taking(0, 7, Working)], map[0 := Took(7, 0), 1 := Search(7, 1, 0)]);
    moves := Goes(capacity, moves, Go(1));
    moves := Goes(capacity, moves, Go(1));
    assert Exec(capacity, moves) == Table(2, c, [Taking(0, 7, Working), Taking(1, 7, Working)], map[0 := Took(7, 0), 1 := Took(7, 1)]);
    assert c[0 := FRESH][1 := FRESH] == c;
  }

  /** The second's rescan passes the first, whose entry does not show yet. */
  lemma SecondPasses(capacity: nat) returns (moves: seq<Move>)
    requires capacity >= 2
    ensures Exec(capacity, moves)
            == Two(capacity, FRESH, Cell(Initializing, 7, false), (Working, Working), Took(7, 0), Won(7, 1))
  {
    var mid := Cell(Initializing, 7, false);
    moves := BothTake(capacity);
    moves := Goes(capacity, moves, Go(1));
    moves := Goes(capacity, moves, Go(1));
    assert Exec(capacity, moves) == Two(capacity, FRESH, mid, (Working, Working), Took(7, 0), Marked(7, 1));
    moves := Goes(capacity, moves, Go(1));
    moves := Goes(capacity, moves, Go(1));
    assert Exec(capacity, moves) == Two(capacity, FRESH, mid, (Working, Working), Took(7, 0), Rescan(7, 1, 2, 1));
    moves := Goes(capacity, moves, Go(1));
    moves := Goes(capacity, moves, Go(1));
  }

  lemma FirstRescans(capacity: nat) returns (moves: seq<Move>)
    requires capacity >= 2
    ensures Exec(capacity, moves)
            == Two(capacity, Cell(Initializing, 7, false), Cell(Initializing, 7, false), (Working, Working), Rescan(7, 0, 2, 1), Won(7, 1))
  {
    var mid := Cell(Initializing, 7, false);
    moves := SecondPasses(capacity);
    moves := Goes(capacity, moves, Go(0));
    moves := Goes(capacity, moves, Go(0));
    assert Exec(capacity, moves) == Two(capacity, mid, mid, (Working, Working), Marked(7, 0), Won(7, 1));
    moves := Goes(capacity, moves, Go(0));
    moves := Goes(capacity, moves, Go(0));
  }

  /** The first's rescan passes the second, which has the higher index; */
  lemma FirstPasses(capacity: nat) returns (moves: seq<Move>)
    requires capacity >= 2
    ensures Exec(capacity, moves)
            == Two(capacity, Cell(Initializing, 7, false), Cell(Initializing, 7, false), (Working, Working), Won(7, 0), Won(7, 1))
  {
    moves := FirstRescans(capacity);
    moves := Goes(capacity, moves, Go(0));
    moves := Goes(capacity, moves, Go(0));
    moves := Goes(capacity, moves, Go(0));
  }

  /** the first is ready. */
  lemma FirstIsReady(capacity: nat) returns (moves: seq<Move>)
    requires capacity >= 2
    ensures Exec(capacity, moves)
            == Two(capacity, Cell(Ready, 7, true), Cell(Initializing, 7, false), (Published, Working), Done(7, Entry(0)), Won(7, 1))
  {
    moves := FirstPasses(capacity);
    moves := Goes(capacity, moves, Go(0));
    moves := Goes(capacity, moves, Go(0));
  }

  /** Overlapping claims can leave two ready entries of one identity, in any table of two or more. */
  lemma OverlapIsNotUnique(capacity: nat) returns (moves: seq<Move>)
    requires capacity >= 2
    ensures !Careful(capacity, moves) && !Serial(capacity, moves) && !OneReady(Exec(capacity, moves))
    ensures var t := Exec(capacity, moves);
            |t.cells| == capacity && t.cells[0] == Cell(Ready, 7, true) && t.cells[1] == Cell(Ready, 7, true)
  {
    var ready := Cell(Ready, 7, true);
    moves := FirstIsReady(capacity);
    moves := Goes(capacity, moves, Go(1));
    moves := Goes(capacity, moves, Go(1));
    var t := Exec(capacity, moves);
    assert t == Two(capacity, ready, ready, (Published, Published), Done(7, Entry(0)), Done(7, Entry(1)));
    assert t.takings[0].fate == Published && t.takings[1].fate == Published;
    if Serial(capacity, moves) { SerialIsCareful(capacity, moves); }
    if Careful(capacity, moves) { CarefulIsUnique(capacity, moves); }
  }

  lemma OneEntryIsUnique(capacity: nat, moves: seq<Move>)
    requires capacity < 2
    ensures OneReady(Exec(capacity, moves))
  {
    ExecKeeps(capacity, moves);
  }

  /** So overlapping claims are safe exactly when the table cannot hold two entries. */
  lemma UniqueExactlyWhenSmall(capacity: nat)
    ensures (forall moves: seq<Move> :: OneReady(Exec(capacity, moves))) <==> capacity < 2
  {
    if capacity < 2 {
      forall moves: seq<Move> ensures OneReady(Exec(capacity, moves)) { OneEntryIsUnique(capacity, moves); }
    } else {
      var moves := OverlapIsNotUnique(capacity);
      assert !OneReady(Exec(capacity, moves));
    }
  }
}
