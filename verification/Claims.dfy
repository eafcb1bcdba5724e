/** The cross-process claim table: find the published entry of an identity, or take a fresh one,
    fill it and publish it. One step is one atomic access; any claimant may stop for good
    between two of its steps. */
module Claims {

  datatype State = Unused | Initializing | Ready

  /** An entry: its publication byte, its identity (0 is none) and whether it was filled. */
  datatype Cell = Cell(state: State, id: nat, filled: bool)

  const FRESH := Cell(Unused, 0, false)

  const BUSY_SPINS: nat := 4096

  datatype Outcome = Entry(i: nat) | Busy | Full

  /** Where a claimant is. `n` is the count it loaded, `i` the entry it looks at, `mine` the one
      it took, `k` how often it re-read a publication byte. */
  datatype Pc =
    | Start(id: nat)
    | Search(id: nat, n: nat, i: nat)
    | Look(id: nat, n: nat, i: nat)
    | Await(id: nat, i: nat, k: nat, retry: bool)
    | Over(id: nat)
    | Took(id: nat, mine: nat)
    | Named(id: nat, mine: nat)
    | Marked(id: nat, mine: nat)
    | Rescan(id: nat, mine: nat, n: nat, i: nat)
    | Check(id: nat, mine: nat, n: nat, i: nat, ready: bool)
    | Yields(id: nat, mine: nat, i: nat)
    | Unnamed(id: nat, mine: nat, i: nat)
    | Won(id: nat, mine: nat)
    | Filled(id: nat, mine: nat)
    | Done(id: nat, outcome: Outcome)

  /** What became of an index that was handed out. */
  datatype Fate = Working | Published | Released

  datatype Taking = Taking(who: nat, id: nat, fate: Fate)

  /** The table, the claimants, and the log of every index handed out. */
  datatype Table = Table(count: nat, cells: seq<Cell>, takings: seq<Taking>, procs: map<nat, Pc>)

  datatype Move = Begin(p: nat, id: nat) | Go(p: nat)

  function Min(a: nat, b: nat): nat { if a < b then a else b }

  function Entries(t: Table): nat { Min(t.count, |t.cells|) }

  function At(t: Table, p: nat, pc: Pc): Table { t.(procs := t.procs[p := pc]) }

  function Put(t: Table, i: nat, cell: Cell): Table
    requires i < |t.cells|
  {
    t.(cells := t.cells[i := cell])
  }

  function Settle(t: Table, i: nat, fate: Fate): Table {
    if i < |t.takings| then t.(takings := t.takings[i := t.takings[i].(fate := fate)]) else t
  }

  /** A load of the publication byte of entry `i`, while waiting for it to leave initializing. */
  function Awaited(pc: Pc, state: State): Pc
    requires pc.Await?
  {
    match state
    case Ready => Done(pc.id, Entry(pc.i))
    case Unused => if pc.retry then Start(pc.id) else Done(pc.id, Busy)
    case Initializing => if pc.k < BUSY_SPINS then pc.(k := pc.k + 1) else Done(pc.id, Busy)
  }

  /** The fetch-and-add, once the search found nothing. */
  function Taken(t: Table, p: nat, id: nat): Table {
    var t' := t.(count := t.count + 1);
    if t.count >= |t.cells| then At(t', p, Over(id))
    else At(t'.(takings := t.takings + [Taking(p, id, Working)]), p, Took(id, t.count))
  }

  /** One atomic step of claimant `p`. */
  function Step(t: Table, p: nat): Table
    requires p in t.procs
  {
    match t.procs[p]
    case Start(id) => At(t, p, Search(id, Entries(t), 0))
    case Search(id, n, i) =>
      if i >= n || i >= |t.cells| then Taken(t, p, id)
      else if t.cells[i].state == Unused then At(t, p, Search(id, n, i + 1))
      else At(t, p, Look(id, n, i))
    case Look(id, n, i) =>
      if i < |t.cells| && t.cells[i].id == id then At(t, p, Await(id, i, 0, true)) else At(t, p, Search(id, n, i + 1))
    case Await(id, i, k, retry) => if i < |t.cells| then At(t, p, Awaited(t.procs[p], t.cells[i].state)) else t
    case Over(id) => At(t.(count := if t.count > 0 then t.count - 1 else 0), p, Done(id, Full))
    case Took(id, mine) => if mine < |t.cells| then At(Put(t, mine, t.cells[mine].(id := id)), p, Named(id, mine)) else t
    case Named(id, mine) =>
      if mine < |t.cells| then At(Put(t, mine, t.cells[mine].(state := Initializing)), p, Marked(id, mine)) else t
    case Marked(id, mine) => At(t, p, Rescan(id, mine, Entries(t), 0))
    case Rescan(id, mine, n, i) =>
      if i >= n || i >= |t.cells| then At(t, p, Won(id, mine))
      else if i == mine || t.cells[i].state == Unused then At(t, p, Rescan(id, mine, n, i + 1))
      else At(t, p, Check(id, mine, n, i, t.cells[i].state == Ready))
    case Check(id, mine, n, i, ready) =>
      if i < |t.cells| && t.cells[i].id == id && (ready || i < mine) then At(t, p, Yields(id, mine, i))
      else At(t, p, Rescan(id, mine, n, i + 1))
    case Yields(id, mine, i) => if mine < |t.cells| then At(Put(t, mine, t.cells[mine].(id := 0)), p, Unnamed(id, mine, i)) else t
    case Unnamed(id, mine, i) =>
      if mine < |t.cells| then
        Settle(At(Put(t, mine, t.cells[mine].(state := Unused)), p, Await(id, i, 0, false)), mine, Released)
      else t
    case Won(id, mine) => if mine < |t.cells| then At(Put(t, mine, t.cells[mine].(filled := true)), p, Filled(id, mine)) else t
    case Filled(id, mine) =>
      if mine < |t.cells| then
        Settle(At(Put(t, mine, t.cells[mine].(state := Ready)), p, Done(id, Entry(mine))), mine, Published)
      else t
    case Done(_, _) => t
  }

  predicate Idle(t: Table, p: nat) { p !in t.procs || t.procs[p].Done? }

  function Do(t: Table, m: Move): Table {
    match m
    case Begin(p, id) => if Idle(t, p) && id != 0 then At(t, p, Start(id)) else t
    case Go(p) => if p in t.procs then Step(t, p) else t
  }

  function Empty(capacity: nat): Table { Table(0, seq(capacity, _ => FRESH), [], map[]) }

  /** The table after a schedule: any number of claimants, in any order, each as far as it gets. */
  function Exec(capacity: nat, moves: seq<Move>): Table {
    if moves == [] then Empty(capacity) else Do(Exec(capacity, moves[..|moves| - 1]), moves[|moves| - 1])
  }

  // ---- what every schedule keeps ----

  function Overs(t: Table): set<nat> { set p | p in t.procs && t.procs[p].Over? }

  predicate Counted(t: Table) {
    && t.count == |t.takings| + |Overs(t)| && |t.takings| <= |t.cells|
    && (Overs(t) != {} ==> |t.takings| == |t.cells|)
  }

  /** Entry `i` by the fate of the index. */
  predicate CellOk(t: Table, i: nat)
    requires i < |t.cells|
  {
    if i >= |t.takings| then t.cells[i] == FRESH
    else
      match t.takings[i].fate
      case Published => t.cells[i] == Cell(Ready, t.takings[i].id, true)
      case Released => t.cells[i].state == Unused && t.cells[i].id == 0
      case Working => t.cells[i].state != Ready && t.cells[i].id in {0, t.takings[i].id}
  }

  /** Another claimant of the same identity is published, or took a lower index. */
  predicate YieldsTo(t: Table, mine: nat, i: nat) {
    && i < |t.takings| && mine < |t.takings| && i != mine && t.takings[i].id == t.takings[mine].id
    && (t.takings[i].fate == Published || i < mine)
  }

  predicate Excused(t: Table, mine: nat) { exists i | 0 <= i < |t.takings| :: YieldsTo(t, mine, i) }

  predicate Owns(t: Table, p: nat, id: nat, mine: nat, cell: Cell) {
    mine < |t.takings| && mine < |t.cells| && t.takings[mine] == Taking(p, id, Working) && t.cells[mine] == cell
  }

  predicate PcOk(t: Table, p: nat, pc: Pc) {
    pc.id != 0 &&
    match pc
    case Start(id) => true
    case Search(id, n, i) => i <= n <= |t.takings|
    case Look(id, n, i) => i < n <= |t.takings|
    case Await(id, i, k, retry) => i < |t.takings| && t.takings[i].id == id
    case Over(id) => true
    case Took(id, mine) => Owns(t, p, id, mine, FRESH)
    case Named(id, mine) => Owns(t, p, id, mine, Cell(Unused, id, false))
    case Marked(id, mine) => Owns(t, p, id, mine, Cell(Initializing, id, false))
    case Rescan(id, mine, n, i) => Owns(t, p, id, mine, Cell(Initializing, id, false)) && i <= n <= |t.takings|
    case Check(id, mine, n, i, ready) =>
      && Owns(t, p, id, mine, Cell(Initializing, id, false)) && i < n <= |t.takings| && i != mine
      && (ready ==> t.takings[i].fate == Published)
    case Yields(id, mine, i) => Owns(t, p, id, mine, Cell(Initializing, id, false)) && YieldsTo(t, mine, i)
    case Unnamed(id, mine, i) => Owns(t, p, id, mine, Cell(Initializing, 0, false)) && YieldsTo(t, mine, i)
    case Won(id, mine) => Owns(t, p, id, mine, Cell(Initializing, id, false))
    case Filled(id, mine) => Owns(t, p, id, mine, Cell(Initializing, id, true))
    case Done(id, outcome) =>
      && (outcome.Entry? ==> outcome.i < |t.takings| && t.takings[outcome.i].id == id && t.takings[outcome.i].fate == Published)
      && (outcome.Full? ==> |t.takings| == |t.cells|)
  }

  predicate Inv(t: Table) {
    && Counted(t)
    && (forall i {:trigger CellOk(t, i)} | 0 <= i < |t.cells| :: CellOk(t, i))
    && (forall i {:trigger t.takings[i]} | 0 <= i < |t.takings| :: t.takings[i].id != 0)
    && (forall i {:trigger Excused(t, i)} | 0 <= i < |t.takings| && t.takings[i].fate == Released :: Excused(t, i))
    && (forall p {:trigger t.procs[p]} | p in t.procs :: PcOk(t, p, t.procs[p]))
  }

  /** What one step may change: claimant `p`'s place, one index it owns or takes. */
  predicate Later(t: Table, t': Table, p: nat) {
    && |t.takings| <= |t'.takings| && |t'.cells| == |t.cells|
    && (forall i {:trigger t'.takings[i]} {:trigger t.takings[i]} | 0 <= i < |t.takings| ::
          && t'.takings[i].id == t.takings[i].id && t'.takings[i].who == t.takings[i].who
          && (t.takings[i].fate != Working || t.takings[i].who != p ==>
                t'.takings[i] == t.takings[i] && (i < |t.cells| ==> t'.cells[i] == t.cells[i])))
  }

  lemma YieldsLater(t: Table, t': Table, p: nat, mine: nat, i: nat)
    requires Later(t, t', p) && YieldsTo(t, mine, i)
    ensures YieldsTo(t', mine, i)
  {
  }

  lemma PcLater(t: Table, t': Table, p: nat, q: nat, pc: Pc)
    requires Later(t, t', p) && q != p && PcOk(t, q, pc) && |t'.takings| <= |t'.cells|
    ensures PcOk(t', q, pc)
  {
    match pc
    case Yields(id, mine, i) => YieldsLater(t, t', p, mine, i);
    case Unnamed(id, mine, i) => YieldsLater(t, t', p, mine, i);
    case _ =>
  }

  /** The invariant from what the step did: the others follow. */
  lemma Keeps(t: Table, t': Table, p: nat, pc': Pc)
    requires Inv(t) && Later(t, t', p) && t'.procs == t.procs[p := pc'] && PcOk(t', p, pc') && Counted(t')
    requires forall i {:trigger CellOk(t', i)} | 0 <= i < |t'.cells| :: CellOk(t', i)
    requires forall i {:trigger t'.takings[i]} | |t.takings| <= i < |t'.takings| :: t'.takings[i].id != 0 && t'.takings[i].fate == Working
    requires forall i {:trigger t'.takings[i]} | 0 <= i < |t.takings| && t'.takings[i].fate == Released ::
               t.takings[i].fate == Released || Excused(t', i)
    ensures Inv(t')
  {
    forall q {:trigger t'.procs[q]} | q in t'.procs ensures PcOk(t', q, t'.procs[q]) {
      if q != p { PcLater(t, t', p, q, t.procs[q]); }
    }
    forall i {:trigger Excused(t', i)} | 0 <= i < |t'.takings| && t'.takings[i].fate == Released ensures Excused(t', i) {
      if i < |t.takings| && t.takings[i].fate == Released {
        assert Excused(t, i);
        var j :| YieldsTo(t, i, j);
        YieldsLater(t, t', p, i, j);
      }
    }
  }

  // ---- one step ----

  lemma SameOvers(t: Table, p: nat, pc: Pc)
    requires p in t.procs ==> !t.procs[p].Over?
    requires !pc.Over?
    ensures Overs(At(t, p, pc)) == Overs(t)
  {
  }

  /** A step that only moves the claimant on. */
  lemma MovesOn(t: Table, p: nat, pc: Pc)
    requires Inv(t) && (p in t.procs ==> !t.procs[p].Over?) && !pc.Over? && PcOk(t, p, pc)
    ensures Inv(At(t, p, pc))
  {
    var t' := At(t, p, pc);
    SameOvers(t, p, pc);
    assert PcOk(t', p, pc) by { PcSame(t, t', p, pc); }
    forall i {:trigger CellOk(t', i)} | 0 <= i < |t'.cells| ensures CellOk(t', i) { assert CellOk(t, i); }
    Keeps(t, t', p, pc);
  }

  lemma PcSame(t: Table, t': Table, p: nat, pc: Pc)
    requires t'.cells == t.cells && t'.takings == t.takings && PcOk(t, p, pc)
    ensures PcOk(t', p, pc)
  {
  }

  /** A store to the entry the claimant owns, which it keeps working on. */
  lemma Stores(t: Table, p: nat, mine: nat, cell: Cell, pc: Pc)
    requires Inv(t) && p in t.procs && !t.procs[p].Over? && !pc.Over?
    requires mine < |t.takings| && mine < |t.cells| && t.takings[mine].who == p && t.takings[mine].fate == Working
    requires cell.state != Ready && cell.id in {0, t.takings[mine].id}
    requires PcOk(Put(t, mine, cell), p, pc)
    ensures Inv(At(Put(t, mine, cell), p, pc))
  {
    var t' := At(Put(t, mine, cell), p, pc);
    SameOvers(t, p, pc);
    PcSame(Put(t, mine, cell), t', p, pc);
    forall i {:trigger CellOk(t', i)} | 0 <= i < |t'.cells| ensures CellOk(t', i) { assert CellOk(t, i); }
    Keeps(t, t', p, pc);
  }

  /** The last store: the entry is published, or released. */
  lemma Settles(t: Table, p: nat, mine: nat, cell: Cell, fate: Fate, pc: Pc)
    requires Inv(t) && p in t.procs && !t.procs[p].Over? && !pc.Over?
    requires mine < |t.takings| && mine < |t.cells| && t.takings[mine].who == p && t.takings[mine].fate == Working
    requires fate == Published ==> cell == Cell(Ready, t.takings[mine].id, true)
    requires fate == Released ==> cell.state == Unused && cell.id == 0 && Excused(t, mine)
    requires fate != Working && PcOk(Settle(At(Put(t, mine, cell), p, pc), mine, fate), p, pc)
    ensures Inv(Settle(At(Put(t, mine, cell), p, pc), mine, fate))
  {
    var t' := Settle(At(Put(t, mine, cell), p, pc), mine, fate);
    SameOvers(t, p, pc);
    assert Overs(t') == Overs(At(t, p, pc));
    forall i {:trigger CellOk(t', i)} | 0 <= i < |t'.cells| ensures CellOk(t', i) { assert CellOk(t, i); }
    if fate == Released {
      var i :| 0 <= i < |t.takings| && YieldsTo(t, mine, i);
      YieldsLater(t, t', p, mine, i);
    }
    Keeps(t, t', p, pc);
  }

  /** An index is handed out: one no claimant had before. */
  lemma Takes(t: Table, p: nat, id: nat)
    requires Inv(t) && p in t.procs && !t.procs[p].Over? && id != 0
    ensures Inv(Taken(t, p, id))
    ensures t.count < |t.cells| ==> t.count == |t.takings|
  {
    var t' := Taken(t, p, id);
    if t.count >= |t.cells| {
      assert Overs(t') == Overs(t) + {p};
    } else {
      SameOvers(t, p, Took(id, t.count));
      assert Overs(t') == Overs(t);
      assert CellOk(t, t.count);
    }
    forall i {:trigger CellOk(t', i)} | 0 <= i < |t'.cells| ensures CellOk(t', i) { assert CellOk(t, i); }
    Keeps(t, t', p, t'.procs[p]);
  }

  lemma GivesBack(t: Table, p: nat)
    requires Inv(t) && p in t.procs && t.procs[p].Over?
    ensures Inv(Step(t, p))
  {
    var t' := Step(t, p);
    assert Overs(t') == Overs(t) - {p};
    assert p in Overs(t);
    forall i {:trigger CellOk(t', i)} | 0 <= i < |t'.cells| ensures CellOk(t', i) { assert CellOk(t, i); }
    Keeps(t, t', p, t'.procs[p]);
  }

  lemma EntriesTaken(t: Table)
    requires Inv(t)
    ensures Entries(t) <= |t.takings|
  {
  }

  /** A search or a rescan reads what the log of indices says. */
  lemma Reads(t: Table, i: nat)
    requires Inv(t) && i < |t.takings|
    ensures i < |t.cells|
    ensures t.cells[i].state == Ready <==> t.takings[i].fate == Published
    ensures t.cells[i].id in {0, t.takings[i].id} && t.takings[i].id != 0
  {
    assert CellOk(t, i);
  }

  lemma SearchStep(t: Table, p: nat)
    requires Inv(t) && p in t.procs && (t.procs[p].Start? || t.procs[p].Search? || t.procs[p].Look? || t.procs[p].Await?)
    ensures Inv(Step(t, p))
  {
    var pc := t.procs[p];
    EntriesTaken(t);
    match pc
    case Start(id) => MovesOn(t, p, Search(id, Entries(t), 0));
    case Search(id, n, i) =>
      if i >= n || i >= |t.cells| { Takes(t, p, id); }
      else if t.cells[i].state == Unused { MovesOn(t, p, Search(id, n, i + 1)); }
      else { MovesOn(t, p, Look(id, n, i)); }
    case Look(id, n, i) =>
      Reads(t, i);
      if t.cells[i].id == id { MovesOn(t, p, Await(id, i, 0, true)); } else { MovesOn(t, p, Search(id, n, i + 1)); }
    case Await(id, i, k, retry) =>
      Reads(t, i);
      MovesOn(t, p, Awaited(pc, t.cells[i].state));
  }

  lemma RescanStep(t: Table, p: nat)
    requires Inv(t) && p in t.procs && (t.procs[p].Marked? || t.procs[p].Rescan? || t.procs[p].Check?)
    ensures Inv(Step(t, p))
  {
    var pc := t.procs[p];
    EntriesTaken(t);
    match pc
    case Marked(id, mine) => MovesOn(t, p, Rescan(id, mine, Entries(t), 0));
    case Rescan(id, mine, n, i) =>
      if i >= n || i >= |t.cells| { MovesOn(t, p, Won(id, mine)); }
      else if i == mine || t.cells[i].state == Unused { MovesOn(t, p, Rescan(id, mine, n, i + 1)); }
      else {
        Reads(t, i);
        MovesOn(t, p, Check(id, mine, n, i, t.cells[i].state == Ready));
      }
    case Check(id, mine, n, i, ready) =>
      Reads(t, i);
      if t.cells[i].id == id && (ready || i < mine) { MovesOn(t, p, Yields(id, mine, i)); }
      else { MovesOn(t, p, Rescan(id, mine, n, i + 1)); }
  }

  lemma OwnStep(t: Table, p: nat)
    requires Inv(t) && p in t.procs && (t.procs[p].Took? || t.procs[p].Named? || t.procs[p].Yields? || t.procs[p].Won?)
    ensures Inv(Step(t, p))
  {
    var pc := t.procs[p];
    var mine := pc.mine;
    match pc
    case Took(id, _) => Stores(t, p, mine, t.cells[mine].(id := id), Named(id, mine));
    case Named(id, _) => Stores(t, p, mine, t.cells[mine].(state := Initializing), Marked(id, mine));
    case Yields(id, _, i) => Stores(t, p, mine, t.cells[mine].(id := 0), Unnamed(id, mine, i));
    case Won(id, _) => Stores(t, p, mine, t.cells[mine].(filled := true), Filled(id, mine));
  }

  lemma LastStep(t: Table, p: nat)
    requires Inv(t) && p in t.procs && (t.procs[p].Unnamed? || t.procs[p].Filled?)
    ensures Inv(Step(t, p))
  {
    var pc := t.procs[p];
    var mine := pc.mine;
    match pc
    case Unnamed(id, _, i) =>
      assert YieldsTo(t, mine, i);
      Settles(t, p, mine, t.cells[mine].(state := Unused), Released, Await(id, i, 0, false));
    case Filled(id, _) => Settles(t, p, mine, t.cells[mine].(state := Ready), Published, Done(id, Entry(mine)));
  }

  lemma DoKeeps(t: Table, m: Move)
    requires Inv(t)
    ensures Inv(Do(t, m))
  {
    match m
    case Begin(p, id) => if Idle(t, p) && id != 0 { MovesOn(t, p, Start(id)); }
    case Go(p) =>
      if p in t.procs {
        match t.procs[p]
        case Start(_) => SearchStep(t, p);
        case Search(_, _, _) => SearchStep(t, p);
        case Look(_, _, _) => SearchStep(t, p);
        case Await(_, _, _, _) => SearchStep(t, p);
        case Over(_) => GivesBack(t, p);
        case Marked(_, _) => RescanStep(t, p);
        case Rescan(_, _, _, _) => RescanStep(t, p);
        case Check(_, _, _, _, _) => RescanStep(t, p);
        case Unnamed(_, _, _) => LastStep(t, p);
        case Filled(_, _) => LastStep(t, p);
        case Done(_, _) =>
        case _ => OwnStep(t, p);
      }
  }

  /** Every schedule, whoever stops on the way. */
  lemma {:induction false} ExecKeeps(capacity: nat, moves: seq<Move>)
    ensures Inv(Exec(capacity, moves)) && |Exec(capacity, moves).cells| == capacity
  {
    if moves != [] {
      ExecKeeps(capacity, moves[..|moves| - 1]);
      DoKeeps(Exec(capacity, moves[..|moves| - 1]), moves[|moves| - 1]);
    } else {
      var t := Empty(capacity);
      assert Overs(t) == {};
      forall i {:trigger CellOk(t, i)} | 0 <= i < |t.cells| ensures CellOk(t, i) { }
    }
  }
}
