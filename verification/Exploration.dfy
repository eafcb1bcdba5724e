/** The exploration controller: a frontier of recipes to replay, a bounded pool of workers, and the
    states worth continuing from. Which worker ends next, and what a run discovers, is anyone's
    choice. */
module Exploration {
  import opened Discoveries

  const MAX_TRACKED_STATES: nat := 512
  const MAX_EXEMPLARS: nat := 3
  const MAX_BUG_RECIPES: nat := 4

  type Recipe = seq<(nat, nat)>

  datatype Config = Config(workers: nat, maxRuns: nat, branching: nat, maxFrontier: nat, maxRecipeLen: nat) {
    predicate Valid() { maxRuns > 0 && branching > 0 && maxFrontier > 0 && maxRecipeLen > 0 }
  }

  datatype Exemplar = Exemplar(recipe: Recipe, anchor: nat)
  datatype StateEntry = StateEntry(id: nat, progress: bool, visits: nat, exemplars: seq<Exemplar>, next: nat)
  datatype Worker = Worker(slot: nat, job: Recipe)
  datatype Option<T> = None | Some(value: T)

  datatype Stats = Stats(totalTimelines: nat, discoveries: nat, bugFound: nat, expansions: nat, maxActive: nat)

  // ---- worker slots ----

  /** Every slot is free or owned by exactly one live worker. */
  predicate Slots(workers: nat, free: seq<nat>, active: map<nat, Worker>) {
    && |free| + |active| == workers
    && (forall i {:trigger free[i]} | 0 <= i < |free| :: free[i] < workers)
    && (forall i, j {:trigger free[i], free[j]} | 0 <= i < j < |free| :: free[i] != free[j])
    && (forall p {:trigger active[p]} | p in active :: active[p].slot < workers && active[p].slot !in free)
    && (forall p, q {:trigger active[p], active[q]} | p in active && q in active && p != q :: active[p].slot != active[q].slot)
  }

  lemma SlotTaken(workers: nat, free: seq<nat>, active: map<nat, Worker>, pid: nat, job: Recipe)
    requires Slots(workers, free, active) && free != [] && pid !in active
    ensures Slots(workers, free[..|free| - 1], active[pid := Worker(free[|free| - 1], job)])
  {
    var n := |free| - 1;
    var active' := active[pid := Worker(free[n], job)];
    assert active'.Keys == active.Keys + {pid};
    assert |active'| == |active| + 1 by { assert |active'.Keys| == |active.Keys| + 1; }
  }

  lemma SlotReturned(workers: nat, free: seq<nat>, active: map<nat, Worker>, pid: nat)
    requires Slots(workers, free, active) && pid in active
    ensures Slots(workers, free + [active[pid].slot], active - {pid})
    ensures |active - {pid}| == |active| - 1
  {
    var active' := active - {pid};
    assert active'.Keys == active.Keys - {pid};
    assert |active'| == |active| - 1 by { assert |active'.Keys| == |active.Keys| - 1; }
  }

  function Owned(active: map<nat, Worker>): set<nat> { set p | p in active :: active[p].slot }

  lemma OwnedLess(active: map<nat, Worker>, p: nat)
    requires forall p, q {:trigger active[p], active[q]} | p in active && q in active && p != q :: active[p].slot != active[q].slot
    requires p in active
    ensures Owned(active - {p}) == Owned(active) - {active[p].slot}
  {
    var rest := active - {p};
    forall x ensures x in Owned(rest) <==> x in Owned(active) && x != active[p].slot {
      if x in Owned(active) && x != active[p].slot {
        var q :| q in active && active[q].slot == x;
        assert q in rest && rest[q].slot == x;
      }
      if x in Owned(rest) {
        var q :| q in rest && rest[q].slot == x;
        assert q in active && q != p;
      }
    }
  }

  lemma {:induction false} OwnedSize(active: map<nat, Worker>)
    requires forall p, q {:trigger active[p], active[q]} | p in active && q in active && p != q :: active[p].slot != active[q].slot
    ensures |Owned(active)| == |active|
    decreases |active|
  {
    if active == map[] {
      assert Owned(active) == {};
    } else {
      var p :| p in active;
      var rest := active - {p};
      assert rest.Keys == active.Keys - {p};
      assert |rest| == |active| - 1 by { assert |rest.Keys| == |active.Keys| - 1; }
      OwnedSize(rest);
      OwnedLess(active, p);
      assert active[p].slot in Owned(active);
    }
  }

  function Members(xs: seq<nat>): set<nat> { set x | x in xs }

  lemma {:induction false} DistinctSize(xs: seq<nat>)
    requires forall i, j {:trigger xs[i], xs[j]} | 0 <= i < j < |xs| :: xs[i] != xs[j]
    ensures |Members(xs)| == |xs|
  {
    if xs != [] {
      var n := |xs| - 1;
      DistinctSize(xs[..n]);
      assert xs[n] !in xs[..n];
      assert Members(xs) == Members(xs[..n]) + {xs[n]};
    }
  }

  lemma AllBelow(n: nat) returns (xs: seq<nat>)
    ensures |xs| == n && |Members(xs)| == n && forall x: nat {:trigger x in Members(xs)} :: x in Members(xs) <==> x < n
  {
    xs := seq(n, i => i);
    DistinctSize(xs);
    forall x: nat ensures x in Members(xs) <==> x < n {
      if x < n { assert xs[x] == x; }
    }
  }

  /** No slot is ever lost: what is not free is owned by a live worker. */
  lemma SlotsConserved(workers: nat, free: seq<nat>, active: map<nat, Worker>, slot: nat)
    requires Slots(workers, free, active) && slot < workers
    ensures slot !in free <==> exists p {:trigger active[p]} :: p in active && active[p].slot == slot
  {
    var xs := AllBelow(workers);
    var frees, owned, all := Members(free), Owned(active), Members(xs);
    OwnedSize(active);
    DistinctSize(free);
    assert frees !! owned;
    forall x | x in frees + owned ensures x in all { }
    if slot !in free && slot !in owned { Pigeonhole(frees + owned, all, slot); }
  }

  lemma Pigeonhole(part: set<nat>, all: set<nat>, x: nat)
    requires part <= all && x in all && x !in part
    ensures |part| < |all|
  {
    assert all == part + (all - part);
    assert x in all - part;
  }

  // ---- policy ----

  function Deepest(es: seq<Exemplar>): (d: nat)
    ensures forall i | 0 <= i < |es| :: |es[i].recipe| <= d
    ensures es != [] ==> exists i | 0 <= i < |es| :: |es[i].recipe| == d
  {
    if es == [] then 0
    else
      var d, n := Deepest(es[..|es| - 1]), |es[|es| - 1].recipe|;
      assert forall i | 0 <= i < |es| - 1 :: es[..|es| - 1][i] == es[i];
      if n > d then n else d
  }

  predicate Eligible(s: StateEntry, maxLen: nat) { exists i | 0 <= i < |s.exemplars| :: |s.exemplars[i].recipe| < maxLen }

  /** Least-visited for its depth first, then progress, then depth, then registration order. */
  datatype Key = Key(weight: nat, plain: nat, depth: nat, index: nat)

  function KeyOf(s: StateEntry, i: nat): Key {
    Key(s.visits / (Deepest(s.exemplars) + 1), if s.progress then 0 else 1, Deepest(s.exemplars), i)
  }

  predicate Before(a: Key, b: Key) {
    || a.weight < b.weight
    || (a.weight == b.weight && (a.plain < b.plain || (a.plain == b.plain && (a.depth > b.depth || (a.depth == b.depth && a.index < b.index)))))
  }

  /** A state with one more exemplar, in place of the oldest when it has enough. */
  function Added(s: StateEntry, recipe: Recipe, e: Event): (r: StateEntry)
    ensures Exemplar(recipe, e.callCount) in r.exemplars
  {
    var ex := Exemplar(recipe, e.callCount);
    var t := s.(progress := s.progress || IsProgress(e));
    if |s.exemplars| < MAX_EXEMPLARS then t.(exemplars := s.exemplars + [ex])
    else
      var at := s.next % MAX_EXEMPLARS;
      assert s.exemplars[at := ex][at] == ex;
      t.(exemplars := s.exemplars[at := ex], next := s.next + 1)
  }

  /** A state's exemplars, the oldest first. */
  function Recent(s: StateEntry): seq<Exemplar> {
    if |s.exemplars| < MAX_EXEMPLARS then s.exemplars
    else Turned(s.exemplars, s.next % MAX_EXEMPLARS)
  }

  function Latest(es: seq<Exemplar>): seq<Exemplar> { if |es| <= 3 then es else es[|es| - 3..] }

  function Turned(es: seq<Exemplar>, at: nat): seq<Exemplar>
    requires at <= |es|
  {
    es[at..] + es[..at]
  }

  lemma TurnedOn(es: seq<Exemplar>, at: nat, ex: Exemplar)
    requires |es| == 3 && at < 3
    ensures Turned(es[at := ex], if at == 2 then 0 else at + 1) == Turned(es, at)[1..] + [ex]
  {
    assert Turned(es, at)[0] == es[at];
    if at == 2 { assert Turned(es[at := ex], 0) == es[..2] + [ex]; }
  }

  lemma NextTurn(next: nat)
    ensures (next + 1) % 3 == if next % 3 == 2 then 0 else next % 3 + 1
  {
  }

  lemma TurnedIsLatest(es: seq<Exemplar>, at: nat, ex: Exemplar)
    requires |es| == 3 && at < 3
    ensures Turned(es[at := ex], if at == 2 then 0 else at + 1) == Latest(Turned(es, at) + [ex])
  {
    TurnedOn(es, at, ex);
    assert (Turned(es, at) + [ex])[1..] == Turned(es, at)[1..] + [ex];
  }

  lemma TurnedGains(s: StateEntry, t: StateEntry, recipe: Recipe, e: Event, at: nat)
    requires |s.exemplars| == 3 && at < 3 && Recent(s) == Turned(s.exemplars, at)
    requires t == s.(progress := s.progress || IsProgress(e), exemplars := s.exemplars[at := Exemplar(recipe, e.callCount)], next := t.next)
    requires Recent(t) == Turned(t.exemplars, if at == 2 then 0 else at + 1)
    ensures Gains(s, t, recipe, e)
  {
    TurnedIsLatest(s.exemplars, at, Exemplar(recipe, e.callCount));
  }

  lemma AddedWhenFull(s: StateEntry, recipe: Recipe, e: Event)
    requires |s.exemplars| == MAX_EXEMPLARS
    ensures Gains(s, Added(s, recipe, e), recipe, e)
  {
    NextTurn(s.next);
    TurnedGains(s, Added(s, recipe, e), recipe, e, s.next % MAX_EXEMPLARS);
  }

  /** A state keeps its latest three exemplars; one more takes the place of the oldest. */
  lemma AddedIsLatest(s: StateEntry, recipe: Recipe, e: Event)
    requires |s.exemplars| <= MAX_EXEMPLARS && (|s.exemplars| < MAX_EXEMPLARS ==> s.next == 0)
    ensures Gains(s, Added(s, recipe, e), recipe, e)
  {
    if |s.exemplars| == MAX_EXEMPLARS { AddedWhenFull(s, recipe, e); }
    else { assert Turned(s.exemplars + [Exemplar(recipe, e.callCount)], 0) == s.exemplars + [Exemplar(recipe, e.callCount)]; }
  }

  /** The state was discovered once more. */
  predicate Gains(before: StateEntry, after: StateEntry, recipe: Recipe, e: Event) {
    && Recent(after) == Latest(Recent(before) + [Exemplar(recipe, e.callCount)])
    && after.id == before.id && after.visits == before.visits && (after.progress <==> before.progress || IsProgress(e))
  }

  /** The children of a run, each the run's recipe and one more breakpoint. */
  function Children(derive: Derive, root: nat, base: Recipe, anchor: nat, id: nat, round: nat, n: nat): (r: seq<Recipe>)
    ensures |r| == n && forall c | 0 <= c < n :: |r[c]| == |base| + 1 && r[c][..|base|] == base && r[c][|base|].0 == anchor
  {
    var seed := if base == [] then root else base[|base| - 1].1;
    seq(n, c requires 0 <= c < n => base + [(anchor, derive(root, seed, anchor, id, round, c))])
  }

  /** How many children still fit the frontier. */
  function Room(c: Config, frontier: nat): nat {
    if frontier >= c.maxFrontier then 0
    else if c.branching <= c.maxFrontier - frontier then c.branching else c.maxFrontier - frontier
  }

  predicate FrontierOk(c: Config, frontier: seq<Recipe>) {
    |frontier| <= c.maxFrontier && forall i {:trigger frontier[i]} | 0 <= i < |frontier| :: |frontier[i]| <= c.maxRecipeLen
  }

  /** The states are found by their identity, and each keeps a bounded number of exemplars. */
  predicate StatesOk(states: seq<StateEntry>, index: map<nat, nat>) {
    && |states| <= MAX_TRACKED_STATES
    && (forall i {:trigger states[i]} | 0 <= i < |states| ::
          && |states[i].exemplars| <= MAX_EXEMPLARS && (|states[i].exemplars| < MAX_EXEMPLARS ==> states[i].next == 0)
          && states[i].id in index && index[states[i].id] == i)
    && (forall id {:trigger index[id]} | id in index :: index[id] < |states| && states[index[id]].id == id)
  }

  /** A state takes one more exemplar; a new one is tracked while there is room. */
  function Register(states: seq<StateEntry>, index: map<nat, nat>, recipe: Recipe, e: Event): (r: (seq<StateEntry>, map<nat, nat>))
    requires StatesOk(states, index)
    ensures StatesOk(r.0, r.1)
  {
    if e.stateId in index then
      var i := index[e.stateId];
      (states[i := Added(states[i], recipe, e)], index)
    else if |states| < MAX_TRACKED_STATES then
      (states + [Added(StateEntry(e.stateId, false, 0, [], 0), recipe, e)], index[e.stateId := |states|])
    else (states, index)
  }

  function RegisterUpTo(states: seq<StateEntry>, index: map<nat, nat>, recipe: Recipe, events: seq<Event>, n: nat): (r: (seq<StateEntry>, map<nat, nat>))
    requires StatesOk(states, index) && n <= |events|
    ensures StatesOk(r.0, r.1)
  {
    if n == 0 then (states, index)
    else
      var (st, ix) := RegisterUpTo(states, index, recipe, events, n - 1);
      Register(st, ix, recipe, events[n - 1])
  }

  /** States keep their place, their visits and their progress. */
  predicate Extends(before: seq<StateEntry>, after: seq<StateEntry>) {
    |before| <= |after| && forall i {:trigger after[i]} | 0 <= i < |before| ::
      after[i].id == before[i].id && after[i].visits == before[i].visits && (before[i].progress ==> after[i].progress)
  }

  lemma RegisterExtends(states: seq<StateEntry>, index: map<nat, nat>, recipe: Recipe, e: Event)
    requires StatesOk(states, index)
    ensures var r := Register(states, index, recipe, e); Extends(states, r.0) && index.Keys <= r.1.Keys && Tracked(r.0, r.1, e)
  {
  }

  /** Only the discovered state changes, which gains the run as its latest exemplar; a new one is added while
      there are fewer than 512. */
  lemma RegisterMeans(states: seq<StateEntry>, index: map<nat, nat>, recipe: Recipe, e: Event)
    requires StatesOk(states, index)
    ensures var (st, ix) := Register(states, index, recipe, e);
            && Extends(states, st) && index.Keys <= ix.Keys
            && (forall i {:trigger st[i]} | 0 <= i < |states| && states[i].id != e.stateId :: st[i] == states[i])
            && (if e.stateId in index then |st| == |states| && Gains(states[index[e.stateId]], st[index[e.stateId]], recipe, e)
                else if |states| < 512 then
                  && |st| == |states| + 1 && ix == index[e.stateId := |states|]
                  && Gains(StateEntry(e.stateId, false, 0, [], 0), st[|states|], recipe, e)
                else st == states && ix == index)
  {
    if e.stateId in index { AddedIsLatest(states[index[e.stateId]], recipe, e); }
    else { AddedIsLatest(StateEntry(e.stateId, false, 0, [], 0), recipe, e); }
  }

  /** The discovered state is tracked, unless the table is full. */
  predicate Tracked(st: seq<StateEntry>, ix: map<nat, nat>, e: Event) { e.stateId in ix || |st| == 512 }

  lemma RegisterKeeps(states: seq<StateEntry>, index: map<nat, nat>, recipe: Recipe, e: Event, before: Event)
    requires StatesOk(states, index) && Tracked(states, index, before)
    ensures var r := Register(states, index, recipe, e); Tracked(r.0, r.1, before) && Tracked(r.0, r.1, e)
  {
    RegisterExtends(states, index, recipe, e);
  }

  lemma {:induction false} AllTracked(states: seq<StateEntry>, index: map<nat, nat>, recipe: Recipe, events: seq<Event>, n: nat, k: nat)
    requires StatesOk(states, index) && k < n <= |events|
    ensures var r := RegisterUpTo(states, index, recipe, events, n); Tracked(r.0, r.1, events[k])
    decreases n
  {
    var r := RegisterUpTo(states, index, recipe, events, n - 1);
    if k < n - 1 {
      AllTracked(states, index, recipe, events, n - 1, k);
      RegisterKeeps(r.0, r.1, recipe, events[n - 1], events[k]);
    } else {
      RegisterExtends(r.0, r.1, recipe, events[n - 1]);
    }
  }

  /** Registering a run's discoveries keeps every state, and each discovered one is tracked unless the
      table is full. */
  lemma {:induction false} RegisterAllMeans(states: seq<StateEntry>, index: map<nat, nat>, recipe: Recipe, events: seq<Event>, n: nat)
    requires StatesOk(states, index) && n <= |events|
    ensures var r := RegisterUpTo(states, index, recipe, events, n);
            Extends(states, r.0) && forall k {:trigger events[k]} | 0 <= k < n :: Tracked(r.0, r.1, events[k])
  {
    forall k {:trigger events[k]} | 0 <= k < n
      ensures Tracked(RegisterUpTo(states, index, recipe, events, n).0, RegisterUpTo(states, index, recipe, events, n).1, events[k])
    {
      AllTracked(states, index, recipe, events, n, k);
    }
    AllExtend(states, index, recipe, events, n);
  }

  lemma {:induction false} AllExtend(states: seq<StateEntry>, index: map<nat, nat>, recipe: Recipe, events: seq<Event>, n: nat)
    requires StatesOk(states, index) && n <= |events|
    ensures Extends(states, RegisterUpTo(states, index, recipe, events, n).0)
  {
    if n > 0 {
      var r := RegisterUpTo(states, index, recipe, events, n - 1);
      AllExtend(states, index, recipe, events, n - 1);
      RegisterExtends(r.0, r.1, recipe, events[n - 1]);
      ExtendsOn(states, r.0, Register(r.0, r.1, recipe, events[n - 1]).0);
    }
  }

  lemma ExtendsOn(a: seq<StateEntry>, b: seq<StateEntry>, c: seq<StateEntry>)
    requires Extends(a, b) && Extends(b, c)
    ensures Extends(a, c)
  {
    forall i {:trigger c[i]} | 0 <= i < |a|
      ensures c[i].id == a[i].id && c[i].visits == a[i].visits && (a[i].progress ==> c[i].progress)
    {
      assert b[i].id == a[i].id;
    }
  }

  /** The last of the strongest discoveries. */
  function Anchor(events: seq<Event>): (a: Event)
    requires events != []
    ensures a in events && forall k | 0 <= k < |events| :: AsStrong(a, events[k])
    ensures exists k: nat :: IsAnchor(events, k) && events[k] == a
  {
    var n := |events| - 1;
    if n == 0 then assert IsAnchor(events, 0); events[0]
    else
      var a := Anchor(events[..n]);
      assert a in events[..n];
      assert forall k | 0 <= k < n :: events[k] == events[..n][k];
      var k: nat :| IsAnchor(events[..n], k) && events[..n][k] == a;
      assert if AsStrong(events[n], a) then IsAnchor(events, n) else IsAnchor(events, k);
      if AsStrong(events[n], a) then events[n] else a
  }

  /** As strong as every discovery and stronger than every later one. */
  predicate IsAnchor(events: seq<Event>, k: nat) {
    && k < |events| && (forall i | 0 <= i < |events| :: AsStrong(events[k], events[i]))
    && forall i | k < i < |events| :: Stronger(events[k], events[i])
  }

  /** What a controller knows: what to run next, where to continue from, and its accounts. */
  datatype Known = Known(frontier: seq<Recipe>, states: seq<StateEntry>, index: map<nat, nat>, stats: Stats, bugs: seq<Recipe>)

  predicate KnownOk(c: Config, k: Known) { FrontierOk(c, k.frontier) && StatesOk(k.states, k.index) && |k.bugs| <= MAX_BUG_RECIPES }

  /** A run is counted, and its recipe kept if it failed and is worth replaying. */
  function Counted(k: Known, job: Recipe, events: seq<Event>, failed: bool, explored: bool): Known {
    var stats := k.stats.(totalTimelines := k.stats.totalTimelines + 1, discoveries := k.stats.discoveries + |events|);
    if !(failed && explored) then k.(stats := stats)
    else k.(stats := stats.(bugFound := stats.bugFound + 1),
            bugs := if job != [] && |k.bugs| < MAX_BUG_RECIPES then k.bugs + [job] else k.bugs)
  }

  function Visited(states: seq<StateEntry>, index: map<nat, nat>, id: nat): (r: seq<StateEntry>)
    requires StatesOk(states, index)
    ensures StatesOk(r, index)
  {
    if id in index then states[index[id] := states[index[id]].(visits := states[index[id]].visits + 1)] else states
  }

  lemma VisitOk(states: seq<StateEntry>, index: map<nat, nat>, i: nat)
    requires StatesOk(states, index) && i < |states|
    ensures StatesOk(states[i := states[i].(visits := states[i].visits + 1)], index)
  {
  }

  type Derive = (nat, nat, nat, nat, nat, nat) -> nat

  /** What a controller knows once a run's states are registered and the run is expanded at most
      once, at its anchor. */
  function Expanded(c: Config, derive: Derive, root: nat, k: Known, job: Recipe, events: seq<Event>): (r: Known)
    requires StatesOk(k.states, k.index)
  {
    if events == [] then k
    else
      var (states, index) := RegisterUpTo(k.states, k.index, job, events, |events|);
      if |job| >= c.maxRecipeLen then k.(states := states, index := index)
      else
        var a := Anchor(events);
        Known(k.frontier + Children(derive, root, job, a.callCount, a.stateId, 0, Room(c, |k.frontier|)),
              Visited(states, index, a.stateId), index, k.stats.(expansions := k.stats.expansions + 1), k.bugs)
  }

  lemma ExpandedOk(c: Config, derive: Derive, root: nat, k: Known, job: Recipe, events: seq<Event>)
    requires KnownOk(c, k)
    ensures var r := Expanded(c, derive, root, k, job, events);
            KnownOk(c, r) && r.stats == k.stats.(expansions := r.stats.expansions) && r.bugs == k.bugs
  {
    if events != [] && |job| < c.maxRecipeLen {
      var a := Anchor(events);
      ChildrenOk(c, derive, root, k.frontier, job, a.callCount, a.stateId, 0);
    }
  }

  lemma ChildrenOk(c: Config, derive: Derive, root: nat, frontier: seq<Recipe>, base: Recipe, anchor: nat, id: nat, round: nat)
    requires FrontierOk(c, frontier) && |base| < c.maxRecipeLen
    ensures FrontierOk(c, frontier + Children(derive, root, base, anchor, id, round, Room(c, |frontier|)))
  {
  }

  /** What a controller knows after one run. */
  function Learned(c: Config, derive: Derive, root: nat, k: Known, job: Recipe, events: seq<Event>, failed: bool, explored: bool): (r: Known)
    requires KnownOk(c, k)
    ensures KnownOk(c, r) && r.stats.totalTimelines == k.stats.totalTimelines + 1 && r.stats.maxActive == k.stats.maxActive
  {
    ExpandedOk(c, derive, root, Counted(k, job, events, failed, explored), job, events);
    Expanded(c, derive, root, Counted(k, job, events, failed, explored), job, events)
  }

  /** The run counts once, with all it discovered; a failure that exploration found counts, and its recipe
      is kept while there are fewer than four. */
  predicate Tallied(before: Known, after: Known, job: Recipe, events: seq<Event>, failed: bool, explored: bool, expanded: bool) {
    && after.stats.totalTimelines == before.stats.totalTimelines + 1 && after.stats.discoveries == before.stats.discoveries + |events|
    && after.stats.bugFound == before.stats.bugFound + (if failed && explored then 1 else 0)
    && after.bugs == before.bugs + (if failed && explored && job != [] && |before.bugs| < 4 then [job] else [])
    && after.stats.expansions == before.stats.expansions + (if expanded then 1 else 0) && after.stats.maxActive == before.stats.maxActive
  }

  /** The seed a run's continuation grows from. */
  function LastSeed(root: nat, recipe: Recipe): nat { if recipe == [] then root else recipe[|recipe| - 1].1 }

  /** As many children as fit, each the run's recipe and one breakpoint with a seed of its own. */
  predicate Grows(c: Config, derive: Derive, root: nat, before: seq<Recipe>, after: seq<Recipe>, job: Recipe, anchor: nat, id: nat, round: nat) {
    && before <= after && |after| - |before| <= c.branching && |after| <= c.maxFrontier
    && (|after| - |before| == c.branching || |after| == c.maxFrontier)
    && forall i {:trigger after[i]} | |before| <= i < |after| ::
         after[i] == job + [(anchor, derive(root, LastSeed(root, job), anchor, id, round, i - |before|))]
  }

  lemma ChildrenGrow(c: Config, derive: Derive, root: nat, frontier: seq<Recipe>, job: Recipe, anchor: nat, id: nat, round: nat)
    requires |frontier| <= c.maxFrontier
    ensures Grows(c, derive, root, frontier, frontier + Children(derive, root, job, anchor, id, round, Room(c, |frontier|)), job, anchor, id, round)
  {
  }

  predicate SameVisits(before: seq<StateEntry>, after: seq<StateEntry>, visited: Option<nat>) {
    |before| <= |after| && forall i {:trigger after[i]} | 0 <= i < |after| ::
      after[i].visits == (if i < |before| then before[i].visits else 0) + (if visited == Some(after[i].id) then 1 else 0)
  }

  lemma UnvisitedOne(states: seq<StateEntry>, index: map<nat, nat>, recipe: Recipe, e: Event)
    requires StatesOk(states, index)
    ensures SameVisits(states, Register(states, index, recipe, e).0, None)
  {
    RegisterMeans(states, index, recipe, e);
  }

  lemma SameVisitsOn(a: seq<StateEntry>, b: seq<StateEntry>, c: seq<StateEntry>)
    requires SameVisits(a, b, None) && SameVisits(b, c, None)
    ensures SameVisits(a, c, None)
  {
    forall i {:trigger c[i]} | 0 <= i < |c| ensures c[i].visits == if i < |a| then a[i].visits else 0 {
      if i < |b| { assert b[i].visits == if i < |a| then a[i].visits else 0; }
    }
  }

  lemma {:induction false} AllUnvisited(states: seq<StateEntry>, index: map<nat, nat>, recipe: Recipe, events: seq<Event>, n: nat)
    requires StatesOk(states, index) && n <= |events|
    ensures SameVisits(states, RegisterUpTo(states, index, recipe, events, n).0, None)
  {
    if n > 0 {
      var r := RegisterUpTo(states, index, recipe, events, n - 1);
      AllUnvisited(states, index, recipe, events, n - 1);
      UnvisitedOne(r.0, r.1, recipe, events[n - 1]);
      SameVisitsOn(states, r.0, Register(r.0, r.1, recipe, events[n - 1]).0);
    }
  }

  lemma OneVisited(before: seq<StateEntry>, states: seq<StateEntry>, index: map<nat, nat>, id: nat)
    requires SameVisits(before, states, None) && StatesOk(states, index)
    ensures SameVisits(before, Visited(states, index, id), Some(id))
  {
    var after := Visited(states, index, id);
    forall i {:trigger after[i]} | 0 <= i < |after|
      ensures after[i].visits == (if i < |before| then before[i].visits else 0) + (if Some(id) == Some(after[i].id) then 1 else 0)
    {
      assert states[i].id in index && index[states[i].id] == i;
    }
  }

  lemma VisitTracks(states: seq<StateEntry>, index: map<nat, nat>, id: nat, events: seq<Event>)
    requires StatesOk(states, index) && forall n {:trigger events[n]} | 0 <= n < |events| :: Tracked(states, index, events[n])
    ensures forall n {:trigger events[n]} | 0 <= n < |events| :: Tracked(Visited(states, index, id), index, events[n])
  {
  }

  /** Whether the run has children: it found something and its recipe can grow. */
  predicate Productive(c: Config, job: Recipe, events: seq<Event>) { events != [] && |job| < c.maxRecipeLen }

  /** What the run leaves to do: nothing more, or its children at the last of its strongest discoveries,
      whose state is visited. */
  ghost predicate Expands(c: Config, derive: Derive, root: nat, k: Known, r: Known, job: Recipe, events: seq<Event>) {
    if !Productive(c, job, events) then r.frontier == k.frontier && SameVisits(k.states, r.states, None)
    else exists n: nat :: IsAnchor(events, n) && Grows(c, derive, root, k.frontier, r.frontier, job, events[n].callCount, events[n].stateId, 0)
                          && SameVisits(k.states, r.states, Some(events[n].stateId))
  }

  lemma ExpandedMeans(c: Config, derive: Derive, root: nat, k: Known, job: Recipe, events: seq<Event>)
    requires KnownOk(c, k)
    ensures var r := Expanded(c, derive, root, k, job, events);
            Expands(c, derive, root, k, r, job, events) && forall n {:trigger events[n]} | 0 <= n < |events| :: Tracked(r.states, r.index, events[n])
  {
    RegisterAllMeans(k.states, k.index, job, events, |events|);
    AllUnvisited(k.states, k.index, job, events, |events|);
    if Productive(c, job, events) {
      var a := Anchor(events);
      var n: nat :| IsAnchor(events, n) && events[n] == a;
      var (states, index) := RegisterUpTo(k.states, k.index, job, events, |events|);
      ChildrenGrow(c, derive, root, k.frontier, job, a.callCount, a.stateId, 0);
      OneVisited(k.states, states, index, a.stateId);
      VisitTracks(states, index, a.stateId, events);
    }
  }

  /** A run's result, as its reader sees it: its accounts, the jobs it leaves, and every state it discovered
      known unless the table is full. */
  lemma LearnedMeans(c: Config, derive: Derive, root: nat, k: Known, job: Recipe, events: seq<Event>, failed: bool, explored: bool)
    requires KnownOk(c, k)
    ensures var r := Learned(c, derive, root, k, job, events, failed, explored);
            && Tallied(k, r, job, events, failed, explored, Productive(c, job, events)) && Expands(c, derive, root, k, r, job, events)
            && (forall n {:trigger events[n]} | 0 <= n < |events| :: Tracked(r.states, r.index, events[n]))
  {
    ExpandedMeans(c, derive, root, Counted(k, job, events, failed, explored), job, events);
    LearnedTallies(c, derive, root, k, job, events, failed, explored);
  }

  lemma LearnedTallies(c: Config, derive: Derive, root: nat, k: Known, job: Recipe, events: seq<Event>, failed: bool, explored: bool)
    requires KnownOk(c, k)
    ensures Tallied(k, Learned(c, derive, root, k, job, events, failed, explored), job, events, failed, explored, Productive(c, job, events))
  {
    assert k.bugs + [] == k.bugs;
  }

  /** The exemplars that can still grow. */
  function Growable(es: seq<Exemplar>, maxLen: nat): (r: seq<Exemplar>)
    ensures forall e | e in r :: e in es && |e.recipe| < maxLen
    ensures forall e | e in es && |e.recipe| < maxLen :: e in r
  {
    if es == [] then []
    else
      var n := |es| - 1;
      assert es == es[..n] + [es[n]];
      if |es[n].recipe| < maxLen then Growable(es[..n], maxLen) + [es[n]] else Growable(es[..n], maxLen)
  }

  lemma EligibleGrows(s: StateEntry, maxLen: nat)
    ensures Eligible(s, maxLen) <==> Growable(s.exemplars, maxLen) != []
  {
    var g := Growable(s.exemplars, maxLen);
    if g != [] { assert g[0] in s.exemplars; }
    if Eligible(s, maxLen) {
      var i :| 0 <= i < |s.exemplars| && |s.exemplars[i].recipe| < maxLen;
      assert s.exemplars[i] in g;
    }
  }

  /** The state to continue from: it can grow and precedes every other that can. */
  predicate Picks(states: seq<StateEntry>, maxLen: nat, i: nat) {
    && i < |states| && Eligible(states[i], maxLen)
    && forall j | 0 <= j < |states| && j != i && Eligible(states[j], maxLen) :: Before(KeyOf(states[i], i), KeyOf(states[j], j))
  }

  /** This round's exemplar of a state. */
  function Turn(s: StateEntry, maxLen: nat, round: nat): (ex: Exemplar)
    requires Eligible(s, maxLen)
    ensures ex in s.exemplars && |ex.recipe| < maxLen
  {
    EligibleGrows(s, maxLen);
    var g := Growable(s.exemplars, maxLen);
    assert g[round % |g|] in g;
    g[round % |g|]
  }

  /** A continuation from state `i`: it is visited, and this round's exemplar has children. */
  predicate Continues(c: Config, derive: Derive, root: nat, round: nat, before: seq<StateEntry>, i: nat, states: seq<StateEntry>, frontier: seq<Recipe>) {
    && Picks(before, c.maxRecipeLen, i)
    && states == before[i := before[i].(visits := before[i].visits + 1)]
    && var ex := Turn(before[i], c.maxRecipeLen, round);
       Grows(c, derive, root, [], frontier, ex.recipe, ex.anchor, before[i].id, round)
  }

  lemma ContinuesOk(c: Config, derive: Derive, root: nat, round: nat, before: seq<StateEntry>, index: map<nat, nat>, i: nat, states: seq<StateEntry>, frontier: seq<Recipe>)
    requires StatesOk(before, index) && Continues(c, derive, root, round, before, i, states, frontier)
    ensures StatesOk(states, index) && FrontierOk(c, frontier)
  {
    VisitOk(before, index, i);
  }

  lemma ContinuesKnown(c: Config, derive: Derive, root: nat, round: nat, k: Known, i: nat, states: seq<StateEntry>, frontier: seq<Recipe>)
    requires KnownOk(c, k) && Continues(c, derive, root, round, k.states, i, states, frontier)
    ensures KnownOk(c, k.(states := states, frontier := frontier))
  {
    ContinuesOk(c, derive, root, round, k.states, k.index, i, states, frontier);
  }

  // ---- the accounts of a seed ----

  /** A run that was learned from: its recipe, what it discovered, whether it failed, and whether
      exploration started it. */
  datatype Outcome = Outcome(job: Recipe, events: seq<Event>, failed: bool, explored: bool)

  /** The recipes of the runs that exploration started and that failed, in the order they were learned from. */
  function Failing(log: seq<Outcome>): seq<Recipe> {
    if log == [] then []
    else
      var o := log[|log| - 1];
      Failing(log[..|log| - 1]) + if o.failed && o.explored then [o.job] else []
  }

  function Replayable(recipes: seq<Recipe>): seq<Recipe> {
    if recipes == [] then []
    else
      var r := recipes[|recipes| - 1];
      Replayable(recipes[..|recipes| - 1]) + if r != [] then [r] else []
  }

  function FirstFour(recipes: seq<Recipe>): seq<Recipe> { if |recipes| <= 4 then recipes else recipes[..4] }

  function Discovered(log: seq<Outcome>): nat {
    if log == [] then 0 else Discovered(log[..|log| - 1]) + |log[|log| - 1].events|
  }

  /** Every run counts once, every failure counts, and the first four recipes worth replaying are kept. */
  predicate Accounts(log: seq<Outcome>, stats: Stats, bugs: seq<Recipe>) {
    && stats.totalTimelines == |log| && stats.discoveries == Discovered(log) && stats.bugFound == |Failing(log)|
    && bugs == FirstFour(Replayable(Failing(log)))
  }

  lemma NothingKnown(c: Config)
    ensures KnownOk(c, Known([], [], map[], Stats(0, 0, 0, 0, 0), [])) && Accounts([], Stats(0, 0, 0, 0, 0), [])
  {
  }

  lemma FourMore(recipes: seq<Recipe>, job: Recipe)
    ensures FirstFour(recipes + [job]) == FirstFour(recipes) + if |FirstFour(recipes)| < 4 then [job] else []
  {
    if |recipes| >= 4 { assert (recipes + [job])[..4] == recipes[..4]; }
  }

  lemma ReplayableMore(recipes: seq<Recipe>, job: Recipe)
    ensures Replayable(recipes + [job]) == Replayable(recipes) + if job != [] then [job] else []
  {
    assert (recipes + [job])[..|recipes|] == recipes;
  }

  lemma KeptMore(recipes: seq<Recipe>, job: Recipe)
    ensures var kept := FirstFour(Replayable(recipes));
            FirstFour(Replayable(recipes + [job])) == kept + if job != [] && |kept| < 4 then [job] else []
  {
    ReplayableMore(recipes, job);
    FourMore(Replayable(recipes), job);
  }

  lemma AccountsOn(log: seq<Outcome>, k: Known, r: Known, o: Outcome, expanded: bool)
    requires Accounts(log, k.stats, k.bugs) && Tallied(k, r, o.job, o.events, o.failed, o.explored, expanded)
    ensures Accounts(log + [o], r.stats, r.bugs)
  {
    assert (log + [o])[..|log|] == log;
    if o.failed && o.explored { KeptMore(Failing(log), o.job); } else { assert Failing(log + [o]) == Failing(log); }
  }

  class Explorer {
    const config: Config
    const derive: Derive
    var rootSeed: nat
    var runsStarted: nat
    var frontier: seq<Recipe>
    var states: seq<StateEntry>
    var stateIndex: map<nat, nat>
    var round: nat
    var stats: Stats
    var bugRecipes: seq<Recipe>
    var active: map<nat, Worker>
    var freeSlots: seq<nat>
    var lastPid: nat

    /** Every run learned from this seed. */
    ghost var log: seq<Outcome>

    /** The workers and their slots. */
    ghost predicate Pool()
      reads `active, `freeSlots, `lastPid
    {
      config.Valid() && Slots(config.workers, freeSlots, active) && forall p | p in active :: p <= lastPid
    }

    ghost function View(): Known
      reads `frontier, `states, `stateIndex, `stats, `bugRecipes
    {
      Known(frontier, states, stateIndex, stats, bugRecipes)
    }

    /** What was learned so far is within its bounds and agrees with the runs it came from. */
    ghost predicate Books()
      reads `frontier, `states, `stateIndex, `stats, `bugRecipes, `log
    {
      KnownOk(config, View()) && Accounts(log, stats, bugRecipes)
    }

    /** What is known after a run of `job`, one that exploration started or the root run. */
    ghost function After(k: Known, job: Recipe, events: seq<Event>, failed: bool, explored: bool): Known
      reads `rootSeed
    {
      if KnownOk(config, k) then Learned(config, derive, rootSeed, k, job, events, failed, explored) else k
    }

    ghost function Branched(k: Known, job: Recipe, events: seq<Event>): Known
      reads `rootSeed
    {
      if StatesOk(k.states, k.index) then Expanded(config, derive, rootSeed, k, job, events) else k
    }

    /** Every run started is counted or still with a worker, within the budget. */
    ghost predicate Valid()
      reads this
    {
      && Pool() && Books() && |active| <= stats.maxActive <= config.workers
      && stats.totalTimelines + |active| == runsStarted <= config.maxRuns
    }

    constructor (c: Config, d: Derive)
      requires c.Valid()
      ensures Valid() && config == c && derive == d && active == map[] && runsStarted == 0
    {
      config, derive := c, d;
      rootSeed, runsStarted, frontier, states, stateIndex, round := 0, 0, [], [], map[], 0;
      stats, bugRecipes := Stats(0, 0, 0, 0, 0), [];
      active, lastPid, log := map[], 0, [];
      freeSlots := seq(c.workers, i requires 0 <= i < c.workers => c.workers - 1 - i);
    }

    method BeginSeed(seed: nat)
      requires Valid() && active == map[]
      modifies `rootSeed, `runsStarted, `frontier, `states, `stateIndex, `round, `stats, `bugRecipes, `log
      ensures Valid() && runsStarted == 0 && rootSeed == seed && round == 0 && log == []
      ensures View() == Known([], [], map[], Stats(0, 0, 0, 0, 0), [])
    {
      rootSeed, runsStarted, frontier, states, stateIndex, round := seed, 0, [], [], map[], 0;
      stats, bugRecipes, log := Stats(0, 0, 0, 0, 0), [], [];
      NothingKnown(config);
      assert Books();
    }

    method RegisterState(recipe: Recipe, e: Event)
      requires StatesOk(states, stateIndex)
      modifies `states, `stateIndex
      ensures (states, stateIndex) == Register(old(states), old(stateIndex), recipe, e)
    {
      var i := |states|;
      if e.stateId in stateIndex {
        i := stateIndex[e.stateId];
      } else if |states| < MAX_TRACKED_STATES {
        states := states + [StateEntry(e.stateId, false, 0, [], 0)];
        stateIndex := stateIndex[e.stateId := i];
      } else {
        return;
      }
      states := states[i := Added(states[i], recipe, e)];
      assert i == |old(states)| ==> states == old(states) + [states[i]];
    }

    method ExpandFrom(base: Recipe, anchor: nat, id: nat, r: nat)
      requires |frontier| <= config.maxFrontier
      modifies `frontier
      ensures frontier == old(frontier) + Children(derive, rootSeed, base, anchor, id, r, Room(config, |old(frontier)|))
      ensures Grows(config, derive, rootSeed, old(frontier), frontier, base, anchor, id, r)
    {
      ChildrenGrow(config, derive, rootSeed, frontier, base, anchor, id, r);
      var seed := if base == [] then rootSeed else base[|base| - 1].1;
      ghost var all := Children(derive, rootSeed, base, anchor, id, r, Room(config, |frontier|));
      var child := 0;
      while child < config.branching && |frontier| < config.maxFrontier
        invariant 0 <= child <= Room(config, |old(frontier)|)
        invariant frontier == old(frontier) + all[..child]
        decreases config.branching - child
      {
        frontier := frontier + [base + [(anchor, derive(rootSeed, seed, anchor, id, r, child))]];
        assert all[..child + 1] == all[..child] + [all[child]];
        child := child + 1;
      }
      assert all[..child] == all;
    }

    method CountResult(job: Recipe, events: seq<Event>, failed: bool, explored: bool)
      modifies `stats, `bugRecipes
      ensures View() == Counted(old(View()), job, events, failed, explored)
    {
      stats := stats.(totalTimelines := stats.totalTimelines + 1, discoveries := stats.discoveries + |events|);
      if failed && explored {
        stats := stats.(bugFound := stats.bugFound + 1);
        if job != [] && |bugRecipes| < MAX_BUG_RECIPES { bugRecipes := bugRecipes + [job]; }
      }
    }

    method RegisterAll(job: Recipe, events: seq<Event>)
      requires StatesOk(states, stateIndex)
      modifies `states, `stateIndex
      ensures (states, stateIndex) == RegisterUpTo(old(states), old(stateIndex), job, events, |events|)
    {
      for i := 0 to |events|
        invariant (states, stateIndex) == RegisterUpTo(old(states), old(stateIndex), job, events, i)
      {
        RegisterState(job, events[i]);
      }
    }

    method Visit(i: nat)
      requires i < |states|
      modifies `states
      ensures states == old(states)[i := old(states)[i].(visits := old(states)[i].visits + 1)]
    {
      states := states[i := states[i].(visits := states[i].visits + 1)];
    }

    method VisitKnown(id: nat)
      requires StatesOk(states, stateIndex)
      modifies `states
      ensures states == Visited(old(states), stateIndex, id)
    {
      if id in stateIndex { Visit(stateIndex[id]); }
    }

    /** The run's children, at its anchor; the anchor's state is visited. */
    method Branch(job: Recipe, a: Event)
      requires StatesOk(states, stateIndex) && |frontier| <= config.maxFrontier
      modifies `frontier, `states, `stats
      ensures frontier == old(frontier) + Children(derive, rootSeed, job, a.callCount, a.stateId, 0, Room(config, |old(frontier)|))
      ensures states == Visited(old(states), stateIndex, a.stateId) && stats == old(stats).(expansions := old(stats).expansions + 1)
    {
      stats := stats.(expansions := stats.expansions + 1);
      ExpandFrom(job, a.callCount, a.stateId, 0);
      VisitKnown(a.stateId);
    }

    method Expand(job: Recipe, events: seq<Event>)
      requires StatesOk(states, stateIndex) && |frontier| <= config.maxFrontier
      modifies `frontier, `states, `stateIndex, `stats
      ensures View() == Branched(old(View()), job, events)
    {
      if events == [] { return; }
      var a := SelectAnchor(events);
      RegisterAll(job, events);
      if |job| < config.maxRecipeLen { Branch(job, a); }
    }

    /** One run's observations: counted, registered, and expanded at most once. */
    method ProcessResult(job: Recipe, events: seq<Event>, failed: bool, explored: bool)
      requires Books()
      modifies `frontier, `states, `stateIndex, `stats, `bugRecipes, `log
      ensures Books() && stats.totalTimelines == old(stats).totalTimelines + 1 && stats.maxActive == old(stats).maxActive
      ensures View() == After(old(View()), job, events, failed, explored)
      ensures Tallied(old(View()), View(), job, events, failed, explored, Productive(config, job, events))
      ensures Expands(config, derive, rootSeed, old(View()), View(), job, events)
      ensures log == old(log) + [Outcome(job, events, failed, explored)]
    {
      LearnedMeans(config, derive, rootSeed, View(), job, events, failed, explored);
      CountResult(job, events, failed, explored);
      Expand(job, events);
      AccountsOn(log, old(View()), View(), Outcome(job, events, failed, explored), Productive(config, job, events));
      log := log + [Outcome(job, events, failed, explored)];
    }

    /** The most promising state with a recipe that can grow. */
    method PickState() returns (r: Option<nat>)
      ensures r.None? <==> forall i | 0 <= i < |states| :: !Eligible(states[i], config.maxRecipeLen)
      ensures r.Some? ==> Picks(states, config.maxRecipeLen, r.value)
    {
      r := None;
      for i := 0 to |states|
        invariant r.None? <==> forall j | 0 <= j < i :: !Eligible(states[j], config.maxRecipeLen)
        invariant r.Some? ==> r.value < i && Eligible(states[r.value], config.maxRecipeLen)
        invariant r.Some? ==> forall j | 0 <= j < i && j != r.value && Eligible(states[j], config.maxRecipeLen) ::
                    Before(KeyOf(states[r.value], r.value), KeyOf(states[j], j))
      {
        if Eligible(states[i], config.maxRecipeLen) {
          if r.None? || Before(KeyOf(states[i], i), KeyOf(states[r.value], r.value)) { r := Some(i); }
        }
      }
    }

    /** The frontier is empty: a fresh batch from the most promising state, if any. */
    method ScheduleContinuations() returns (more: bool)
      requires config.Valid() && frontier == []
      modifies `states, `round, `frontier
      ensures more == (frontier != [])
      ensures more ==> round == old(round) + 1 && exists i :: Continues(config, derive, rootSeed, round, old(states), i, states, frontier)
      ensures !more ==> states == old(states) && round == old(round)
      ensures !more ==> forall i {:trigger states[i]} | 0 <= i < |states| :: !Eligible(states[i], config.maxRecipeLen)
    {
      var pick := PickState();
      if pick.None? { return false; }
      var i := pick.value;
      round := round + 1;
      var ex := Rotate(states[i]);
      var id := states[i].id;
      Visit(i);
      ExpandFrom(ex.recipe, ex.anchor, id, round);
      more := frontier != [];
      assert Continues(config, derive, rootSeed, round, old(states), i, states, frontier);
    }

    /** This visit's exemplar among those that can grow. */
    method Rotate(s: StateEntry) returns (ex: Exemplar)
      requires Eligible(s, config.maxRecipeLen)
      ensures ex == Turn(s, config.maxRecipeLen, round)
    {
      EligibleGrows(s, config.maxRecipeLen);
      var growable: seq<Exemplar> := [];
      for i := 0 to |s.exemplars|
        invariant growable == Growable(s.exemplars[..i], config.maxRecipeLen)
      {
        assert s.exemplars[..i + 1][..i] == s.exemplars[..i];
        if |s.exemplars[i].recipe| < config.maxRecipeLen { growable := growable + [s.exemplars[i]]; }
      }
      assert s.exemplars[..|s.exemplars|] == s.exemplars;
      ex := growable[round % |growable|];
    }

    // ---- runs ----

    method ObserveRootRun(events: seq<Event>, failed: bool)
      requires Valid() && runsStarted == 0
      modifies `runsStarted, `frontier, `states, `stateIndex, `stats, `bugRecipes, `log
      ensures Valid() && runsStarted == 1
      ensures View() == After(old(View()), [], events, failed, false) && log == old(log) + [Outcome([], events, failed, false)]
    {
      runsStarted := runsStarted + 1;
      Settle([], events, failed, false);
    }

    /** One run is over and not counted yet. */
    ghost predicate Owed()
      reads this
    {
      Pool() && Books() && |active| <= stats.maxActive <= config.workers && stats.totalTimelines + |active| + 1 == runsStarted <= config.maxRuns
    }

    /** Its result balances the accounts. */
    method Settle(job: Recipe, events: seq<Event>, failed: bool, explored: bool)
      requires Owed()
      modifies `frontier, `states, `stateIndex, `stats, `bugRecipes, `log
      ensures Valid() && View() == After(old(View()), job, events, failed, explored) && log == old(log) + [Outcome(job, events, failed, explored)]
    {
      ProcessResult(job, events, failed, explored);
    }

    /** A run in this process: it is over when this returns. */
    method RunInProcess(job: Recipe, events: seq<Event>, failed: bool)
      requires Owed()
      modifies `frontier, `states, `stateIndex, `stats, `bugRecipes, `log
      ensures Valid() && View() == After(old(View()), job, events, failed, true) && log == old(log) + [Outcome(job, events, failed, true)]
    {
      Settle(job, events, failed, true);
    }

    /** A worker takes the slot at the top of the free ones. */
    method TakeSlot(job: Recipe)
      requires Pool() && freeSlots != []
      modifies `active, `freeSlots, `lastPid
      ensures Pool() && |active| == |old(active)| + 1 <= config.workers && lastPid !in old(active)
      ensures TookSlot(old(active), old(freeSlots), job)
    {
      var n, pid := |freeSlots| - 1, lastPid + 1;
      SlotTaken(config.workers, freeSlots, active, pid, job);
      active, lastPid := active[pid := Worker(freeSlots[n], job)], pid;
      freeSlots := freeSlots[..n];
    }

    ghost predicate TookSlot(before: map<nat, Worker>, free: seq<nat>, job: Recipe)
      reads `active, `freeSlots, `lastPid
    {
      free != [] && lastPid !in before && active == before[lastPid := Worker(free[|free| - 1], job)] && freeSlots == free[..|free| - 1]
    }

    /** A worker takes a slot, or the fork fails and the run happens here. */
    method SpawnWorker(job: Recipe, forks: bool, events: seq<Event>, failed: bool)
      requires Owed() && freeSlots != []
      modifies `frontier, `states, `stateIndex, `stats, `bugRecipes, `active, `freeSlots, `lastPid, `log
      ensures Valid()
      ensures forks ==> TookSlot(old(active), old(freeSlots), job) && View() == Noted(old(View()), |active|) && log == old(log)
      ensures !forks ==> View() == After(old(View()), job, events, failed, true) && active == old(active) && freeSlots == old(freeSlots)
      ensures !forks ==> log == old(log) + [Outcome(job, events, failed, true)]
      ensures forks ==> stats.maxActive == if |active| > old(stats).maxActive then |active| else old(stats).maxActive
    {
      if !forks {
        RunInProcess(job, events, failed);
        return;
      }
      TakeSlot(job);
      NotedOk(config, View(), |active|, log);
      if |active| > stats.maxActive { stats := stats.(maxActive := |active|); }
      assert View() == Noted(old(View()), |active|);
    }

    ghost predicate GaveBack(before: map<nat, Worker>, free: seq<nat>, pid: nat)
      reads `active, `freeSlots
    {
      pid in before && active == before - {pid} && freeSlots == free + [before[pid].slot]
    }

    /** A worker's slot is free again. */
    method ReturnSlot(pid: nat) returns (job: Recipe)
      requires Pool() && pid in active
      modifies `active, `freeSlots
      ensures Pool() && |active| == |old(active)| - 1 && job == old(active[pid]).job
      ensures GaveBack(old(active), old(freeSlots), pid)
    {
      SlotReturned(config.workers, freeSlots, active, pid);
      job := active[pid].job;
      freeSlots, active := freeSlots + [active[pid].slot], active - {pid};
    }

    /** A live worker ends: its slot is free again and its result is in. */
    method ReapOne(pid: nat, events: seq<Event>, failed: bool)
      requires Valid() && pid in active
      modifies `frontier, `states, `stateIndex, `stats, `bugRecipes, `active, `freeSlots, `log
      ensures Valid() && |active| == |old(active)| - 1 && GaveBack(old(active), old(freeSlots), pid)
      ensures View() == After(old(View()), old(active[pid]).job, events, failed, true)
      ensures log == old(log) + [Outcome(old(active[pid]).job, events, failed, true)]
    {
      var job := ReturnSlot(pid);
      assert Owed() && View() == old(View());
      Settle(job, events, failed, true);
    }

    /** The oldest job of the frontier starts. */
    method StartNext(forks: bool, events: seq<Event>, failed: bool)
      requires Valid() && frontier != [] && runsStarted < config.maxRuns && (config.workers > 0 ==> freeSlots != [])
      modifies `runsStarted, `frontier, `states, `stateIndex, `stats, `bugRecipes, `active, `freeSlots, `lastPid, `log
      ensures Valid() && runsStarted == old(runsStarted) + 1
      ensures var popped := old(View()).(frontier := old(frontier)[1..]);
              if config.workers > 0 && forks
              then TookSlot(old(active), old(freeSlots), old(frontier)[0]) && View() == Noted(popped, |active|) && log == old(log)
              else View() == After(popped, old(frontier)[0], events, failed, true) && active == old(active)
                   && log == old(log) + [Outcome(old(frontier)[0], events, failed, true)]
    {
      var job := frontier[0];
      frontier := frontier[1..];
      runsStarted := runsStarted + 1;
      if config.workers == 0 { RunInProcess(job, events, failed); } else { SpawnWorker(job, forks, events, failed); }
    }

    /** Any worker ends, with any result. */
    method ReapAny()
      requires Valid() && active != map[]
      modifies `frontier, `states, `stateIndex, `stats, `bugRecipes, `active, `freeSlots, `log
      ensures Valid() && |active| == |old(active)| - 1 && old(log) <= log
    {
      var pid :| pid in active;
      var events: seq<Event> := *;
      var failed: bool := *;
      ReapOne(pid, events, failed);
    }

    /** The oldest job starts, whether the fork succeeds and whatever the run finds. */
    method StartAny()
      requires Valid() && frontier != [] && runsStarted < config.maxRuns && (config.workers > 0 ==> freeSlots != [])
      modifies `runsStarted, `frontier, `states, `stateIndex, `stats, `bugRecipes, `active, `freeSlots, `lastPid, `log
      ensures Valid() && runsStarted == old(runsStarted) + 1 && old(log) <= log
    {
      var forks: bool := *;
      var events: seq<Event> := *;
      var failed: bool := *;
      StartNext(forks, events, failed);
    }

    /** A fresh batch from some state, if any can grow. */
    method Continue() returns (more: bool)
      requires config.Valid() && Books() && frontier == []
      modifies `states, `round, `frontier
      ensures Books() && more == (frontier != [])
      ensures !more ==> forall i {:trigger states[i]} | 0 <= i < |states| :: !Eligible(states[i], config.maxRecipeLen)
    {
      more := ScheduleContinuations();
      if more {
        ghost var i :| Continues(config, derive, rootSeed, round, old(states), i, states, frontier);
        ContinuesKnown(config, derive, rootSeed, round, old(View()), i, states, frontier);
        assert View() == old(View()).(states := states, frontier := frontier);
      }
    }

    /** Nothing runs, nothing waits and no recipe can grow. */
    ghost predicate NothingLeft()
      reads this
    {
      active == map[] && frontier == [] && forall i {:trigger states[i]} | 0 <= i < |states| :: !Eligible(states[i], config.maxRecipeLen)
    }

    /** Explore until the budget is spent or nothing is left to try; then wait for every worker.
        It ends for every order in which workers do. */
    method Explore()
      requires Valid()
      modifies `runsStarted, `frontier, `states, `stateIndex, `round, `stats, `bugRecipes, `active, `freeSlots, `lastPid, `log
      ensures Valid() && active == map[] && |freeSlots| == config.workers
      ensures stats.totalTimelines == runsStarted <= config.maxRuns
      ensures runsStarted == config.maxRuns || NothingLeft()
      ensures old(log) <= log && |log| == runsStarted && Accounts(log, stats, bugRecipes)
    {
      while runsStarted < config.maxRuns
        invariant Valid() && old(log) <= log
        decreases config.maxRuns - runsStarted, |active|, if frontier == [] then 1 else 0
      {
        var more := Turnover();
        if !more { break; }
      }
      Drain();
    }

    /** One turn of the loop: a worker is waited for, a batch is scheduled, or a job starts. */
    method Turnover() returns (more: bool)
      requires Valid() && runsStarted < config.maxRuns
      modifies `runsStarted, `frontier, `states, `stateIndex, `round, `stats, `bugRecipes, `active, `freeSlots, `lastPid, `log
      ensures Valid() && old(log) <= log
      ensures !more ==> NothingLeft() && runsStarted == old(runsStarted)
      ensures more ==> runsStarted > old(runsStarted) || |active| < |old(active)| || (old(frontier) == [] && frontier != [])
      ensures runsStarted >= old(runsStarted) && (runsStarted == old(runsStarted) ==> |active| <= |old(active)|)
    {
      more := true;
      if frontier == [] {
        if active != map[] { ReapAny(); } else { more := Continue(); }
      } else if config.workers > 0 && freeSlots == [] {
        ReapAny();
      } else {
        StartAny();
      }
    }

    /** Wait for every worker. */
    method Drain()
      requires Valid()
      modifies `frontier, `states, `stateIndex, `stats, `bugRecipes, `active, `freeSlots, `log
      ensures Valid() && active == map[] && |freeSlots| == config.workers && old(log) <= log
      ensures old(active) == map[] ==> frontier == old(frontier) && states == old(states)
    {
      while active != map[]
        invariant Valid() && old(log) <= log && (old(active) == map[] ==> active == map[] && frontier == old(frontier) && states == old(states))
        decreases |active|
      {
        ReapAny();
      }
    }
  }

  predicate Strongest(events: seq<Event>, a: Event) { a in events && forall k | 0 <= k < |events| :: AsStrong(a, events[k]) }

  lemma NotedOk(c: Config, k: Known, live: nat, log: seq<Outcome>)
    requires KnownOk(c, k) && Accounts(log, k.stats, k.bugs)
    ensures KnownOk(c, Noted(k, live)) && Accounts(log, Noted(k, live).stats, Noted(k, live).bugs)
  {
  }

  /** The number of live workers is noted when it is the highest so far. */
  function Noted(k: Known, live: nat): Known { if live > k.stats.maxActive then k.(stats := k.stats.(maxActive := live)) else k }

  /** The last of the strongest discoveries. */
  method SelectAnchor(events: seq<Event>) returns (a: Event)
    requires events != []
    ensures a == Anchor(events) && Strongest(events, a)
  {
    a := events[0];
    for n := 1 to |events|
      invariant a == Anchor(events[..n])
    {
      assert events[..n + 1][..n] == events[..n];
      if AsStrong(events[n], a) { a := events[n]; }
    }
    assert events[..|events|] == events;
  }
}
