/** The loops that evaluate a need and enumerate its sets, and what the minimal ones are. */
module NeedLoops {
  import opened Needs
  import opened NeedSets

  // ---- evaluation ----

  lemma HoldsAdmitted(need: Need, i: nat, ok: nat -> bool)
    requires !need.AtLeast? && i < |need.needs|
    ensures Holds(need.needs[i], Admitted(need, ok)) <==> Holds(need.needs[i], Admitted(need.needs[i], ok))
  {
    var sub := need.needs[i];
    NamesBelow(need, need.needs, i);
    if Holds(sub, Admitted(need, ok)) {
      HoldsLocally(sub, Admitted(need, ok), Replicas(sub));
      assert Admitted(need, ok) * Replicas(sub) <= Admitted(sub, ok);
      HoldsGrows(sub, Admitted(need, ok) * Replicas(sub), Admitted(sub, ok));
    }
    if Holds(sub, Admitted(sub, ok)) { HoldsGrows(sub, Admitted(sub, ok), Admitted(need, ok)); }
  }

  method CountDistinct(replicas: seq<nat>, ok: nat -> bool) returns (n: nat)
    ensures n == |set r | r in replicas && ok(r)|
  {
    var seen: set<nat> := {};
    n := 0;
    for i := 0 to |replicas|
      invariant seen == set r | r in replicas[..i] && ok(r)
      invariant n == |seen|
    {
      if ok(replicas[i]) && replicas[i] !in seen {
        seen := seen + {replicas[i]};
        n := n + 1;
      }
      assert forall r :: r in replicas[..i + 1] <==> r in replicas[..i] || r == replicas[i];
    }
    assert replicas[..|replicas|] == replicas;
  }

  /** Whether need `i` alone holds on what `ok` admits of it. */
  predicate HoldsAt(need: Need, i: nat, ok: nat -> bool)
    requires !need.AtLeast? && i < |need.needs|
  {
    Holds(need.needs[i], Admitted(need.needs[i], ok))
  }

  lemma HoldsEach(need: Need, ok: nat -> bool)
    ensures need.All? ==> (Holds(need, Admitted(need, ok)) <==> forall i {:trigger HoldsAt(need, i, ok)} | 0 <= i < |need.needs| :: HoldsAt(need, i, ok))
    ensures need.Any? ==> (Holds(need, Admitted(need, ok)) <==> exists i {:trigger HoldsAt(need, i, ok)} | 0 <= i < |need.needs| :: HoldsAt(need, i, ok))
  {
    if !need.AtLeast? {
      forall i | 0 <= i < |need.needs| ensures Holds(need.needs[i], Admitted(need, ok)) <==> HoldsAt(need, i, ok) {
        HoldsAdmitted(need, i, ok);
      }
    }
  }

  /** Whether the need holds on the replicas `ok` admits. */
  method RunHolds(need: Need, ok: nat -> bool) returns (holds: bool)
    ensures holds == Holds(need, Admitted(need, ok))
    decreases need, 1
  {
    HoldsEach(need, ok);
    match need
    case AtLeast(count, replicas) =>
      var n := CountDistinct(replicas, ok);
      assert ToSet(replicas) * Admitted(need, ok) == set r | r in replicas && ok(r);
      holds := n >= count;
    case All(needs) => holds := AllHold(need, ok);
    case Any(needs) => holds := AnyHolds(need, ok);
  }

  method AllHold(need: Need, ok: nat -> bool) returns (holds: bool)
    requires need.All?
    ensures holds == forall i {:trigger HoldsAt(need, i, ok)} | 0 <= i < |need.needs| :: HoldsAt(need, i, ok)
    decreases need, 0
  {
    for i := 0 to |need.needs|
      invariant forall j {:trigger HoldsAt(need, j, ok)} | 0 <= j < i :: HoldsAt(need, j, ok)
    {
      var one := RunHolds(need.needs[i], ok);
      assert one == HoldsAt(need, i, ok);
      if !one { return false; }
    }
    return true;
  }

  method AnyHolds(need: Need, ok: nat -> bool) returns (holds: bool)
    requires need.Any?
    ensures holds == exists i {:trigger HoldsAt(need, i, ok)} | 0 <= i < |need.needs| :: HoldsAt(need, i, ok)
    decreases need, 0
  {
    for i := 0 to |need.needs|
      invariant forall j {:trigger HoldsAt(need, j, ok)} | 0 <= j < i :: !HoldsAt(need, j, ok)
    {
      var one := RunHolds(need.needs[i], ok);
      assert one == HoldsAt(need, i, ok);
      if one { return true; }
    }
    return false;
  }

  // ---- combinations ----

  /** The last pick that can still move, or none. */
  method LastMovable(picks: seq<nat>, n: nat) returns (at: int)
    requires |picks| <= n
    ensures -1 <= at < |picks|
    ensures at >= 0 ==> picks[at] < n - |picks| + at
    ensures forall i | at < i < |picks| :: picks[i] >= n - |picks| + i
  {
    at := |picks| - 1;
    while at >= 0 && picks[at] >= n - |picks| + at
      invariant -1 <= at < |picks|
      invariant forall i | at < i < |picks| :: picks[i] >= n - |picks| + i
    {
      at := at - 1;
    }
  }

  method Advance(picks: seq<nat>, at: nat) returns (next: seq<nat>)
    requires at < |picks|
    ensures next == Next(picks, at)
  {
    next := picks[at := picks[at] + 1];
    for after := at + 1 to |picks|
      invariant |next| == |picks| && next[..at] == picks[..at]
      invariant forall i | at <= i < after :: next[i] == picks[at] + 1 + (i - at)
    {
      next := next[after := next[after - 1] + 1];
    }
    assert next == next[..at] + next[at..];
    assert next[at..] == Range(picks[at] + 1, |picks| - at);
  }

  lemma FromStarts(n: nat, picks: seq<nat>)
    ensures From(n, picks) != [] && From(n, picks)[0] == picks
  {
    if picks != [] {
      FromStarts(n, picks[1..]);
      assert [picks[0]] + picks[1..] == picks;
    }
  }

  predicate ChosenAll(pool: seq<nat>, picked: seq<seq<nat>>, out: seq<set<nat>>) {
    |out| == |picked| && forall i | 0 <= i < |out| :: out[i] == Chosen(pool, picked[i])
  }

  lemma ChosenCut(pool: seq<nat>, k: nat, picked: seq<seq<nat>>, rest: seq<seq<nat>>, out: seq<set<nat>>)
    requires AllPicks(|pool|, 0, k) == picked + rest && ChosenAll(pool, picked, out) && |out| <= CAP
    requires rest == [] || |out| == CAP
    ensures out == Cut(KSets(pool, k))
  {
    var all := KSets(pool, k);
    forall i | 0 <= i < |out| ensures all[i] == out[i] {
      assert AllPicks(|pool|, 0, k)[i] == picked[i];
    }
    if |all| > CAP { assert all[..CAP] == out; } else { assert all == out; }
  }

  /** The picks listed so far, what they choose, and the picks to list next. */
  predicate Listing(pool: seq<nat>, k: nat, picks: seq<nat>, picked: seq<seq<nat>>, out: seq<set<nat>>) {
    |picks| == k <= |pool| && Picks(|pool|, 0, picks) && AllPicks(|pool|, 0, k) == picked + From(|pool|, picks) && ChosenAll(pool, picked, out)
  }

  lemma ListingStarts(pool: seq<nat>, k: nat)
    requires k <= |pool|
    ensures Listing(pool, k, Range(0, k), [], [])
  {
    FromFirst(|pool|, 0, k);
    assert [] + From(|pool|, Range(0, k)) == From(|pool|, Range(0, k));
  }

  lemma ListingTakes(pool: seq<nat>, k: nat, picks: seq<nat>, picked: seq<seq<nat>>, out: seq<set<nat>>) returns (rest: seq<seq<nat>>)
    requires Listing(pool, k, picks, picked, out)
    ensures From(|pool|, picks) == [picks] + rest
    ensures AllPicks(|pool|, 0, k) == picked + [picks] + rest && ChosenAll(pool, picked + [picks], out + [Chosen(pool, picks)])
  {
    FromStarts(|pool|, picks);
    rest := From(|pool|, picks)[1..];
    assert picked + From(|pool|, picks) == picked + [picks] + rest;
  }

  /** At the cap the list is cut. */
  lemma ListingCuts(pool: seq<nat>, k: nat, picks: seq<nat>, picked: seq<seq<nat>>, out: seq<set<nat>>)
    requires Listing(pool, k, picks, picked, out) && |out| + 1 == CAP
    ensures out + [Chosen(pool, picks)] == Cut(KSets(pool, k))
  {
    var rest := ListingTakes(pool, k, picks, picked, out);
    ChosenCut(pool, k, picked + [picks], rest, out + [Chosen(pool, picks)]);
  }

  /** When no pick can move the list is complete. */
  lemma ListingEnds(pool: seq<nat>, k: nat, picks: seq<nat>, picked: seq<seq<nat>>, out: seq<set<nat>>)
    requires Listing(pool, k, picks, picked, out) && |out| < CAP && forall i | 0 <= i < |picks| :: picks[i] >= |pool| - |picks| + i
    ensures out + [Chosen(pool, picks)] == Cut(KSets(pool, k))
  {
    var rest := ListingTakes(pool, k, picks, picked, out);
    FromLast(|pool|, picks);
    ChosenCut(pool, k, picked + [picks], [], out + [Chosen(pool, picks)]);
  }

  lemma ListingMoves(pool: seq<nat>, k: nat, picks: seq<nat>, picked: seq<seq<nat>>, out: seq<set<nat>>, at: nat)
    requires Listing(pool, k, picks, picked, out) && at < |picks| && picks[at] < |pool| - |picks| + at
    requires forall i | at < i < |picks| :: picks[i] >= |pool| - |picks| + i
    ensures Listing(pool, k, Next(picks, at), picked + [picks], out + [Chosen(pool, picks)])
    ensures |From(|pool|, Next(picks, at))| < |From(|pool|, picks)|
  {
    var rest := ListingTakes(pool, k, picks, picked, out);
    FromNext(|pool|, picks, at);
    NextIsPicks(|pool|, picks, at);
  }

  /** Every `k`-subset of the pool in lexicographic order, cut at the cap. */
  method Combinations(pool: seq<nat>, k: nat) returns (out: seq<set<nat>>)
    ensures out == Cut(KSets(pool, k))
  {
    out := [];
    if k > |pool| {
      return;
    }
    var picks := Range(0, k);
    ghost var picked: seq<seq<nat>> := [];
    ListingStarts(pool, k);
    while true
      invariant Listing(pool, k, picks, picked, out) && |out| < CAP
      decreases |From(|pool|, picks)|
    {
      ghost var before := out;
      out := out + [Chosen(pool, picks)];
      if |out| >= CAP {
        ListingCuts(pool, k, picks, picked, before);
        return;
      }
      var at := LastMovable(picks, |pool|);
      if at < 0 {
        ListingEnds(pool, k, picks, picked, before);
        return;
      }
      ListingMoves(pool, k, picks, picked, before, at);
      picked := picked + [picks];
      picks := Advance(picks, at);
    }
  }

  // ---- the sets of a need ----

  method PoolOf(replicas: seq<nat>, ok: nat -> bool) returns (pool: seq<nat>)
    ensures pool == Pool(replicas, ok)
  {
    pool := [];
    for i := 0 to |replicas|
      invariant pool == Pool(replicas[..i], ok)
    {
      assert replicas[..i + 1][..i] == replicas[..i];
      if ok(replicas[i]) { pool := Insert(pool, replicas[i]); }
    }
    assert replicas[..|replicas|] == replicas;
  }

  lemma {:induction false} ProductPrefix(acc: seq<set<nat>>, options: seq<set<nat>>, b: nat)
    requires b <= |acc|
    ensures Product(acc[..b], options) <= Product(acc, options)
    decreases |acc| - b
  {
    if b == |acc| {
      assert acc[..b] == acc;
    } else {
      ProductPrefix(acc, options, b + 1);
      assert acc[..b + 1][..b] == acc[..b];
    }
  }

  /** The unions so far: whole rows, then part of one. */
  function Rows(acc: seq<set<nat>>, options: seq<set<nat>>, b: nat, o: nat): seq<set<nat>>
    requires b <= |acc| && o <= |options| && (b == |acc| ==> o == 0)
  {
    Product(acc[..b], options) + if b < |acc| then Joined(acc[b], options)[..o] else []
  }

  lemma RowsPrefix(acc: seq<set<nat>>, options: seq<set<nat>>, b: nat, o: nat)
    requires b < |acc| && o <= |options|
    ensures Rows(acc, options, b, o) <= Product(acc, options)
    ensures o == |options| ==> Rows(acc, options, b, o) == Rows(acc, options, b + 1, 0)
  {
    ProductPrefix(acc, options, b + 1);
    assert acc[..b + 1][..b] == acc[..b];
    assert Joined(acc[b], options)[..|options|] == Joined(acc[b], options);
  }

  lemma CutAt(sets: seq<set<nat>>, next: seq<set<nat>>)
    requires next <= sets && |next| == CAP
    ensures next == Cut(sets)
  {
    if |sets| == CAP { assert next == sets; }
  }

  /** Every union of a base and an option, cut at the cap. */
  method RunProduct(acc: seq<set<nat>>, options: seq<set<nat>>) returns (next: seq<set<nat>>)
    ensures next == Cut(Product(acc, options))
  {
    next := [];
    for b := 0 to |acc|
      invariant next == Rows(acc, options, b, 0) && |next| < CAP
    {
      for o := 0 to |options|
        invariant next == Rows(acc, options, b, o) && |next| < CAP
      {
        next := next + [acc[b] + options[o]];
        assert Joined(acc[b], options)[..o + 1] == Joined(acc[b], options)[..o] + [acc[b] + options[o]];
        assert next == Rows(acc, options, b, o + 1);
        if |next| >= CAP {
          RowsPrefix(acc, options, b, o + 1);
          CutAt(Product(acc, options), next);
          return;
        }
      }
      RowsPrefix(acc, options, b, |options|);
    }
    assert acc[..|acc|] == acc;
  }

  lemma {:induction false} AllStaysEmpty(need: Need, n: nat, ok: nat -> bool)
    requires need.All? && n <= |need.needs| && AllSets(need, n, ok) == []
    ensures AllSets(need, |need.needs|, ok) == []
    decreases |need.needs| - n
  {
    if n < |need.needs| {
      assert Product([], Sets(need.needs[n], ok)) == [];
      AllStaysEmpty(need, n + 1, ok);
    }
  }

  lemma {:induction false} AnyStaysFull(need: Need, n: nat, ok: nat -> bool)
    requires need.Any? && n <= |need.needs| && |AnySets(need, n, ok)| >= CAP
    ensures AnySets(need, |need.needs|, ok) == AnySets(need, n, ok)
    decreases |need.needs| - n
  {
    if n < |need.needs| { AnyStaysFull(need, n + 1, ok); }
  }

  method RunSets(need: Need, ok: nat -> bool) returns (out: seq<set<nat>>)
    ensures out == Sets(need, ok)
    decreases need, 1
  {
    match need
    case AtLeast(count, replicas) =>
      var pool := PoolOf(replicas, ok);
      out := Combinations(pool, count);
    case All(needs) => out := RunAll(need, ok);
    case Any(needs) => out := RunAny(need, ok);
  }

  method RunAll(need: Need, ok: nat -> bool) returns (acc: seq<set<nat>>)
    requires need.All?
    ensures acc == AllSets(need, |need.needs|, ok)
    decreases need, 0
  {
    acc := [{}];
    for n := 0 to |need.needs|
      invariant acc == AllSets(need, n, ok)
    {
      var options := RunSets(need.needs[n], ok);
      acc := RunProduct(acc, options);
      if acc == [] {
        AllStaysEmpty(need, n + 1, ok);
        return;
      }
    }
  }

  method RunAny(need: Need, ok: nat -> bool) returns (out: seq<set<nat>>)
    requires need.Any?
    ensures out == AnySets(need, |need.needs|, ok)
    decreases need, 0
  {
    out := [];
    for n := 0 to |need.needs|
      invariant out == AnySets(need, n, ok) && |out| < CAP
    {
      var more := RunSets(need.needs[n], ok);
      out := out + more;
      if |out| >= CAP {
        AnyStaysFull(need, n + 1, ok);
        return;
      }
    }
  }
}
