/** The sets of replicas that satisfy a need, as the enumeration lists them, cut at its cap. */
module NeedSets {
  import opened Needs

  // ---- the pool ----

  predicate Increasing(xs: seq<nat>) { forall i, j | 0 <= i < j < |xs| :: xs[i] < xs[j] }

  function Insert(xs: seq<nat>, x: nat): seq<nat> {
    if xs == [] then [x]
    else if x < xs[0] then [x] + xs
    else if x == xs[0] then xs
    else [xs[0]] + Insert(xs[1..], x)
  }

  /** The admitted replicas, sorted and without duplicates. */
  function Pool(replicas: seq<nat>, ok: nat -> bool): seq<nat> {
    if replicas == [] then []
    else
      var n := |replicas| - 1;
      if ok(replicas[n]) then Insert(Pool(replicas[..n], ok), replicas[n]) else Pool(replicas[..n], ok)
  }

  lemma {:induction false} InsertKeeps(xs: seq<nat>, x: nat)
    requires Increasing(xs)
    ensures Increasing(Insert(xs, x))
    ensures forall y :: y in Insert(xs, x) <==> y in xs || y == x
    decreases |xs|
  {
    if xs != [] && x > xs[0] {
      var rest := xs[1..];
      InsertKeeps(rest, x);
      var r := Insert(rest, x);
      forall j | 0 <= j < |r| ensures xs[0] < r[j] {
        assert r[j] in r;
        if r[j] in rest { assert xs[0] < r[j]; }
      }
      assert forall y :: y in xs <==> y == xs[0] || y in rest;
    }
  }

  lemma {:induction false} PoolIs(replicas: seq<nat>, ok: nat -> bool)
    ensures Increasing(Pool(replicas, ok))
    ensures forall x :: x in Pool(replicas, ok) <==> x in replicas && ok(x)
  {
    if replicas != [] {
      var n := |replicas| - 1;
      PoolIs(replicas[..n], ok);
      InsertKeeps(Pool(replicas[..n], ok), replicas[n]);
      assert forall x :: x in replicas <==> x in replicas[..n] || x == replicas[n];
    }
  }

  // ---- the sets ----

  function Chosen(pool: seq<nat>, picks: seq<nat>): set<nat> {
    set i | 0 <= i < |picks| && picks[i] < |pool| :: pool[picks[i]]
  }

  function KSets(pool: seq<nat>, k: nat): (r: seq<set<nat>>)
    ensures |r| == |AllPicks(|pool|, 0, k)|
  {
    var all := AllPicks(|pool|, 0, k);
    seq(|all|, i requires 0 <= i < |all| => Chosen(pool, all[i]))
  }

  function Cut(sets: seq<set<nat>>): (r: seq<set<nat>>)
    ensures r <= sets && (|sets| <= CAP ==> r == sets) && (sets != [] ==> r != [])
  {
    if |sets| > CAP then sets[..CAP] else sets
  }

  function Joined(base: set<nat>, options: seq<set<nat>>): (r: seq<set<nat>>)
    ensures |r| == |options| && forall i | 0 <= i < |r| :: r[i] == base + options[i]
  {
    seq(|options|, i requires 0 <= i < |options| => base + options[i])
  }

  /** Every union of a set of one list with a set of the other. */
  function Product(acc: seq<set<nat>>, options: seq<set<nat>>): seq<set<nat>> {
    if acc == [] then [] else Product(acc[..|acc| - 1], options) + Joined(acc[|acc| - 1], options)
  }

  function Sets(need: Need, ok: nat -> bool): seq<set<nat>>
    decreases need, 1, 0
  {
    match need
    case AtLeast(count, replicas) => Cut(KSets(Pool(replicas, ok), count))
    case All(needs) => AllSets(need, |needs|, ok)
    case Any(needs) => AnySets(need, |needs|, ok)
  }

  function AllSets(need: Need, n: nat, ok: nat -> bool): seq<set<nat>>
    requires need.All? && n <= |need.needs|
    decreases need, 0, n
  {
    if n == 0 then [{}] else Cut(Product(AllSets(need, n - 1, ok), Sets(need.needs[n - 1], ok)))
  }

  function AnySets(need: Need, n: nat, ok: nat -> bool): seq<set<nat>>
    requires need.Any? && n <= |need.needs|
    decreases need, 0, n
  {
    if n == 0 then []
    else
      var before := AnySets(need, n - 1, ok);
      if |before| >= CAP then before else before + Sets(need.needs[n - 1], ok)
  }

  /** Whether the cap cut anything off. */
  predicate CapHit(need: Need, ok: nat -> bool)
    decreases need, 1, 0
  {
    match need
    case AtLeast(count, replicas) => |KSets(Pool(replicas, ok), count)| > CAP
    case All(needs) => AllHit(need, |needs|, ok)
    case Any(needs) => AnyHit(need, |needs|, ok)
  }

  predicate AllHit(need: Need, n: nat, ok: nat -> bool)
    requires need.All? && n <= |need.needs|
    decreases need, 0, n
  {
    n > 0 && (AllHit(need, n - 1, ok) || CapHit(need.needs[n - 1], ok)
              || |Product(AllSets(need, n - 1, ok), Sets(need.needs[n - 1], ok))| > CAP)
  }

  predicate AnyHit(need: Need, n: nat, ok: nat -> bool)
    requires need.Any? && n <= |need.needs|
    decreases need, 0, n
  {
    n > 0 && (AnyHit(need, n - 1, ok) || CapHit(need.needs[n - 1], ok) || |AnySets(need, n - 1, ok)| >= CAP)
  }

  // ---- each k-subset of the pool, once ----

  lemma {:induction false} ChosenSize(pool: seq<nat>, picks: seq<nat>)
    requires Increasing(pool) && Picks(|pool|, 0, picks)
    ensures |Chosen(pool, picks)| == |picks|
  {
    if picks != [] {
      var n := |picks| - 1;
      ChosenSize(pool, picks[..n]);
      forall x | x in Chosen(pool, picks[..n]) ensures x < pool[picks[n]] {
        var i :| 0 <= i < n && pool[picks[..n][i]] == x;
        assert picks[i] < picks[n];
      }
      ChosenSnoc(pool, picks);
    } else {
      assert Chosen(pool, picks) == {};
    }
  }

  lemma ChosenSnoc(pool: seq<nat>, picks: seq<nat>)
    requires picks != [] && picks[|picks| - 1] < |pool|
    ensures Chosen(pool, picks) == Chosen(pool, picks[..|picks| - 1]) + {pool[picks[|picks| - 1]]}
  {
    var n := |picks| - 1;
    forall x ensures x in Chosen(pool, picks) <==> x in Chosen(pool, picks[..n]) || x == pool[picks[n]] {
      if x in Chosen(pool, picks) {
        var i :| 0 <= i < |picks| && picks[i] < |pool| && pool[picks[i]] == x;
        if i < n { assert picks[..n][i] == picks[i]; }
      }
      if x in Chosen(pool, picks[..n]) {
        var i :| 0 <= i < n && picks[..n][i] < |pool| && pool[picks[..n][i]] == x;
        assert picks[i] == picks[..n][i];
      }
    }
  }

  lemma KSetOf(pool: seq<nat>, k: nat, m: set<nat>) returns (picks: seq<nat>)
    requires Increasing(pool) && m in KSets(pool, k)
    ensures |picks| == k && Picks(|pool|, 0, picks) && m == Chosen(pool, picks) && |m| == k
  {
    var all := AllPicks(|pool|, 0, k);
    var i :| 0 <= i < |all| && KSets(pool, k)[i] == m;
    picks := all[i];
    AllPicksIncrease(|pool|, 0, k, picks);
    ChosenSize(pool, picks);
  }

  /** The places in the pool of the replicas in `available`. */
  function Places(pool: seq<nat>, available: set<nat>, n: nat): seq<nat>
    requires n <= |pool|
  {
    if n == 0 then [] else Places(pool, available, n - 1) + if pool[n - 1] in available then [n - 1] else []
  }

  lemma {:induction false} PlacesIncrease(pool: seq<nat>, available: set<nat>, n: nat)
    requires n <= |pool|
    ensures var r := Places(pool, available, n); Picks(n, 0, r) && forall i | 0 <= i < |r| :: pool[r[i]] in available
  {
    if n > 0 { PlacesIncrease(pool, available, n - 1); }
  }

  function Met(pool: seq<nat>, available: set<nat>, n: nat): nat
    requires n <= |pool|
  {
    |ToSet(pool[..n]) * available|
  }

  lemma OneMore(pool: seq<nat>, available: set<nat>, n: nat)
    requires 0 < n <= |pool| && Increasing(pool)
    ensures Met(pool, available, n) == Met(pool, available, n - 1) + if pool[n - 1] in available then 1 else 0
  {
    var x, before, after := pool[n - 1], ToSet(pool[..n - 1]) * available, ToSet(pool[..n]) * available;
    assert forall y :: y in pool[..n] <==> y in pool[..n - 1] || y == x;
    assert x !in pool[..n - 1];
    assert after == if x in available then before + {x} else before;
  }

  lemma {:induction false} PlacesCount(pool: seq<nat>, available: set<nat>, n: nat)
    requires n <= |pool| && Increasing(pool)
    ensures |Places(pool, available, n)| == Met(pool, available, n)
  {
    if n > 0 {
      PlacesCount(pool, available, n - 1);
      OneMore(pool, available, n);
    } else {
      assert ToSet(pool[..0]) * available == {};
    }
  }

  lemma KSetInside(pool: seq<nat>, k: nat, available: set<nat>) returns (m: set<nat>)
    requires Increasing(pool) && |ToSet(pool) * available| >= k
    ensures m in KSets(pool, k) && m <= available
  {
    assert pool[..|pool|] == pool;
    PlacesIncrease(pool, available, |pool|);
    PlacesCount(pool, available, |pool|);
    var picks := Places(pool, available, |pool|)[..k];
    AllPicksComplete(|pool|, 0, picks);
    var i :| 0 <= i < |AllPicks(|pool|, 0, k)| && AllPicks(|pool|, 0, k)[i] == picks;
    m := Chosen(pool, picks);
    assert KSets(pool, k)[i] == m;
  }

  // ---- every listed set satisfies the need ----

  predicate Good(need: Need, ok: nat -> bool, m: set<nat>) {
    Holds(need, m) && forall r | r in m :: ok(r) && r in Replicas(need)
  }

  lemma {:induction false} ProductOf(acc: seq<set<nat>>, options: seq<set<nat>>, m: set<nat>) returns (a: set<nat>, o: set<nat>)
    requires m in Product(acc, options)
    ensures a in acc && o in options && m == a + o
  {
    var n := |acc| - 1;
    if m in Joined(acc[n], options) {
      var i :| 0 <= i < |options| && Joined(acc[n], options)[i] == m;
      a, o := acc[n], options[i];
    } else {
      a, o := ProductOf(acc[..n], options, m);
    }
  }

  lemma {:induction false} ProductHas(acc: seq<set<nat>>, options: seq<set<nat>>, a: set<nat>, o: set<nat>)
    requires a in acc && o in options
    ensures a + o in Product(acc, options)
  {
    var n := |acc| - 1;
    if a in acc[..n] {
      ProductHas(acc[..n], options, a, o);
    } else {
      assert a == acc[n];
      var i :| 0 <= i < |options| && options[i] == o;
      assert Joined(acc[n], options)[i] == a + o;
    }
  }

  /** The first `n` needs hold, on admitted replicas they name. */
  predicate GoodTo(need: Need, n: nat, ok: nat -> bool, m: set<nat>)
    requires need.All? && n <= |need.needs|
  {
    && (forall i | 0 <= i < n :: Holds(need.needs[i], m))
    && forall r | r in m :: ok(r) && r in Replicas(need)
  }

  lemma {:induction false} SetsAreGood(need: Need, ok: nat -> bool, m: set<nat>)
    requires m in Sets(need, ok)
    ensures Good(need, ok, m)
    decreases need, 1, 0
  {
    match need
    case AtLeast(count, replicas) =>
      var pool := Pool(replicas, ok);
      PoolIs(replicas, ok);
      var picks := KSetOf(pool, count, m);
      assert ToSet(replicas) * m == m;
    case All(needs) => AllAreGood(need, |needs|, ok, m);
    case Any(needs) => AnyAreGood(need, |needs|, ok, m);
  }

  lemma UnionIsGood(need: Need, n: nat, ok: nat -> bool, a: set<nat>, o: set<nat>)
    requires need.All? && 0 < n <= |need.needs| && GoodTo(need, n - 1, ok, a) && Good(need.needs[n - 1], ok, o)
    ensures GoodTo(need, n, ok, a + o)
  {
    NamesBelow(need, need.needs, n - 1);
    forall i | 0 <= i < n ensures Holds(need.needs[i], a + o) {
      if i < n - 1 { HoldsGrows(need.needs[i], a, a + o); } else { HoldsGrows(need.needs[i], o, a + o); }
    }
  }

  lemma {:induction false} AllAreGood(need: Need, n: nat, ok: nat -> bool, m: set<nat>)
    requires need.All? && n <= |need.needs| && m in AllSets(need, n, ok)
    ensures GoodTo(need, n, ok, m)
    decreases need, 0, n
  {
    if n > 0 {
      var a, o := ProductOf(AllSets(need, n - 1, ok), Sets(need.needs[n - 1], ok), m);
      AllAreGood(need, n - 1, ok, a);
      SetsAreGood(need.needs[n - 1], ok, o);
      UnionIsGood(need, n, ok, a, o);
    }
  }

  lemma {:induction false} AnyAreGood(need: Need, n: nat, ok: nat -> bool, m: set<nat>)
    requires need.Any? && n <= |need.needs| && m in AnySets(need, n, ok)
    ensures Good(need, ok, m)
    decreases need, 0, n
  {
    if m in AnySets(need, n - 1, ok) {
      AnyAreGood(need, n - 1, ok, m);
    } else {
      SetsAreGood(need.needs[n - 1], ok, m);
      NamesBelow(need, need.needs, n - 1);
    }
  }

  // ---- and, uncut, every satisfying set has a listed one inside ----

  predicate AllOk(available: set<nat>, ok: nat -> bool) { forall x | x in available :: ok(x) }

  lemma PoolInside(replicas: seq<nat>, ok: nat -> bool, available: set<nat>)
    requires AllOk(available, ok)
    ensures Increasing(Pool(replicas, ok)) && ToSet(Pool(replicas, ok)) * available == ToSet(replicas) * available
  {
    PoolIs(replicas, ok);
  }

  lemma {:induction false} SetsCover(need: Need, ok: nat -> bool, available: set<nat>) returns (m: set<nat>)
    requires AllOk(available, ok) && Holds(need, available) && !CapHit(need, ok)
    ensures m in Sets(need, ok) && m <= available
    decreases need, 1, 0
  {
    match need
    case AtLeast(count, replicas) =>
      PoolInside(replicas, ok, available);
      m := KSetInside(Pool(replicas, ok), count, available);
    case All(needs) => m := AllCover(need, |needs|, ok, available);
    case Any(needs) => m := AnyCover(need, |needs|, ok, available);
  }

  lemma {:induction false} AllCover(need: Need, n: nat, ok: nat -> bool, available: set<nat>) returns (m: set<nat>)
    requires need.All? && n <= |need.needs| && AllOk(available, ok) && !AllHit(need, n, ok)
    requires forall i | 0 <= i < n :: Holds(need.needs[i], available)
    ensures m in AllSets(need, n, ok) && m <= available
    decreases need, 0, n
  {
    if n == 0 {
      m := {};
    } else {
      var a := AllCover(need, n - 1, ok, available);
      var o := SetsCover(need.needs[n - 1], ok, available);
      ProductHas(AllSets(need, n - 1, ok), Sets(need.needs[n - 1], ok), a, o);
      m := a + o;
    }
  }

  lemma {:induction false} AnyCover(need: Need, n: nat, ok: nat -> bool, available: set<nat>) returns (m: set<nat>)
    requires need.Any? && n <= |need.needs| && AllOk(available, ok) && !AnyHit(need, n, ok)
    requires exists i | 0 <= i < n :: Holds(need.needs[i], available)
    ensures m in AnySets(need, n, ok) && m <= available
    decreases need, 0, n
  {
    if Holds(need.needs[n - 1], available) {
      m := SetsCover(need.needs[n - 1], ok, available);
    } else {
      m := AnyCover(need, n - 1, ok, available);
    }
  }

  // ---- cut or not, a need that can hold has a listed set ----

  lemma {:induction false} SetsExist(need: Need, ok: nat -> bool, available: set<nat>)
    requires AllOk(available, ok) && Holds(need, available)
    ensures Sets(need, ok) != []
    decreases need, 1, 0
  {
    match need
    case AtLeast(count, replicas) =>
      PoolInside(replicas, ok, available);
      var m := KSetInside(Pool(replicas, ok), count, available);
    case All(needs) => AllExist(need, |needs|, ok, available);
    case Any(needs) => AnyExist(need, |needs|, ok, available);
  }

  lemma {:induction false} AllExist(need: Need, n: nat, ok: nat -> bool, available: set<nat>)
    requires need.All? && n <= |need.needs| && AllOk(available, ok)
    requires forall i | 0 <= i < n :: Holds(need.needs[i], available)
    ensures AllSets(need, n, ok) != []
    decreases need, 0, n
  {
    if n > 0 {
      AllExist(need, n - 1, ok, available);
      SetsExist(need.needs[n - 1], ok, available);
      ProductHas(AllSets(need, n - 1, ok), Sets(need.needs[n - 1], ok), AllSets(need, n - 1, ok)[0], Sets(need.needs[n - 1], ok)[0]);
    }
  }

  lemma {:induction false} AnyExist(need: Need, n: nat, ok: nat -> bool, available: set<nat>)
    requires need.Any? && n <= |need.needs| && AllOk(available, ok)
    requires exists i | 0 <= i < n :: Holds(need.needs[i], available)
    ensures AnySets(need, n, ok) != []
    decreases need, 0, n
  {
    if Holds(need.needs[n - 1], available) {
      SetsExist(need.needs[n - 1], ok, available);
    } else {
      AnyExist(need, n - 1, ok, available);
    }
  }

  /** Nothing is listed exactly when the admitted replicas cannot make the need hold. */
  lemma SetsEmpty(need: Need, ok: nat -> bool)
    ensures Sets(need, ok) == [] <==> !Holds(need, Admitted(need, ok))
  {
    if Holds(need, Admitted(need, ok)) {
      SetsExist(need, ok, Admitted(need, ok));
    } else if Sets(need, ok) != [] {
      var m := Sets(need, ok)[0];
      SetsAreGood(need, ok, m);
      HoldsGrows(need, m, Admitted(need, ok));
    }
  }
}
