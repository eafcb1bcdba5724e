/** The inclusion-minimal sets of replicas that satisfy a need. */
module MinimalSets {
  import opened Needs
  import opened NeedSets
  import opened NeedLoops

  /** The lexicographic order of sets, as any total order. */
  type Order = (set<nat>, set<nat>) -> bool

  ghost predicate TotalOrder(le: Order) {
    && (forall a, b :: le(a, b) || le(b, a))
    && (forall a, b :: le(a, b) && le(b, a) ==> a == b)
    && (forall a, b, c {:trigger le(a, b), le(b, c)} :: le(a, b) && le(b, c) ==> le(a, c))
  }

  predicate SortedBy(le: Order, xs: seq<set<nat>>) { forall i, j {:trigger xs[i], xs[j]} | 0 <= i < j < |xs| :: le(xs[i], xs[j]) }

  /** Smaller sets first, equally large ones in order. */
  function BySize(le: Order): Order {
    (a: set<nat>, b: set<nat>) => |a| < |b| || (|a| == |b| && le(a, b))
  }

  lemma BySizeIsOrder(le: Order)
    requires TotalOrder(le)
    ensures TotalOrder(BySize(le))
  {
  }

  method InsertSet(le: Order, xs: seq<set<nat>>, x: set<nat>) returns (r: seq<set<nat>>)
    requires TotalOrder(le) && SortedBy(le, xs)
    ensures SortedBy(le, r) && multiset(r) == multiset(xs) + multiset{x}
  {
    var at := |xs|;
    while at > 0 && !le(xs[at - 1], x)
      invariant 0 <= at <= |xs|
      invariant forall i | at <= i < |xs| :: le(x, xs[i])
    {
      at := at - 1;
    }
    r := xs[..at] + [x] + xs[at..];
    assert xs == xs[..at] + xs[at..];
    InsertSorted(le, xs, at, x);
  }

  lemma InsertSorted(le: Order, xs: seq<set<nat>>, at: nat, x: set<nat>)
    requires TotalOrder(le) && SortedBy(le, xs) && at <= |xs| && (at > 0 ==> le(xs[at - 1], x))
    requires forall i | at <= i < |xs| :: le(x, xs[i])
    ensures SortedBy(le, xs[..at] + [x] + xs[at..])
  {
    var r := xs[..at] + [x] + xs[at..];
    forall i, j {:trigger r[i], r[j]} | 0 <= i < j < |r| ensures le(r[i], r[j]) {
      if j == at {
        BeforeInsert(le, xs, at, x, i);
      } else if i == at {
        assert r[j] == xs[j - 1];
      } else {
        var a, b := if i < at then i else i - 1, if j < at then j else j - 1;
        assert r[i] == xs[a] && r[j] == xs[b] && a < b;
      }
    }
  }

  lemma BeforeInsert(le: Order, xs: seq<set<nat>>, at: nat, x: set<nat>, i: nat)
    requires TotalOrder(le) && SortedBy(le, xs) && i < at <= |xs| && le(xs[at - 1], x)
    ensures le(xs[i], x)
  {
    if i < at - 1 { assert le(xs[i], xs[at - 1]); }
  }

  method Sort(le: Order, xs: seq<set<nat>>) returns (r: seq<set<nat>>)
    requires TotalOrder(le)
    ensures SortedBy(le, r) && multiset(r) == multiset(xs)
  {
    r := [];
    for i := 0 to |xs|
      invariant SortedBy(le, r) && multiset(r) == multiset(xs[..i])
    {
      assert xs[..i + 1] == xs[..i] + [xs[i]];
      r := InsertSet(le, r, xs[i]);
    }
    assert xs[..|xs|] == xs;
  }

  /** No set of the list lies inside another. */
  predicate Antichain(xs: seq<set<nat>>) { forall i, j {:trigger xs[i], xs[j]} | 0 <= i < |xs| && 0 <= j < |xs| && i != j :: !(xs[i] <= xs[j]) }

  predicate Covers(kept: seq<set<nat>>, x: set<nat>) { exists i | 0 <= i < |kept| :: kept[i] <= x }

  method Covered(kept: seq<set<nat>>, x: set<nat>) returns (yes: bool)
    ensures yes == Covers(kept, x)
  {
    for i := 0 to |kept|
      invariant forall j | 0 <= j < i :: !(kept[j] <= x)
    {
      if kept[i] <= x { return true; }
    }
    return false;
  }

  lemma CoversStill(kept: seq<set<nat>>, y: set<nat>, x: set<nat>)
    requires Covers(kept, x) || y <= x
    ensures Covers(kept + [y], x)
  {
    if Covers(kept, x) {
      var i :| 0 <= i < |kept| && kept[i] <= x;
      assert (kept + [y])[i] <= x;
    } else {
      assert (kept + [y])[|kept|] <= x;
    }
  }

  lemma InsideIsCovered(kept: seq<set<nat>>, x: set<nat>, i: nat)
    requires i < |kept| && x <= kept[i] && |kept[i]| <= |x|
    ensures Covers(kept, x)
  {
    SubsetEqual(x, kept[i]);
    assert kept[i] <= x;
  }

  lemma SubsetEqual(a: set<nat>, b: set<nat>)
    requires a <= b && |b| <= |a|
    ensures a == b
  {
    assert b == a + (b - a);
  }

  lemma KeptMore(kept: seq<set<nat>>, x: set<nat>)
    requires Antichain(kept) && !Covers(kept, x) && forall i | 0 <= i < |kept| :: |kept[i]| <= |x|
    ensures Antichain(kept + [x])
  {
    var r := kept + [x];
    forall i, j {:trigger r[i], r[j]} | 0 <= i < |r| && 0 <= j < |r| && i != j ensures !(r[i] <= r[j]) {
      if i == |kept| && x <= kept[j] { InsideIsCovered(kept, x, j); }
    }
  }

  /** What is left once every set with another one inside it is dropped. */
  method Filter(le: Order, sorted: seq<set<nat>>) returns (kept: seq<set<nat>>)
    requires SortedBy(BySize(le), sorted)
    ensures Antichain(kept) && (forall x | x in kept :: x in sorted)
    ensures forall i {:trigger sorted[i]} | 0 <= i < |sorted| :: Covers(kept, sorted[i])
  {
    kept := [];
    for n := 0 to |sorted|
      invariant Antichain(kept) && (forall x | x in kept :: x in sorted[..n])
      invariant forall i {:trigger sorted[i]} | 0 <= i < n :: Covers(kept, sorted[i])
    {
      var x := sorted[n];
      var yes := Covered(kept, x);
      if !yes {
        forall i | 0 <= i < |kept| ensures |kept[i]| <= |x| {
          assert kept[i] in sorted[..n];
          var k :| 0 <= k < n && sorted[k] == kept[i];
          assert BySize(le)(sorted[k], sorted[n]);
        }
        KeptMore(kept, x);
        forall i {:trigger sorted[i]} | 0 <= i <= n ensures Covers(kept + [x], sorted[i]) { CoversStill(kept, x, sorted[i]); }
        kept := kept + [x];
      }
    }
  }

  // ---- minimal sets ----

  /** An admitted set makes the need hold and no smaller one inside it does. */
  ghost predicate IsMinimal(need: Need, ok: nat -> bool, m: set<nat>) {
    AllOk(m, ok) && Holds(need, m) && forall y {:trigger Holds(need, y)} | y < m :: !Holds(need, y)
  }

  /** The kept sets are satisfying ones, and every listed one has a kept one inside. */
  predicate Reduces(need: Need, ok: nat -> bool, kept: seq<set<nat>>) {
    && Antichain(kept) && (forall x | x in kept :: x in Sets(need, ok))
    && forall x | x in Sets(need, ok) :: Covers(kept, x)
  }

  lemma KeptInside(need: Need, ok: nat -> bool, kept: seq<set<nat>>, available: set<nat>) returns (m: set<nat>)
    requires Reduces(need, ok, kept) && !CapHit(need, ok) && AllOk(available, ok) && Holds(need, available)
    ensures m in kept && m <= available
  {
    var listed := SetsCover(need, ok, available);
    assert Covers(kept, listed);
    var i :| 0 <= i < |kept| && kept[i] <= listed;
    m := kept[i];
  }

  lemma AntichainOne(kept: seq<set<nat>>, a: set<nat>, b: set<nat>)
    requires Antichain(kept) && a in kept && b in kept && a <= b
    ensures a == b
  {
    var i :| 0 <= i < |kept| && kept[i] == a;
    var j :| 0 <= j < |kept| && kept[j] == b;
    assert i == j;
  }

  lemma NothingSmaller(need: Need, ok: nat -> bool, kept: seq<set<nat>>, m: set<nat>, y: set<nat>)
    requires Reduces(need, ok, kept) && !CapHit(need, ok) && m in kept && AllOk(m, ok) && y <= m && Holds(need, y)
    ensures y == m
  {
    var k := KeptInside(need, ok, kept, y);
    AntichainOne(kept, k, m);
  }

  /** Uncut, the kept sets are exactly the minimal ones. */
  lemma KeptAreMinimal(need: Need, ok: nat -> bool, kept: seq<set<nat>>, m: set<nat>)
    requires Reduces(need, ok, kept) && !CapHit(need, ok)
    ensures m in kept <==> IsMinimal(need, ok, m)
  {
    if m in kept {
      SetsAreGood(need, ok, m);
      forall y | y < m ensures !Holds(need, y) {
        if Holds(need, y) { NothingSmaller(need, ok, kept, m, y); }
      }
    }
    if IsMinimal(need, ok, m) {
      var k := KeptInside(need, ok, kept, m);
      SetsAreGood(need, ok, k);
      assert !(k < m);
      assert m <= k;
      assert k == m;
    }
  }

  lemma SameMembers(xs: seq<set<nat>>, ys: seq<set<nat>>)
    requires multiset(xs) == multiset(ys)
    ensures forall x :: x in xs <==> x in ys
  {
    forall x ensures x in xs <==> x in ys {
      assert x in multiset(xs) <==> x in multiset(ys);
    }
  }

  predicate Distinct(xs: seq<set<nat>>) { forall i, j {:trigger xs[i], xs[j]} | 0 <= i < j < |xs| :: xs[i] != xs[j] }

  lemma {:induction false} DistinctCounts(xs: seq<set<nat>>, x: set<nat>)
    requires Distinct(xs)
    ensures multiset(xs)[x] <= 1
  {
    if xs != [] {
      var n := |xs| - 1;
      DistinctCounts(xs[..n], x);
      assert xs == xs[..n] + [xs[n]];
      if x in xs[..n] {
        var i :| 0 <= i < n && xs[..n][i] == x;
        assert xs[i] == x;
      }
    }
  }

  lemma TwiceCounts(ys: seq<set<nat>>, i: nat, j: nat)
    requires i < j < |ys| && ys[i] == ys[j]
    ensures multiset(ys)[ys[i]] >= 2
  {
    assert ys == ys[..j] + ys[j..];
    assert ys[..j][i] in ys[..j] && ys[j..][0] in ys[j..];
  }

  lemma CountsDistinct(xs: seq<set<nat>>, ys: seq<set<nat>>)
    requires Distinct(xs) && multiset(xs) == multiset(ys)
    ensures Distinct(ys)
  {
    forall i, j {:trigger ys[i], ys[j]} | 0 <= i < j < |ys| ensures ys[i] != ys[j] {
      DistinctCounts(xs, ys[i]);
      if ys[i] == ys[j] { TwiceCounts(ys, i, j); }
    }
  }

  lemma SortedAntichain(kept: seq<set<nat>>, r: seq<set<nat>>)
    requires Antichain(kept) && multiset(kept) == multiset(r)
    ensures Antichain(r)
  {
    CountsDistinct(kept, r);
    SameMembers(kept, r);
    forall i, j {:trigger r[i], r[j]} | 0 <= i < |r| && 0 <= j < |r| && i != j ensures !(r[i] <= r[j]) {
      assert r[i] in r && r[j] in r;
      var a :| 0 <= a < |kept| && kept[a] == r[i];
      var b :| 0 <= b < |kept| && kept[b] == r[j];
      if a != b { assert !(kept[a] <= kept[b]); }
    }
  }

  lemma CoversMembers(kept: seq<set<nat>>, r: seq<set<nat>>, x: set<nat>)
    requires Covers(kept, x) && forall y :: y in kept <==> y in r
    ensures Covers(r, x)
  {
    var i :| 0 <= i < |kept| && kept[i] <= x;
    assert kept[i] in r;
    var j :| 0 <= j < |r| && r[j] == kept[i];
  }

  lemma ReducesSorted(need: Need, ok: nat -> bool, kept: seq<set<nat>>, r: seq<set<nat>>)
    requires Reduces(need, ok, kept) && multiset(kept) == multiset(r)
    ensures Reduces(need, ok, r)
  {
    SortedAntichain(kept, r);
    SameMembers(kept, r);
    forall x | x in Sets(need, ok) ensures Covers(r, x) { CoversMembers(kept, r, x); }
  }

  function Min(a: nat, b: nat): nat { if a < b then a else b }

  /** What is left once a sorted reduction of the listed sets is cut at the limit. */
  ghost predicate First(need: Need, ok: nat -> bool, le: Order, out: seq<set<nat>>) {
    && SortedBy(le, out) && Antichain(out) && |out| <= 1024
    && (forall m | m in out :: Good(need, ok, m))
    && (out == [] <==> !Holds(need, Admitted(need, ok)))
    && (!CapHit(need, ok) ==> forall m | m in out :: IsMinimal(need, ok, m))
    && (!CapHit(need, ok) ==> forall m | IsMinimal(need, ok, m) && m !in out ::
          |out| == 1024 && forall i | 0 <= i < |out| :: le(out[i], m))
  }

  lemma FirstAreRight(need: Need, ok: nat -> bool, le: Order, out: seq<set<nat>>, all: seq<set<nat>>)
    requires out == all[..Min(|all|, MAX_MINIMAL_SETS)] && SortedBy(le, all) && Reduces(need, ok, all)
    ensures First(need, ok, le, out)
  {
    forall m | m in out ensures Good(need, ok, m) { SetsAreGood(need, ok, m); }
    SetsEmpty(need, ok);
    if Sets(need, ok) != [] { assert Covers(all, Sets(need, ok)[0]); }
    if all != [] { assert all[0] in all; }
    if !CapHit(need, ok) {
      forall m ensures m in all <==> IsMinimal(need, ok, m) { KeptAreMinimal(need, ok, all, m); }
      forall m | IsMinimal(need, ok, m) && m !in out
        ensures |out| == MAX_MINIMAL_SETS && forall i | 0 <= i < |out| :: le(out[i], m)
      {
        var j :| 0 <= j < |all| && all[j] == m;
        forall i | 0 <= i < |out| ensures le(out[i], m) { assert out[i] == all[i]; }
      }
    }
  }

  /** Every listed set, smallest first, unless it holds one kept before; then in order, and the
      first of them. */
  method RunMinimalSets(need: Need, ok: nat -> bool, le: Order) returns (out: seq<set<nat>>)
    requires TotalOrder(le)
    ensures First(need, ok, le, out)
  {
    var sets := RunSets(need, ok);
    BySizeIsOrder(le);
    var sorted := Sort(BySize(le), sets);
    SameMembers(sorted, sets);
    var minimal := Filter(le, sorted);
    forall x | x in sets ensures Covers(minimal, x) {
      var i :| 0 <= i < |sorted| && sorted[i] == x;
    }
    out := Sort(le, minimal);
    ReducesSorted(need, ok, minimal, out);
    ghost var all := out;
    if |out| > MAX_MINIMAL_SETS { out := out[..MAX_MINIMAL_SETS]; }
    FirstAreRight(need, ok, le, out, all);
  }

  /** When nothing was cut, the sets returned are exactly the minimal ones. */
  lemma ExactlyMinimal(need: Need, ok: nat -> bool, le: Order, out: seq<set<nat>>, m: set<nat>)
    requires First(need, ok, le, out) && !CapHit(need, ok) && |out| < MAX_MINIMAL_SETS
    ensures m in out <==> IsMinimal(need, ok, m)
  {
  }
}
