/** When the cap cuts the enumeration of a need's sets, in numbers: how many sets there are to list. */
module NeedCap {
  import opened Needs
  import opened NeedSets

  // ---- how many ----

  /** The ways to choose `k` of `n`. */
  function Choose(n: nat, k: nat): nat {
    if k == 0 then 1 else if n == 0 then 0 else Choose(n - 1, k - 1) + Choose(n - 1, k)
  }

  /** How many replicas of the list are admitted. */
  function Supply(replicas: seq<nat>, ok: nat -> bool): nat { |set r | r in replicas && ok(r)| }

  /** How many sets the enumeration lists when nothing is cut: a choice for a count, a product for all of
      the parts, a sum for any of them. */
  function Ways(need: Need, ok: nat -> bool): nat
    decreases need, 1, 0
  {
    match need
    case AtLeast(count, replicas) => Choose(Supply(replicas, ok), count)
    case All(needs) => WaysAll(need, |needs|, ok)
    case Any(needs) => WaysAny(need, |needs|, ok)
  }

  function WaysAll(need: Need, n: nat, ok: nat -> bool): nat
    requires need.All? && n <= |need.needs|
    decreases need, 0, n
  {
    if n == 0 then 1 else WaysAll(need, n - 1, ok) * Ways(need.needs[n - 1], ok)
  }

  function WaysAny(need: Need, n: nat, ok: nat -> bool): nat
    requires need.Any? && n <= |need.needs|
    decreases need, 0, n
  {
    if n == 0 then 0 else WaysAny(need, n - 1, ok) + Ways(need.needs[n - 1], ok)
  }

  /** No list on the way is longer than 4096, and no alternative is left once that many are listed. */
  predicate Small(need: Need, ok: nat -> bool)
    decreases need
  {
    match need
    case AtLeast(_, _) => Ways(need, ok) <= 4096
    case All(needs) => forall i | 0 <= i < |needs| :: Small(needs[i], ok) && WaysAll(need, i + 1, ok) <= 4096
    case Any(needs) => forall i | 0 <= i < |needs| :: Small(needs[i], ok) && WaysAny(need, i, ok) < 4096
  }

  // ---- choices ----

  lemma {:induction false} ChooseNone(n: nat, k: nat)
    requires k > n
    ensures Choose(n, k) == 0
  {
    if n > 0 {
      ChooseNone(n - 1, k - 1);
      ChooseNone(n - 1, k);
    }
  }

  lemma {:induction false} PicksCount(n: nat, lo: nat, k: nat)
    requires lo <= n
    ensures |AllPicks(n, lo, k)| == Choose(n - lo, k)
    decreases n - lo, k
  {
    if k > 0 {
      if lo + k > n { ChooseNone(n - lo, k); }
      else {
        PicksCount(n, lo + 1, k - 1);
        PicksCount(n, lo + 1, k);
      }
    }
  }

  lemma {:induction false} IncreasingSize(xs: seq<nat>)
    requires Increasing(xs)
    ensures |ToSet(xs)| == |xs|
  {
    if xs != [] {
      var n := |xs| - 1;
      IncreasingSize(xs[..n]);
      assert xs[n] !in xs[..n];
      assert ToSet(xs) == ToSet(xs[..n]) + {xs[n]};
    }
  }

  lemma PoolSize(replicas: seq<nat>, ok: nat -> bool)
    ensures |Pool(replicas, ok)| == Supply(replicas, ok)
  {
    PoolIs(replicas, ok);
    IncreasingSize(Pool(replicas, ok));
    assert ToSet(Pool(replicas, ok)) == set r | r in replicas && ok(r);
  }

  lemma {:induction false} ProductSize(acc: seq<set<nat>>, options: seq<set<nat>>)
    ensures |Product(acc, options)| == |acc| * |options|
  {
    if acc != [] {
      var n := |acc| - 1;
      ProductSize(acc[..n], options);
      assert n * |options| + |options| == (n + 1) * |options|;
    }
  }

  // ---- the cap ----

  /** The cap is not hit, and then the list has that many sets. */
  predicate Exact(hit: bool, small: bool, sets: seq<set<nat>>, ways: nat) { (hit <==> !small) && (!hit ==> |sets| == ways) }

  predicate SmallAll(need: Need, n: nat, ok: nat -> bool)
    requires need.All? && n <= |need.needs|
  {
    forall i | 0 <= i < n :: Small(need.needs[i], ok) && WaysAll(need, i + 1, ok) <= 4096
  }

  predicate SmallAny(need: Need, n: nat, ok: nat -> bool)
    requires need.Any? && n <= |need.needs|
  {
    forall i | 0 <= i < n :: Small(need.needs[i], ok) && WaysAny(need, i, ok) < 4096
  }

  /** The cap cuts something exactly when some list on the way is too long. */
  lemma {:induction false} CapExactly(need: Need, ok: nat -> bool)
    ensures CapHit(need, ok) <==> !Small(need, ok)
    ensures !CapHit(need, ok) ==> |Sets(need, ok)| == Ways(need, ok)
    decreases need, 1, 0
  {
    match need
    case AtLeast(count, replicas) =>
      PoolSize(replicas, ok);
      PicksCount(|Pool(replicas, ok)|, 0, count);
    case All(needs) =>
      AllExactly(need, |needs|, ok);
      assert Small(need, ok) <==> SmallAll(need, |needs|, ok);
    case Any(needs) =>
      AnyExactly(need, |needs|, ok);
      assert Small(need, ok) <==> SmallAny(need, |needs|, ok);
  }

  lemma SmallAllNext(need: Need, n: nat, ok: nat -> bool)
    requires need.All? && 0 < n <= |need.needs|
    ensures SmallAll(need, n, ok) <==> SmallAll(need, n - 1, ok) && Small(need.needs[n - 1], ok) && WaysAll(need, n, ok) <= 4096
  {
  }

  lemma AllNext(need: Need, n: nat, ok: nat -> bool)
    requires need.All? && 0 < n <= |need.needs|
    ensures var product := |AllSets(need, n - 1, ok)| * |Sets(need.needs[n - 1], ok)|;
            && (AllHit(need, n, ok) <==> AllHit(need, n - 1, ok) || CapHit(need.needs[n - 1], ok) || product > CAP)
            && (!AllHit(need, n, ok) ==> |AllSets(need, n, ok)| == product)
    ensures WaysAll(need, n, ok) == WaysAll(need, n - 1, ok) * Ways(need.needs[n - 1], ok)
  {
    ProductSize(AllSets(need, n - 1, ok), Sets(need.needs[n - 1], ok));
  }

  lemma {:induction false} AllExactly(need: Need, n: nat, ok: nat -> bool)
    requires need.All? && n <= |need.needs|
    ensures Exact(AllHit(need, n, ok), SmallAll(need, n, ok), AllSets(need, n, ok), WaysAll(need, n, ok))
    decreases need, 0, n
  {
    if n > 0 {
      AllExactly(need, n - 1, ok);
      CapExactly(need.needs[n - 1], ok);
      SmallAllNext(need, n, ok);
      AllNext(need, n, ok);
    }
  }

  lemma SmallAnyNext(need: Need, n: nat, ok: nat -> bool)
    requires need.Any? && 0 < n <= |need.needs|
    ensures SmallAny(need, n, ok) <==> SmallAny(need, n - 1, ok) && Small(need.needs[n - 1], ok) && WaysAny(need, n - 1, ok) < 4096
  {
  }

  lemma AnyNext(need: Need, n: nat, ok: nat -> bool)
    requires need.Any? && 0 < n <= |need.needs|
    ensures AnyHit(need, n, ok) <==> AnyHit(need, n - 1, ok) || CapHit(need.needs[n - 1], ok) || |AnySets(need, n - 1, ok)| >= CAP
    ensures !AnyHit(need, n, ok) ==> AnySets(need, n, ok) == AnySets(need, n - 1, ok) + Sets(need.needs[n - 1], ok)
    ensures WaysAny(need, n, ok) == WaysAny(need, n - 1, ok) + Ways(need.needs[n - 1], ok)
  {
  }

  lemma {:induction false} AnyExactly(need: Need, n: nat, ok: nat -> bool)
    requires need.Any? && n <= |need.needs|
    ensures Exact(AnyHit(need, n, ok), SmallAny(need, n, ok), AnySets(need, n, ok), WaysAny(need, n, ok))
    decreases need, 0, n
  {
    if n > 0 {
      AnyExactly(need, n - 1, ok);
      CapExactly(need.needs[n - 1], ok);
      SmallAnyNext(need, n, ok);
      AnyNext(need, n, ok);
    }
  }
}
