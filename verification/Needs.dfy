/** Needs stated over replicas, and the sets of replicas that satisfy them. Replicas are
    numbered in the order of their addresses. */
module Needs {

  datatype Need = AtLeast(count: nat, replicas: seq<nat>) | All(needs: seq<Need>) | Any(needs: seq<Need>)

  const MAX_MINIMAL_SETS: nat := 1024

  /** Where the enumeration is cut. */
  const CAP: nat := 4096

  function ToSet(xs: seq<nat>): set<nat> { set x | x in xs }

  /** The need, evaluated on the available replicas. */
  predicate Holds(need: Need, available: set<nat>)
    decreases need
  {
    match need
    case AtLeast(count, replicas) => |ToSet(replicas) * available| >= count
    case All(needs) => forall i | 0 <= i < |needs| :: Holds(needs[i], available)
    case Any(needs) => exists i | 0 <= i < |needs| :: Holds(needs[i], available)
  }

  /** Every replica the need names. */
  function Replicas(need: Need): set<nat>
    decreases need
  {
    match need
    case AtLeast(_, replicas) => ToSet(replicas)
    case All(needs) => set i, r | 0 <= i < |needs| && r in Replicas(needs[i]) :: r
    case Any(needs) => set i, r | 0 <= i < |needs| && r in Replicas(needs[i]) :: r
  }

  function Admitted(need: Need, ok: nat -> bool): set<nat> { set r | r in Replicas(need) && ok(r) }

  lemma SubsetSize(a: set<nat>, b: set<nat>)
    requires a <= b
    ensures |a| <= |b|
  {
    if a != b {
      assert b == a + (b - a);
    }
  }

  /** More replicas never break a need. */
  lemma {:induction false} HoldsGrows(need: Need, a: set<nat>, b: set<nat>)
    requires Holds(need, a) && a <= b
    ensures Holds(need, b)
    decreases need
  {
    match need
    case AtLeast(count, replicas) => SubsetSize(ToSet(replicas) * a, ToSet(replicas) * b);
    case All(needs) => forall i | 0 <= i < |needs| ensures Holds(needs[i], b) { HoldsGrows(needs[i], a, b); }
    case Any(needs) =>
      var i :| 0 <= i < |needs| && Holds(needs[i], a);
      HoldsGrows(needs[i], a, b);
  }

  /** Only the replicas it names matter. */
  lemma {:induction false} HoldsLocally(need: Need, a: set<nat>, names: set<nat>)
    requires Holds(need, a) && Replicas(need) <= names
    ensures Holds(need, a * names)
    decreases need
  {
    match need
    case AtLeast(count, replicas) => assert ToSet(replicas) * a == ToSet(replicas) * (a * names);
    case All(needs) =>
      forall i | 0 <= i < |needs| ensures Holds(needs[i], a * names) {
        NamesBelow(need, needs, i);
        HoldsLocally(needs[i], a, names);
      }
    case Any(needs) =>
      var i :| 0 <= i < |needs| && Holds(needs[i], a);
      NamesBelow(need, needs, i);
      HoldsLocally(needs[i], a, names);
  }

  lemma NamesBelow(need: Need, needs: seq<Need>, i: nat)
    requires (need == All(needs) || need == Any(needs)) && i < |needs|
    ensures Replicas(needs[i]) <= Replicas(need)
  {
    forall r | r in Replicas(needs[i]) ensures r in Replicas(need) {
    }
  }

  // ---- combinations ----

  /** Strictly increasing picks below `n`. */
  predicate Picks(n: nat, lo: nat, picks: seq<nat>) {
    && (forall i | 0 <= i < |picks| :: lo <= picks[i] < n)
    && (forall i, j | 0 <= i < j < |picks| :: picks[i] < picks[j])
  }

  function Push(x: nat, xss: seq<seq<nat>>): (r: seq<seq<nat>>)
    ensures |r| == |xss| && forall i | 0 <= i < |xss| :: r[i] == [x] + xss[i]
  {
    seq(|xss|, i requires 0 <= i < |xss| => [x] + xss[i])
  }

  /** Every way to pick `k` of `lo..n`, in lexicographic order. */
  function AllPicks(n: nat, lo: nat, k: nat): seq<seq<nat>>
    decreases n - lo, k
  {
    if k == 0 then [[]]
    else if lo >= n || lo + k > n then []
    else Push(lo, AllPicks(n, lo + 1, k - 1)) + AllPicks(n, lo + 1, k)
  }

  /** The picks from `picks` on. */
  function From(n: nat, picks: seq<nat>): seq<seq<nat>> {
    if picks == [] then [[]] else Push(picks[0], From(n, picks[1..])) + AllPicks(n, picks[0] + 1, |picks|)
  }

  function Range(lo: nat, k: nat): (r: seq<nat>)
    ensures |r| == k && forall i | 0 <= i < k :: r[i] == lo + i
  {
    seq(k, i => lo + i)
  }

  lemma {:induction false} FromFirst(n: nat, lo: nat, k: nat)
    requires lo + k <= n
    ensures From(n, Range(lo, k)) == AllPicks(n, lo, k)
    decreases k
  {
    if k > 0 {
      assert Range(lo, k)[1..] == Range(lo + 1, k - 1);
      FromFirst(n, lo + 1, k - 1);
    }
  }

  predicate IsLast(n: nat, picks: seq<nat>)
    requires |picks| <= n
  {
    forall i | 0 <= i < |picks| :: picks[i] >= n - |picks| + i
  }

  lemma {:induction false} FromLast(n: nat, picks: seq<nat>)
    requires |picks| <= n && Picks(n, 0, picks) && IsLast(n, picks)
    ensures From(n, picks) == [picks]
  {
    if picks != [] {
      FromLast(n, picks[1..]);
      assert [picks[0]] + picks[1..] == picks;
    }
  }

  /** The next combination: the last pick that can move moves, those after it follow. */
  function Next(picks: seq<nat>, at: nat): seq<nat>
    requires at < |picks|
  {
    picks[..at] + Range(picks[at] + 1, |picks| - at)
  }

  lemma FromNextFirst(n: nat, picks: seq<nat>)
    requires 0 < |picks| <= n && Picks(n, 0, picks) && picks[0] < n - |picks|
    requires forall i | 0 < i < |picks| :: picks[i] >= n - |picks| + i
    ensures From(n, picks) == [picks] + From(n, Next(picks, 0))
  {
    var rest := picks[1..];
    assert [picks[0]] + rest == picks;
    FromLast(n, rest);
    assert Push(picks[0], [rest]) == [picks];
    assert Next(picks, 0) == Range(picks[0] + 1, |picks|);
    FromFirst(n, picks[0] + 1, |picks|);
  }

  lemma PushFirst(x: nat, first: seq<nat>, rest: seq<seq<nat>>, more: seq<seq<nat>>)
    ensures Push(x, [first] + rest) + more == [[x] + first] + (Push(x, rest) + more)
  {
  }

  lemma NextTail(picks: seq<nat>, at: nat)
    requires 0 < at < |picks|
    ensures Next(picks, at)[0] == picks[0] && Next(picks, at)[1..] == Next(picks[1..], at - 1)
  {
  }

  lemma {:induction false} FromNext(n: nat, picks: seq<nat>, at: nat)
    requires |picks| <= n && Picks(n, 0, picks) && at < |picks| && picks[at] < n - |picks| + at
    requires forall i | at < i < |picks| :: picks[i] >= n - |picks| + i
    ensures From(n, picks) == [picks] + From(n, Next(picks, at))
  {
    if at == 0 {
      FromNextFirst(n, picks);
    } else {
      var rest := picks[1..];
      FromNext(n, rest, at - 1);
      NextTail(picks, at);
      PushFirst(picks[0], rest, From(n, Next(rest, at - 1)), AllPicks(n, picks[0] + 1, |picks|));
      assert [picks[0]] + rest == picks;
    }
  }

  lemma NextIsPicks(n: nat, picks: seq<nat>, at: nat)
    requires |picks| <= n && Picks(n, 0, picks) && at < |picks| && picks[at] < n - |picks| + at
    ensures |Next(picks, at)| == |picks| && Picks(n, 0, Next(picks, at))
  {
  }

  lemma {:induction false} AllPicksIncrease(n: nat, lo: nat, k: nat, picks: seq<nat>)
    requires picks in AllPicks(n, lo, k)
    ensures |picks| == k && Picks(n, lo, picks)
    decreases n - lo, k
  {
    if k > 0 {
      if picks in AllPicks(n, lo + 1, k) {
        AllPicksIncrease(n, lo + 1, k, picks);
      } else {
        PushMember(lo, AllPicks(n, lo + 1, k - 1), picks);
        AllPicksIncrease(n, lo + 1, k - 1, picks[1..]);
        TailPicks(n, lo, picks);
      }
    }
  }

  lemma TailPicks(n: nat, lo: nat, picks: seq<nat>)
    requires picks != []
    ensures Picks(n, lo, picks) && picks[0] == lo <==> lo < n && picks[0] == lo && Picks(n, lo + 1, picks[1..])
  {
    if lo < n && picks[0] == lo && Picks(n, lo + 1, picks[1..]) {
      forall i | 0 < i < |picks| ensures lo < picks[i] < n { assert picks[i] == picks[1..][i - 1]; }
      forall i, j | 0 <= i < j < |picks| ensures picks[i] < picks[j] {
        if i > 0 { assert picks[i] == picks[1..][i - 1] && picks[j] == picks[1..][j - 1]; }
      }
    }
  }

  lemma {:induction false} AllPicksComplete(n: nat, lo: nat, picks: seq<nat>)
    requires Picks(n, lo, picks)
    ensures picks in AllPicks(n, lo, |picks|)
    decreases n - lo, |picks|
  {
    if picks != [] {
      SpreadOut(n, lo, picks);
      if picks[0] == lo {
        TailPicks(n, lo, picks);
        AllPicksComplete(n, lo + 1, picks[1..]);
        PushMember(lo, AllPicks(n, lo + 1, |picks| - 1), picks);
      } else {
        assert Picks(n, lo + 1, picks);
        AllPicksComplete(n, lo + 1, picks);
      }
    }
  }

  lemma PushMember(x: nat, xss: seq<seq<nat>>, picks: seq<nat>)
    requires picks != []
    ensures picks in Push(x, xss) <==> picks[0] == x && picks[1..] in xss
  {
    assert [picks[0]] + picks[1..] == picks;
    if picks in Push(x, xss) {
      var i :| 0 <= i < |xss| && Push(x, xss)[i] == picks;
      assert picks[1..] == xss[i];
    }
    if picks[0] == x && picks[1..] in xss {
      var i :| 0 <= i < |xss| && xss[i] == picks[1..];
      assert Push(x, xss)[i] == picks;
    }
  }

  lemma {:induction false} SpreadOut(n: nat, lo: nat, picks: seq<nat>)
    requires Picks(n, lo, picks) && picks != []
    ensures lo + |picks| <= n
    decreases |picks|
  {
    assert lo <= picks[0] < n;
    if |picks| > 1 {
      var rest := picks[1..];
      forall i | 0 <= i < |rest| ensures lo + 1 <= rest[i] < n { assert picks[0] < picks[i + 1]; }
      SpreadOut(n, lo + 1, rest);
    }
  }
}
