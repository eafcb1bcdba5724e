/** Where exploration continues from when its frontier is empty: which state comes next, and which of its
    exemplars. */
module Continuations {
  import opened Discoveries
  import opened Exploration

  // ---- which state ----

  /** State `a` was visited less for its depth than `b`: each level of depth is worth one more visit. */
  ghost predicate Lighter(a: StateEntry, b: StateEntry) {
    exists q: nat :: a.visits < Share(a, q) && Share(b, q) <= b.visits
  }

  /** The visits a state gets in `q` rounds of one visit for each level of depth, and one more. */
  function Share(s: StateEntry, q: nat): nat { (Deepest(s.exemplars) + 1) * q }

  /** Less visited for its depth; else with progress; else deeper; else discovered earlier. */
  ghost predicate Precedes(a: StateEntry, i: nat, b: StateEntry, j: nat) {
    || Lighter(a, b)
    || (!Lighter(b, a) && ((a.progress && !b.progress)
        || (a.progress == b.progress && (Deepest(a.exemplars) > Deepest(b.exemplars) || (Deepest(a.exemplars) == Deepest(b.exemplars) && i < j)))))
  }

  lemma Quotient(v: nat, d: nat, q: nat)
    requires d > 0
    ensures v / d < q <==> v < d * q
    ensures q <= v / d <==> d * q <= v
  {
    var m := v / d;
    assert m * d <= v < m * d + d;
    if q <= m { assert d * q <= d * m; } else { assert d * (m + 1) <= d * q; }
  }

  lemma LighterIs(a: StateEntry, i: nat, b: StateEntry, j: nat)
    ensures Lighter(a, b) <==> KeyOf(a, i).weight < KeyOf(b, j).weight
  {
    var wa, wb := KeyOf(a, i).weight, KeyOf(b, j).weight;
    Quotient(a.visits, Deepest(a.exemplars) + 1, wb);
    Quotient(b.visits, Deepest(b.exemplars) + 1, wb);
    if wa < wb { assert a.visits < Share(a, wb) && Share(b, wb) <= b.visits; }
    if q: nat :| a.visits < Share(a, q) && Share(b, q) <= b.visits {
      Quotient(a.visits, Deepest(a.exemplars) + 1, q);
      Quotient(b.visits, Deepest(b.exemplars) + 1, q);
    }
  }

  lemma BeforeIs(a: StateEntry, i: nat, b: StateEntry, j: nat)
    ensures Before(KeyOf(a, i), KeyOf(b, j)) <==> Precedes(a, i, b, j)
  {
    LighterIs(a, i, b, j);
    LighterIs(b, j, a, i);
  }

  /** The state picked can grow and precedes every other that can. */
  lemma PickIsFair(states: seq<StateEntry>, maxLen: nat, i: nat, j: nat)
    requires Picks(states, maxLen, i) && j < |states| && j != i && Eligible(states[j], maxLen)
    ensures Precedes(states[i], i, states[j], j) && !Precedes(states[j], j, states[i], i)
  {
    BeforeIs(states[i], i, states[j], j);
    BeforeIs(states[j], j, states[i], i);
  }

  /** Nobody starts round `q` early: while some state that can grow has not had its share of `q` rounds,
      neither has the one picked. */
  lemma DeeperLasts(states: seq<StateEntry>, maxLen: nat, i: nat, j: nat, q: nat)
    requires Picks(states, maxLen, i) && j < |states| && Eligible(states[j], maxLen)
    requires states[j].visits < Share(states[j], q)
    ensures states[i].visits < Share(states[i], q)
  {
    if i != j {
      PickIsFair(states, maxLen, i, j);
      LighterIs(states[i], i, states[j], j);
      Quotient(states[i].visits, Deepest(states[i].exemplars) + 1, q);
      Quotient(states[j].visits, Deepest(states[j].exemplars) + 1, q);
    }
  }

  // ---- which exemplar ----

  /** The exemplars that can grow, in their order. */
  lemma {:induction false} GrowableJoins(xs: seq<Exemplar>, ys: seq<Exemplar>, maxLen: nat)
    ensures Growable(xs + ys, maxLen) == Growable(xs, maxLen) + Growable(ys, maxLen)
    decreases |ys|
  {
    if ys == [] {
      assert xs + ys == xs;
    } else {
      var n := |ys| - 1;
      assert (xs + ys)[..|xs + ys| - 1] == xs + ys[..n] && (xs + ys)[|xs + ys| - 1] == ys[n];
      GrowableJoins(xs, ys[..n], maxLen);
    }
  }

  lemma GrowableOne(e: Exemplar, maxLen: nat)
    ensures Growable([e], maxLen) == if |e.recipe| < maxLen then [e] else []
  {
    assert [e][..0] == [];
  }

  /** Exemplars take turns: within as many rounds as there are that can grow, each of them has its turn. */
  lemma EveryTurn(s: StateEntry, maxLen: nat, e: Exemplar, round: nat) returns (r: nat)
    requires e in s.exemplars && |e.recipe| < maxLen
    ensures Eligible(s, maxLen) && round <= r < round + |Growable(s.exemplars, maxLen)| && Turn(s, maxLen, r) == e
  {
    var g := Growable(s.exemplars, maxLen);
    var i :| 0 <= i < |s.exemplars| && s.exemplars[i] == e;
    assert Eligible(s, maxLen) && e in g;
    var c :| 0 <= c < |g| && g[c] == e;
    r := Reach(round, |g|, c);
  }

  lemma Reach(round: nat, n: nat, c: nat) returns (r: nat)
    requires c < n
    ensures round <= r < round + n && r % n == c
  {
    var m := round % n;
    r := if c >= m then round + (c - m) else round + (c + n - m);
    var q := round / n;
    assert round == q * n + m;
    assert r == q * n + c || r == (q + 1) * n + c;
    if r == q * n + c { Remainder(q, n, c); } else { Remainder(q + 1, n, c); }
  }

  lemma Remainder(q: nat, n: nat, c: nat)
    requires c < n
    ensures (q * n + c) % n == c
  {
    var x := q * n + c;
    var k, m := x / n, x % n;
    assert x == k * n + m;
    if k > q { Multiples(q + 1, k, n); } else if k < q { Multiples(k + 1, q, n); }
  }

  lemma Multiples(a: nat, b: nat, n: nat)
    requires a <= b
    ensures a * n <= b * n
  {
  }
}
