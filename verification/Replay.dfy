/** A counted random generator that replays a recipe: at each breakpoint it is reseeded, and what
    came before is drawn again exactly. */
module Replay {

  /** A breakpoint: once the count exceeds the target, reseed and restart the count at 1. */
  type Recipe = seq<(nat, bv64)>

  datatype State = State(state: bv64, count: nat, breakpoints: Recipe)

  function NonZero(seed: bv64): bv64 { if seed == 0 then 1 else seed }

  function Left13(s: bv64): bv64 { s ^ (s << 13) }

  function Right7(s: bv64): bv64 { s ^ (s >> 7) }

  function Left17(s: bv64): bv64 { s ^ (s << 17) }

  function Xorshift(s: bv64): bv64 { Left17(Right7(Left13(s))) }

  function Start(seed: bv64, recipe: Recipe): State { State(NonZero(seed), 0, recipe) }

  /** Every breakpoint the count has passed takes effect, in order. */
  function Passed(s: State): State
    decreases |s.breakpoints|
  {
    if s.breakpoints != [] && s.count > s.breakpoints[0].0
    then Passed(State(NonZero(s.breakpoints[0].1), 1, s.breakpoints[1..]))
    else s
  }

  function Counted(s: State): State { Passed(s.(count := s.count + 1)) }

  function Drawn(s: State): State { Counted(s).(state := Xorshift(Counted(s).state)) }

  /** The generator of a timeline. */
  class Rng {
    var state: bv64
    var count: nat
    var breakpoints: Recipe

    ghost function View(): State
      reads this
    {
      State(state, count, breakpoints)
    }

    constructor (seed: bv64)
      ensures View() == Start(seed, [])
    {
      state, count, breakpoints := NonZero(seed), 0, [];
    }

    method SetBreakpoints(recipe: Recipe)
      modifies this
      ensures View() == old(View()).(breakpoints := recipe)
    {
      breakpoints := recipe;
    }

    method Draw() returns (value: bv64)
      modifies this
      ensures View() == Drawn(old(View())) && value == state
    {
      ghost var passed := Counted(View());
      count := count + 1;
      while breakpoints != []
        invariant Passed(View()) == passed
        decreases |breakpoints|
      {
        var (target, seed) := breakpoints[0];
        if count > target {
          breakpoints := breakpoints[1..];
          state := NonZero(seed);
          count := 1;
        } else {
          break;
        }
      }
      state := Xorshift(state);
      value := state;
    }
  }

  // ---- whole timelines ----

  /** The generator after `k` draws, and the values drawn. */
  function After(s: State, k: nat): State {
    if k == 0 then s else Drawn(After(s, k - 1))
  }

  function Values(s: State, k: nat): (r: seq<bv64>)
    ensures |r| == k
  {
    if k == 0 then [] else Values(s, k - 1) + [After(s, k).state]
  }

  function Extended(s: State, more: Recipe): State { s.(breakpoints := s.breakpoints + more) }

  /** With a breakpoint to come later than the count, every pending one passes as before. */
  lemma {:induction false} PassedExtended(s: State, at: nat, seed: bv64)
    requires Passed(s).breakpoints == [] ==> Passed(s).count <= at
    ensures Passed(Extended(s, [(at, seed)])) == Extended(Passed(s), [(at, seed)])
    decreases |s.breakpoints|
  {
    if s.breakpoints != [] {
      var ext := Extended(s, [(at, seed)]);
      assert ext.breakpoints[0] == s.breakpoints[0];
      if s.count > s.breakpoints[0].0 {
        var next := State(NonZero(s.breakpoints[0].1), 1, s.breakpoints[1..]);
        assert ext.breakpoints[1..] == next.breakpoints + [(at, seed)];
        PassedExtended(next, at, seed);
      }
    }
  }

  /** Once the breakpoints are consumed, they stay so and the count only grows. */
  lemma {:induction false} ConsumedStays(s: State, j: nat, k: nat)
    requires j <= k && After(s, j).breakpoints == []
    ensures After(s, k).breakpoints == [] && After(s, k).count == After(s, j).count + (k - j)
    decreases k - j
  {
    if j < k { ConsumedStays(s, j, k - 1); }
  }

  lemma {:induction false} AfterExtended(s: State, k: nat, j: nat, seed: bv64)
    requires j <= k && After(s, k).breakpoints == []
    ensures After(Extended(s, [(After(s, k).count, seed)]), j) == Extended(After(s, j), [(After(s, k).count, seed)])
    decreases j
  {
    if j > 0 {
      var at := After(s, k).count;
      AfterExtended(s, k, j - 1, seed);
      var before := After(s, j - 1);
      var counted := before.(count := before.count + 1);
      if Passed(counted).breakpoints == [] {
        assert After(s, j).breakpoints == [];
        ConsumedStays(s, j, k);
      }
      PassedExtended(counted, at, seed);
      assert Extended(before, [(at, seed)]).(count := before.count + 1) == Extended(counted, [(at, seed)]);
    }
  }

  lemma {:induction false} ValuesExtended(s: State, k: nat, j: nat, seed: bv64)
    requires j <= k && After(s, k).breakpoints == []
    ensures Values(Extended(s, [(After(s, k).count, seed)]), j) == Values(s, j)
  {
    if j > 0 {
      ValuesExtended(s, k, j - 1, seed);
      AfterExtended(s, k, j, seed);
    }
  }

  /** A run whose breakpoints are consumed and whose count is `a`, replayed with `(a, seed)` appended
      to its recipe: every earlier draw again, then exactly the draws of `seed`. */
  lemma ReplayThenDiverge(root: bv64, recipe: Recipe, k: nat, seed: bv64)
    requires After(Start(root, recipe), k).breakpoints == []
    ensures var a := After(Start(root, recipe), k).count; var longer := Start(root, recipe + [(a, seed)]);
            && Values(longer, k) == Values(Start(root, recipe), k)
            && Drawn(After(longer, k)) == Drawn(Start(seed, []))
  {
    var s := Start(root, recipe);
    var a := After(s, k).count;
    assert Extended(s, [(a, seed)]) == Start(root, recipe + [(a, seed)]);
    ValuesExtended(s, k, k, seed);
    AfterExtended(s, k, k, seed);
    var last := After(Start(root, recipe + [(a, seed)]), k);
    assert last.breakpoints == [(a, seed)] && last.count == a;
    assert last.breakpoints[1..] == [];
  }

  // ---- one draw undone ----

  function Unleft13(y: bv64): bv64 { y ^ (y << 13) ^ (y << 26) ^ (y << 39) ^ (y << 52) }

  function Unright7(y: bv64): bv64 {
    y ^ (y >> 7) ^ (y >> 14) ^ (y >> 21) ^ (y >> 28) ^ (y >> 35) ^ (y >> 42) ^ (y >> 49) ^ (y >> 56) ^ (y >> 63)
  }

  function Unleft17(y: bv64): bv64 { y ^ (y << 17) ^ (y << 34) ^ (y << 51) }

  lemma Left13Undone(x: bv64)
    ensures Unleft13(Left13(x)) == x
  {
    assert Unleft13(x ^ (x << 13)) == x;
  }

  lemma Right7Undone(x: bv64)
    ensures Unright7(Right7(x)) == x
  {
    assert Unright7(x ^ (x >> 7)) == x;
  }

  lemma Left17Undone(x: bv64)
    ensures Unleft17(Left17(x)) == x
  {
    assert Unleft17(x ^ (x << 17)) == x;
  }

  /** The state before a draw, from the value drawn. */
  function Undrawn(y: bv64): bv64 { Unleft13(Unright7(Unleft17(y))) }

  lemma DrawUndone(s: bv64)
    ensures Undrawn(Xorshift(s)) == s
  {
    Left13Undone(s);
    Right7Undone(Left13(s));
    Left17Undone(Right7(Left13(s)));
  }

  lemma ZeroUndrawn()
    ensures Undrawn(0) == 0
  {
    assert Unleft17(0) == 0 && Unright7(0) == 0 && Unleft13(0) == 0;
  }

  lemma DrawNonZero(s: bv64)
    requires s != 0
    ensures Xorshift(s) != 0
  {
    DrawUndone(s);
    ZeroUndrawn();
  }

  lemma {:induction false} PassedNonZero(s: State)
    requires s.state != 0
    ensures Passed(s).state != 0
    decreases |s.breakpoints|
  {
    if s.breakpoints != [] && s.count > s.breakpoints[0].0 {
      PassedNonZero(State(NonZero(s.breakpoints[0].1), 1, s.breakpoints[1..]));
    }
  }

  /** No seed and no recipe gets the generator stuck at zero. */
  lemma {:induction false} NeverZero(root: bv64, recipe: Recipe, k: nat)
    ensures After(Start(root, recipe), k).state != 0
  {
    if k > 0 {
      NeverZero(root, recipe, k - 1);
      var s := After(Start(root, recipe), k - 1);
      PassedNonZero(s.(count := s.count + 1));
      DrawNonZero(Counted(s).state);
    }
  }

  /** Two streams without breakpoints never meet: equal after as many draws, they began equal. */
  lemma {:induction false} StreamsNeverMeet(s: State, t: State, k: nat)
    requires s.breakpoints == t.breakpoints == []
    ensures After(s, k).breakpoints == After(t, k).breakpoints == []
    ensures After(s, k).state == After(t, k).state <==> s.state == t.state
  {
    if k > 0 {
      StreamsNeverMeet(s, t, k - 1);
      DrawUndone(After(s, k - 1).state);
      DrawUndone(After(t, k - 1).state);
    }
  }

  lemma SameValues(s: State, t: State, k: nat)
    requires s.breakpoints == t.breakpoints == [] && k > 0 && s.count == t.count
    ensures Values(s, k) == Values(t, k) <==> s == t
  {
    if Values(s, k) == Values(t, k) {
      assert Values(s, k)[k - 1] == Values(t, k)[k - 1];
      StreamsNeverMeet(s, t, k);
    }
  }

  /** Two seeds draw the same values exactly when they are equal, or the one is 0 and the other 1. */
  lemma SameStreamExactly(a: bv64, b: bv64, k: nat)
    requires k > 0
    ensures Values(Start(a, []), k) == Values(Start(b, []), k) <==> a == b || (a == 0 && b == 1) || (a == 1 && b == 0)
  {
    SameValues(Start(a, []), Start(b, []), k);
  }
}
