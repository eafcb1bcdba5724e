/** The log's operations and the index they fold into. */
module Ops {

  /** A put of a value at a position, or a tombstone over `start..end`. */
  datatype Op<+V> = Put(position: nat, value: V) | Clear(start: nat, end: nat)

  function Apply<V>(index: map<nat, V>, op: Op<V>): map<nat, V> {
    match op
    case Put(p, v) => index[p := v]
    case Clear(start, end) => map p | p in index && !(start <= p < end) :: index[p]
  }

  /** The index after applying `ops`, in order, to `index`. */
  function Fold<V>(index: map<nat, V>, ops: seq<Op<V>>): map<nat, V> {
    if ops == [] then index else Apply(Fold(index, ops[..|ops| - 1]), ops[|ops| - 1])
  }

  /** What is left once every position below the floor is dropped. */
  function Above<V>(index: map<nat, V>, floor: nat): map<nat, V> {
    map p | p in index && p >= floor :: index[p]
  }

  /** `ys` is what `xs` ends with. */
  predicate EndsWith<T(==)>(xs: seq<T>, ys: seq<T>) { |ys| <= |xs| && xs[|xs| - |ys|..] == ys }

  lemma EndsWithMore<T>(xs: seq<T>, ys: seq<T>, more: seq<T>)
    requires EndsWith(xs, ys)
    ensures EndsWith(xs + more, ys + more)
  {
    assert xs == xs[..|xs| - |ys|] + ys;
  }

  lemma EndsWithRest<T>(xs: seq<T>, front: seq<T>, rest: seq<T>)
    requires EndsWith(xs, front + rest)
    ensures EndsWith(xs, rest)
  {
    assert xs == xs[..|xs| - |front + rest|] + front + rest;
  }

  function Concat<T>(xss: seq<seq<T>>): seq<T> {
    if xss == [] then [] else Concat(xss[..|xss| - 1]) + xss[|xss| - 1]
  }

  function MapOps<A, B>(f: A -> B, ops: seq<Op<A>>): (r: seq<Op<B>>)
    ensures |r| == |ops|
    ensures forall k | 0 <= k < |ops| :: r[k] == MapOp(f, ops[k])
  {
    if ops == [] then [] else MapOps(f, ops[..|ops| - 1]) + [MapOp(f, ops[|ops| - 1])]
  }

  function MapOp<A, B>(f: A -> B, op: Op<A>): Op<B> {
    match op
    case Put(p, v) => Put(p, f(v))
    case Clear(s, e) => Clear(s, e)
  }

  // ---- what a position holds ----

  /** The operation puts the position or clears a range it lies in. */
  predicate Touches<V>(op: Op<V>, p: nat) {
    match op
    case Put(q, _) => q == p
    case Clear(start, end) => start <= p < end
  }

  /** Operation `k` is the last that touches the position. */
  predicate Decides<V>(ops: seq<Op<V>>, k: nat, p: nat) {
    k < |ops| && Touches(ops[k], p) && forall j | k < j < |ops| :: !Touches(ops[j], p)
  }

  predicate Untold<V>(ops: seq<Op<V>>, p: nat) { forall k | 0 <= k < |ops| :: !Touches(ops[k], p) }

  /** The last operation that touches a position decides it; one that none touches stays. */
  lemma {:induction false} LastDecides<V>(index: map<nat, V>, ops: seq<Op<V>>, p: nat)
    ensures var m := Fold(index, ops);
            && (forall k: nat {:trigger ops[k]} | Decides(ops, k, p) :: if ops[k].Put? then p in m && m[p] == ops[k].value else p !in m)
            && (Untold(ops, p) ==> if p in index then p in m && m[p] == index[p] else p !in m)
            && (Untold(ops, p) || exists k: nat :: Decides(ops, k, p))
  {
    if ops != [] {
      var n := |ops| - 1;
      var init := ops[..n];
      LastDecides(index, init, p);
      if Touches(ops[n], p) {
        assert Decides(ops, n, p);
      } else {
        forall k: nat {:trigger ops[k]} | Decides(ops, k, p) ensures Decides(init, k, p) { }
        forall k: nat | Decides(init, k, p) ensures Decides(ops, k, p) { }
        if Untold(ops, p) { assert forall k | 0 <= k < n :: init[k] == ops[k]; }
      }
    }
  }

  /** A log's index by its last writers: a position is in it exactly when the last operation that touches
      it is a put, and then it holds what that put says. */
  lemma LastWriter<V>(ops: seq<Op<V>>, p: nat)
    ensures p in Fold(map[], ops) <==> exists k: nat :: Decides(ops, k, p) && ops[k].Put?
    ensures forall k: nat {:trigger ops[k]} | Decides(ops, k, p) && ops[k].Put? :: Fold(map[], ops)[p] == ops[k].value
  {
    LastDecides(map[], ops, p);
  }

  function MapIndex<A, B>(f: A -> B, index: map<nat, A>): map<nat, B> {
    map p | p in index :: f(index[p])
  }

  lemma {:induction false} FoldConcat<V>(index: map<nat, V>, xs: seq<Op<V>>, ys: seq<Op<V>>)
    ensures Fold(index, xs + ys) == Fold(Fold(index, xs), ys)
    decreases |ys|
  {
    if ys == [] {
      assert xs + ys == xs;
    } else {
      assert (xs + ys)[..|xs + ys| - 1] == xs + ys[..|ys| - 1];
      FoldConcat(index, xs, ys[..|ys| - 1]);
    }
  }

  /** Folding commutes with a change of values. */
  lemma {:induction false} FoldMap<A, B>(f: A -> B, index: map<nat, A>, ops: seq<Op<A>>)
    ensures Fold(MapIndex(f, index), MapOps(f, ops)) == MapIndex(f, Fold(index, ops))
    decreases |ops|
  {
    if ops != [] {
      FoldMap(f, index, ops[..|ops| - 1]);
      assert MapOps(f, ops)[..|ops| - 1] == MapOps(f, ops[..|ops| - 1]);
    }
  }

  lemma FoldMapAbove<A, B>(f: A -> B, ops: seq<Op<A>>, floor: nat)
    ensures Above(Fold(map[], MapOps(f, ops)), floor) == MapIndex(f, Above(Fold(map[], ops), floor))
  {
    var none: map<nat, A> := map[];
    FoldMap(f, none, ops);
    assert MapIndex(f, none) == map[];
    AboveMap(f, Fold(none, ops), floor);
  }

  lemma AboveMap<A, B>(f: A -> B, index: map<nat, A>, floor: nat)
    ensures Above(MapIndex(f, index), floor) == MapIndex(f, Above(index, floor))
  {
  }

  lemma MapOpsConcat<A, B>(f: A -> B, xs: seq<Op<A>>, ys: seq<Op<A>>)
    ensures MapOps(f, xs + ys) == MapOps(f, xs) + MapOps(f, ys)
  {
  }

  /** Operations never make a dropped position matter: only what is above the floor decides
      what is above a floor at least as high. */
  lemma {:induction false} FoldAbove<V>(a: map<nat, V>, b: map<nat, V>, ops: seq<Op<V>>, floor: nat, higher: nat)
    requires Above(a, floor) == Above(b, floor) && floor <= higher
    ensures Above(Fold(a, ops), higher) == Above(Fold(b, ops), higher)
    decreases |ops|
  {
    if ops == [] {
      forall p | p >= higher ensures p in a <==> p in b {
        assert p in Above(a, floor) <==> p in Above(b, floor);
      }
      forall p | p >= higher && p in a ensures a[p] == b[p] {
        assert Above(a, floor)[p] == Above(b, floor)[p];
      }
    } else {
      FoldAbove(a, b, ops[..|ops| - 1], floor, floor);
      var a', b' := Fold(a, ops[..|ops| - 1]), Fold(b, ops[..|ops| - 1]);
      forall p | p >= floor ensures p in a' <==> p in b' {
        assert p in Above(a', floor) <==> p in Above(b', floor);
      }
      forall p | p >= floor && p in a' ensures a'[p] == b'[p] {
        assert Above(a', floor)[p] == Above(b', floor)[p];
      }
    }
  }

  /** A position folded over a prefix holds what the suffix says, or else a put of the prefix. */
  lemma {:induction false} FoldSuffix<V>(xs: seq<Op<V>>, ys: seq<Op<V>>, p: nat)
    ensures p in Fold(map[], ys) ==> p in Fold(map[], xs + ys) && Fold(map[], xs + ys)[p] == Fold(map[], ys)[p]
    ensures p in Fold(map[], xs + ys) && p !in Fold(map[], ys) ==> Put(p, Fold(map[], xs + ys)[p]) in xs
    decreases |xs| + |ys|
  {
    if ys != [] {
      assert (xs + ys)[..|xs + ys| - 1] == xs + ys[..|ys| - 1];
      FoldSuffix(xs, ys[..|ys| - 1], p);
    } else if xs != [] {
      assert xs + ys == xs;
      FoldSuffix(xs[..|xs| - 1], [], p);
      assert xs[..|xs| - 1] + [] == xs[..|xs| - 1];
    }
  }

  /** Whatever an index holds, some put of the log put it there. */
  lemma FoldOrigin<V>(ops: seq<Op<V>>, p: nat)
    requires p in Fold(map[], ops)
    ensures Put(p, Fold(map[], ops)[p]) in ops
  {
    assert ops + [] == ops;
    FoldSuffix(ops, [], p);
  }
}
