/** What a caller may rely on: a log of writes, one commit in flight at a time, and a crash
    that keeps part of the commit in flight and nothing else. */
module Spec {
  import opened Ops
  import opened Recover
  import opened Log
  import opened Verdict

  /** The commit in flight: its writes, and the floor and metainfo it installs. */
  datatype Flight = Flight(ops: seq<Op<Cell>>, ordered: bool, floor: nat, bytes: seq<int>)

  /** Every write that took effect, the floor, the metainfo, and the commit in flight. */
  datatype Abs = Abs(hist: seq<Op<Cell>>, floor: nat, bytes: seq<int>, flight: Option<Flight>)

  /** What each position holds. */
  function Contents(a: Abs): map<nat, Cell> { Above(Fold(map[], a.hist), a.floor) }

  predicate Prefix(live: seq<bool>) { forall i, j | 0 <= i <= j < |live| :: live[j] ==> live[i] }

  function Mark(op: Op<Cell>, soft: bool): Op<Cell> {
    match op
    case Put(p, c) => Op.Put(p, c.(soft := soft))
    case Clear(s, e) => Op.Clear(s, e)
  }

  function Parts(ops: seq<Op<Cell>>, live: seq<bool>, soft: bool): (r: seq<seq<Op<Cell>>>)
    requires |live| == |ops|
  {
    seq(|ops|, i requires 0 <= i < |ops| => if live[i] then [Mark(ops[i], soft)] else [])
  }

  /** The writes of a cut commit that recovery keeps, in order. */
  function Survivors(ops: seq<Op<Cell>>, live: seq<bool>, soft: bool): seq<Op<Cell>>
    requires |live| == |ops|
  {
    Concat(Parts(ops, live, soft))
  }

  /** A commit takes effect whole. */
  ghost predicate Commits(a: Abs, a': Abs) {
    a.flight.Some? && a' == Abs(a.hist + a.flight.value.ops, a.flight.value.floor, a.flight.value.bytes, None)
  }

  /** Which writes a crash may keep: any of a batched commit, and then their bytes may be
      damaged; a prefix of an ordered one, intact. */
  predicate MayKeep(f: Flight, live: seq<bool>, soft: bool) {
    |live| == |f.ops| && (f.ordered ==> Prefix(live) && !soft)
  }

  /** A crash resolves the commit in flight; its metainfo takes effect only with all of it. */
  ghost predicate Recovers(a: Abs, a': Abs) {
    exists live: seq<bool>, soft: bool :: RecoversWith(a, a', live, soft)
  }

  predicate RecoversWith(a: Abs, a': Abs, live: seq<bool>, soft: bool) {
    a.flight.Some? && var f := a.flight.value;
    && MayKeep(f, live, soft)
    && a'.hist == a.hist + Survivors(f.ops, live, soft) && a'.flight == None
    && (|| (a'.floor == a.floor && a'.bytes == a.bytes)
        || (a'.floor == f.floor && a'.bytes == f.bytes && !soft && forall i | 0 <= i < |live| :: live[i]))
  }
}
