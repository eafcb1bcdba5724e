/** What the operations of a batch do to the index and to the history. */
module MemSteps {
  import opened Format
  import opened Ops
  import opened Recover
  import opened Log
  import opened Verdict
  import opened Writes
  import opened Spec
  import opened Runs
  import opened Invariant
  import opened DiskSteps

  // ---- the index ----

  lemma ReflectsApply(index: map<nat, Located>, items: map<nat, Item>, op: Op<Located>, of: Op<Item>)
    requires Reflects(index, items) && OpFits(op, of)
    ensures Reflects(Apply(index, op), Apply(items, of))
  {
    var index', items' := Apply(index, op), Apply(items, of);
    forall p ensures p in index' <==> p in items' {
      assert p in index.Keys <==> p in items.Keys;
    }
  }

  lemma {:induction false} ReflectsFold(index: map<nat, Located>, items: map<nat, Item>, ops: seq<Op<Located>>, of: seq<Op<Item>>)
    requires Reflects(index, items) && OpsFit(ops, of)
    ensures Reflects(Fold(index, ops), Fold(items, of))
    decreases |ops|
  {
    if ops != [] {
      var n := |ops| - 1;
      ReflectsFold(index, items, ops[..n], of[..n]);
      ReflectsApply(Fold(index, ops[..n]), Fold(items, of[..n]), ops[n], of[n]);
    }
  }

  lemma ReflectsAbove(index: map<nat, Located>, items: map<nat, Item>, floor: nat)
    requires Reflects(index, items)
    ensures Reflects(Above(index, floor), Above(items, floor))
  {
    var index', items' := Above(index, floor), Above(items, floor);
    forall p ensures p in index' <==> p in items' {
      assert p in index.Keys <==> p in items.Keys;
    }
  }

  /** The index follows the log by one batch. */
  lemma ReflectsMore(index: map<nat, Located>, log: seq<Op<Item>>, floor: nat, ops: seq<Op<Located>>, more: seq<Op<Item>>, higher: nat)
    requires Reflects(index, Above(Fold(map[], log), floor)) && OpsFit(ops, more) && floor <= higher
    ensures Reflects(Above(Fold(index, ops), higher), Above(Fold(map[], log + more), higher))
  {
    var items := Fold(map[], log);
    ReflectsFold(index, Above(items, floor), ops, more);
    ReflectsAbove(Fold(index, ops), Fold(Above(items, floor), more), higher);
    FoldConcat(map[], log, more);
    AboveTwice(items, floor);
    FoldAbove(Above(items, floor), items, more, floor, higher);
  }

  lemma AboveTwice<V>(items: map<nat, V>, floor: nat)
    ensures Above(Above(items, floor), floor) == Above(items, floor)
  {
  }

  lemma MappedFit(ops: seq<Op<Item>>)
    requires forall k | 0 <= k < |ops| :: ops[k].Put? ==> !ops[k].value.at.damaged
    ensures OpsFit(MapOps(AtOfItem, ops), ops)
  {
  }

  lemma BatchOpsFit(first: nat, b: Placed)
    requires WellFormed(b)
    ensures OpsFit(PutOps(first, b), BatchOps(first, b))
  {
    var ops := BatchOps(first, b);
    forall k | 0 <= k < |ops| ensures ops[k].Put? ==> !ops[k].value.at.damaged {
      var i := ConcatMember(seq(|b.entries|, i requires 0 <= i < |b.entries| => OpAt(first, b, i)), ops[k]);
    }
    MappedFit(ops);
  }

  /** Nothing dead is indexed: the front segment's puts are all overwritten, cleared or below
      the floor. */
  lemma DeadIsUnused(m: Mem, segs: seq<Segment>, log: seq<seq<Placed>>, floor: nat)
    requires |segs| == |log| > 0 && IsDead(m, segs[0].first)
    requires Reflects(m.index, Above(Fold(map[], LogOps(segs, log)), floor))
    ensures FrontUnused(segs, log, floor)
  {
    var items := Fold(map[], LogOps(segs, log));
    forall p | p in items && p >= floor ensures items[p].at.segment != segs[0].first {
      assert p in Above(items, floor).Keys;
      assert Undamaged(m.index[p]) == items[p].at;
    }
  }

  // ---- the history ----

  function MapParts<A, B>(f: A -> B, opss: seq<seq<Op<A>>>): seq<seq<Op<B>>> {
    seq(|opss|, i requires 0 <= i < |opss| => MapOps(f, opss[i]))
  }

  lemma {:induction false} MapConcat<A, B>(f: A -> B, opss: seq<seq<Op<A>>>)
    ensures MapOps(f, Concat(opss)) == Concat(MapParts(f, opss))
  {
    if opss != [] {
      var n := |opss| - 1;
      MapConcat(f, opss[..n]);
      MapOpsConcat(f, Concat(opss[..n]), opss[n]);
      assert MapParts(f, opss)[..n] == MapParts(f, opss[..n]);
    }
  }

  lemma OpSurvives(first: nat, b: Placed, i: nat)
    requires WellFormed(b) && i < |b.entries|
    ensures MapOps(CellOfItem, OpAt(first, b, i)) == if b.live[i] then [Mark(EntryOp(b.entries[i]), !b.firm)] else []
  {
    var ops := OpAt(first, b, i);
    assert b.live[i] ==> MapOps(CellOfItem, ops)[0] == MapOp(CellOfItem, ops[0]);
  }

  lemma PartsSurvive(first: nat, b: Placed, opss: seq<seq<Op<Item>>>)
    requires WellFormed(b) && |opss| == |b.entries| && forall i | 0 <= i < |opss| :: opss[i] == OpAt(first, b, i)
    ensures MapParts(CellOfItem, opss) == Parts(EntryOps(b.entries), b.live, !b.firm)
  {
    forall i | 0 <= i < |opss| ensures MapParts(CellOfItem, opss)[i] == Parts(EntryOps(b.entries), b.live, !b.firm)[i] {
      OpSurvives(first, b, i);
    }
  }

  /** The operations of a batch are the commit's writes that recovery kept. */
  lemma BatchSurvivors(first: nat, b: Placed)
    requires WellFormed(b)
    ensures MapOps(CellOfItem, BatchOps(first, b)) == Survivors(EntryOps(b.entries), b.live, !b.firm)
  {
    var opss := seq(|b.entries|, i requires 0 <= i < |b.entries| => OpAt(first, b, i));
    PartsSurvive(first, b, opss);
    MapConcat(CellOfItem, opss);
  }

  lemma {:induction false} ConcatSingles<T>(xss: seq<seq<T>>, xs: seq<T>)
    requires |xss| == |xs| && forall i | 0 <= i < |xs| :: xss[i] == [xs[i]]
    ensures Concat(xss) == xs
  {
    if xs != [] {
      ConcatSingles(xss[..|xs| - 1], xs[..|xs| - 1]);
    }
  }

  lemma {:induction false} ConcatNone<T>(xss: seq<seq<T>>)
    requires forall i | 0 <= i < |xss| :: xss[i] == []
    ensures Concat(xss) == []
  {
    if xss != [] {
      ConcatNone(xss[..|xss| - 1]);
    }
  }

  predicate Hard(ops: seq<Op<Cell>>) { forall i | 0 <= i < |ops| :: ops[i].Put? ==> !ops[i].value.soft }

  lemma SurvivorsAll(ops: seq<Op<Cell>>, live: seq<bool>)
    requires |live| == |ops| && Hard(ops) && forall i | 0 <= i < |live| :: live[i]
    ensures Survivors(ops, live, false) == ops
  {
    ConcatSingles(Parts(ops, live, false), ops);
  }

  lemma SurvivorsNone(ops: seq<Op<Cell>>, live: seq<bool>, soft: bool)
    requires |live| == |ops| && forall i | 0 <= i < |live| :: !live[i]
    ensures Survivors(ops, live, soft) == []
  {
    ConcatNone(Parts(ops, live, soft));
  }
}
