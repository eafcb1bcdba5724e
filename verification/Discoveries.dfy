/** The bounded journal of discoveries of one timeline: one entry per state, the strongest kept. */
module Discoveries {

  const MAX_ENTRIES: nat := 256

  datatype Kind = WatermarkImprovement | FrontierAdvance | BucketQuality | BucketFirst | BooleanCombination | SometimesPass

  datatype Event = Event(callCount: nat, kind: Kind, stateId: nat)

  predicate IsProgress(e: Event) { e.kind.WatermarkImprovement? || e.kind.FrontierAdvance? || e.kind.BucketQuality? }

  function Priority(e: Event): nat {
    if IsProgress(e) then 2 else if e.kind.BucketFirst? || e.kind.BooleanCombination? then 1 else 0
  }

  /** Kind decides; among equals, the later draw. */
  predicate Stronger(a: Event, b: Event) {
    Priority(a) > Priority(b) || (Priority(a) == Priority(b) && a.callCount > b.callCount)
  }

  predicate AsStrong(a: Event, b: Event) { !Stronger(b, a) }

  /** Progress before structured novelty before coverage, and within one of these the later draw; so any two
      discoveries compare, and they tie only in the same class and at the same draw. */
  lemma StrongerRanks(a: Event, b: Event)
    ensures a.kind in {WatermarkImprovement, FrontierAdvance, BucketQuality} && b.kind in {BucketFirst, BooleanCombination, SometimesPass} ==> Stronger(a, b)
    ensures a.kind in {BucketFirst, BooleanCombination} && b.kind == SometimesPass ==> Stronger(a, b)
    ensures a.kind == b.kind ==> (Stronger(a, b) <==> a.callCount > b.callCount)
    ensures a.kind in {WatermarkImprovement, FrontierAdvance, BucketQuality} && b.kind in {WatermarkImprovement, FrontierAdvance, BucketQuality} ==>
              (Stronger(a, b) <==> a.callCount > b.callCount)
    ensures a.kind in {BucketFirst, BooleanCombination} && b.kind in {BucketFirst, BooleanCombination} ==> (Stronger(a, b) <==> a.callCount > b.callCount)
    ensures !(Stronger(a, b) && Stronger(b, a))
  {
  }

  // ---- one discovery ----

  /** Where the state is recorded, the length of the journal when it is not. */
  function FindState(js: seq<Event>, id: nat): (i: nat)
    ensures i <= |js|
    ensures i < |js| ==> js[i].stateId == id
    ensures forall k | 0 <= k < i :: js[k].stateId != id
  {
    if js == [] then 0 else if js[0].stateId == id then 0 else 1 + FindState(js[1..], id)
  }

  /** The first of the weakest entries. */
  function Weakest(js: seq<Event>, n: nat): (w: nat)
    requires 0 < n <= |js|
    ensures w < n && forall k | 0 <= k < n :: AsStrong(js[k], js[w])
  {
    if n == 1 then 0
    else
      var w := Weakest(js, n - 1);
      if Stronger(js[w], js[n - 1]) then n - 1 else w
  }

  function Recorded(js: seq<Event>, e: Event): seq<Event> {
    var i := FindState(js, e.stateId);
    if i < |js| then if Stronger(e, js[i]) then js[i := e] else js
    else if |js| < MAX_ENTRIES then js + [e]
    else
      var w := Weakest(js, |js|);
      if Stronger(e, js[w]) then js[w := e] else js
  }

  /** The journal of a run. */
  class Journal {
    var entries: seq<Event>

    constructor ()
      ensures entries == []
    {
      entries := [];
    }

    method Record(e: Event)
      modifies this
      ensures entries == Recorded(old(entries), e)
    {
      var i := 0;
      while i < |entries|
        invariant 0 <= i <= |entries| && entries == old(entries)
        invariant forall k | 0 <= k < i :: entries[k].stateId != e.stateId
      {
        if entries[i].stateId == e.stateId {
          FoundAt(entries, e.stateId, i);
          if Stronger(e, entries[i]) { entries := entries[i := e]; }
          return;
        }
        i := i + 1;
      }
      FoundAt(entries, e.stateId, i);
      if |entries| < MAX_ENTRIES {
        entries := entries + [e];
        return;
      }
      var w, n := 0, 1;
      while n < |entries|
        invariant 1 <= n <= |entries| && entries == old(entries) && w == Weakest(entries, n)
      {
        if Stronger(entries[w], entries[n]) { w := n; }
        n := n + 1;
      }
      if Stronger(e, entries[w]) { entries := entries[w := e]; }
    }
  }

  lemma FoundAt(js: seq<Event>, id: nat, i: nat)
    requires i <= |js| && (i < |js| ==> js[i].stateId == id) && forall k | 0 <= k < i :: js[k].stateId != id
    ensures FindState(js, id) == i
  {
  }

  // ---- every discovery of a run ----

  function After(es: seq<Event>): seq<Event> {
    if es == [] then [] else Recorded(After(es[..|es| - 1]), es[|es| - 1])
  }

  /** No discovery of this state is stronger. */
  predicate Best(es: seq<Event>, e: Event) {
    e in es && forall k | 0 <= k < |es| && es[k].stateId == e.stateId :: AsStrong(e, es[k])
  }

  /** Event `k` is of a state the journal holds, or no stronger than anything in a full journal. */
  predicate Kept(js: seq<Event>, e: Event) {
    || (exists i | 0 <= i < |js| :: js[i].stateId == e.stateId)
    || (|js| == 256 && forall i | 0 <= i < |js| :: AsStrong(js[i], e))
  }

  predicate Holds(js: seq<Event>, es: seq<Event>) {
    && |js| <= 256
    && (forall i, j {:trigger js[i], js[j]} | 0 <= i < j < |js| :: js[i].stateId != js[j].stateId)
    && (forall i {:trigger js[i]} | 0 <= i < |js| :: Best(es, js[i]))
    && (forall k {:trigger es[k]} | 0 <= k < |es| :: Kept(js, es[k]))
  }

  lemma BestStays(es: seq<Event>, e: Event, x: Event)
    requires Best(es, x) && (e.stateId == x.stateId ==> AsStrong(x, e))
    ensures Best(es + [e], x)
  {
  }

  lemma BestInPlace(js: seq<Event>, es: seq<Event>, e: Event, i: nat, k: nat)
    requires i < |js| && k < |js| && Best(es, js[i]) && Best(es, js[k])
    requires js[i].stateId == e.stateId && (k != i ==> js[k].stateId != e.stateId)
    ensures Best(es + [e], (if Stronger(e, js[i]) then js[i := e] else js)[k])
  {
    if k != i { BestStays(es, e, js[k]); } else if !Stronger(e, js[i]) { BestStays(es, e, js[i]); }
  }

  lemma SameSlot(js: seq<Event>, es: seq<Event>, e: Event, i: nat)
    requires Holds(js, es) && i < |js| && js[i].stateId == e.stateId
    ensures Holds(if Stronger(e, js[i]) then js[i := e] else js, es + [e])
  {
    var js' := if Stronger(e, js[i]) then js[i := e] else js;
    var all := es + [e];
    forall k {:trigger js'[k]} | 0 <= k < |js'| ensures Best(all, js'[k]) { BestInPlace(js, es, e, i, k); }
    forall k {:trigger all[k]} | 0 <= k < |all| ensures Kept(js', all[k]) {
      if k < |es| { assert Kept(js, es[k]); KeptInPlace(js, js', i, es[k]); } else { assert js'[i].stateId == e.stateId; }
    }
  }

  lemma KeptInPlace(js: seq<Event>, js': seq<Event>, i: nat, x: Event)
    requires Kept(js, x) && i < |js| && |js'| == |js| && js'[i].stateId == js[i].stateId && AsStrong(js'[i], js[i])
    requires forall k | 0 <= k < |js| && k != i :: js'[k] == js[k]
    ensures Kept(js', x)
  {
    if k :| 0 <= k < |js| && js[k].stateId == x.stateId { assert js'[k].stateId == x.stateId; }
  }

  lemma NewState(js: seq<Event>, es: seq<Event>, e: Event)
    requires Holds(js, es) && FindState(js, e.stateId) == |js| < MAX_ENTRIES
    ensures Holds(js + [e], es + [e])
  {
    var js', all := js + [e], es + [e];
    forall k | 0 <= k < |es| ensures es[k].stateId != e.stateId {
      assert Kept(js, es[k]);
    }
    forall k {:trigger js'[k]} | 0 <= k < |js'| ensures Best(all, js'[k]) {
      if k < |js| { assert Best(es, js[k]); BestStays(es, e, js[k]); }
    }
    forall k {:trigger all[k]} | 0 <= k < |all| ensures Kept(js', all[k]) {
      if k < |es| {
        assert Kept(js, es[k]);
        var i :| 0 <= i < |js| && js[i].stateId == es[k].stateId;
        assert js'[i].stateId == es[k].stateId;
      } else {
        assert js'[|js|].stateId == e.stateId;
      }
    }
  }

  /** A full journal, and a state it does not hold. */
  lemma Evicts(js: seq<Event>, es: seq<Event>, e: Event)
    requires Holds(js, es) && FindState(js, e.stateId) == |js| == MAX_ENTRIES
    ensures var w := Weakest(js, |js|); Holds(if Stronger(e, js[w]) then js[w := e] else js, es + [e])
  {
    var w := Weakest(js, |js|);
    if Stronger(e, js[w]) { Replaces(js, es, e, w); } else { Ignores(js, es, e, w); }
  }

  lemma Ignores(js: seq<Event>, es: seq<Event>, e: Event, w: nat)
    requires Holds(js, es) && FindState(js, e.stateId) == |js| == MAX_ENTRIES && w < |js| && AsStrong(js[w], e)
    requires forall k | 0 <= k < |js| :: AsStrong(js[k], js[w])
    ensures Holds(js, es + [e])
  {
    var all := es + [e];
    forall k {:trigger js[k]} | 0 <= k < |js| ensures Best(all, js[k]) { assert Best(es, js[k]); BestStays(es, e, js[k]); }
    forall k {:trigger all[k]} | 0 <= k < |all| ensures Kept(js, all[k]) {
      if k < |es| { assert Kept(js, es[k]); }
    }
  }

  lemma Replaces(js: seq<Event>, es: seq<Event>, e: Event, w: nat)
    requires Holds(js, es) && FindState(js, e.stateId) == |js| == MAX_ENTRIES && w < |js| && Stronger(e, js[w])
    requires forall k | 0 <= k < |js| :: AsStrong(js[k], js[w])
    ensures Holds(js[w := e], es + [e])
  {
    var js', all := js[w := e], es + [e];
    forall k | 0 <= k < |es| && es[k].stateId == e.stateId ensures AsStrong(e, es[k]) { assert Kept(js, es[k]); }
    forall k {:trigger js'[k]} | 0 <= k < |js'| ensures Best(all, js'[k]) {
      if k != w { assert Best(es, js[k]); BestStays(es, e, js[k]); }
    }
    forall k {:trigger all[k]} | 0 <= k < |all| ensures Kept(js', all[k]) {
      if k < |es| { ReplacedKeeps(js, es, e, w, k); } else { assert js'[w].stateId == e.stateId; }
    }
  }

  lemma ReplacedKeeps(js: seq<Event>, es: seq<Event>, e: Event, w: nat, k: nat)
    requires Holds(js, es) && |js| == MAX_ENTRIES && w < |js| && Stronger(e, js[w]) && k < |es|
    requires forall i | 0 <= i < |js| :: AsStrong(js[i], js[w])
    ensures Kept(js[w := e], es[k])
  {
    var js' := js[w := e];
    assert Kept(js, es[k]) && Best(es, js[w]);
    if i :| 0 <= i < |js| && i != w && js[i].stateId == es[k].stateId {
      assert js'[i].stateId == es[k].stateId;
    } else if js[w].stateId == es[k].stateId {
      assert AsStrong(js[w], es[k]);
    }
  }

  /** After any discoveries, the journal holds the strongest states, each at its best. */
  lemma {:induction false} JournalHolds(es: seq<Event>)
    ensures Holds(After(es), es)
  {
    if es != [] {
      var n := |es| - 1;
      var js, e := After(es[..n]), es[n];
      JournalHolds(es[..n]);
      assert es[..n] + [e] == es;
      var i := FindState(js, e.stateId);
      if i < |js| { SameSlot(js, es[..n], e, i); }
      else if |js| < MAX_ENTRIES { NewState(js, es[..n], e); }
      else { Evicts(js, es[..n], e); }
    }
  }

  /** The anchor has the key an unbounded journal would give. */
  lemma AnchorIsStrongest(es: seq<Event>, a: Event)
    requires es != [] && a in After(es) && forall k | 0 <= k < |After(es)| :: AsStrong(a, After(es)[k])
    ensures a in es && forall k | 0 <= k < |es| :: AsStrong(a, es[k])
  {
    var js := After(es);
    JournalHolds(es);
    var i :| 0 <= i < |js| && js[i] == a;
    assert Best(es, js[i]);
    forall k | 0 <= k < |es| ensures AsStrong(a, es[k]) {
      assert Kept(js, es[k]);
      if j :| 0 <= j < |js| && js[j].stateId == es[k].stateId {
        assert Best(es, js[j]) && AsStrong(js[j], es[k]);
      }
    }
  }
}
