/** The metainfo file: two copies, written one after the other, repaired when one is stale. A write
    may stop for good at any point and leave its copy old, new or unreadable. */
module MetaFile {
  import opened Recover
  import opened Runs

  /** Every readable copy is the value in force or the one in flight, and equal sequence numbers
      mean equal values. */
  predicate Copies(a: MetaCell, b: MetaCell, committed: Meta, flight: Option<Meta>) {
    && (a.Copy? || b.Copy?)
    && (a.Copy? ==> a.meta == committed || Some(a.meta) == flight)
    && (b.Copy? ==> b.meta == committed || Some(b.meta) == flight)
    && (flight.Some? ==> flight.value.seqno > committed.seqno)
  }

  /** Where a write of one copy ends: durable, or cut by a crash that leaves the old copy, the new
      one or neither. */
  datatype Landing = Durable | Old | New | Torn

  function Landed(cell: MetaCell, m: Meta, landing: Landing): MetaCell {
    match landing
    case Durable | New => Copy(m)
    case Old => cell
    case Torn => Unreadable
  }

  predicate NotOlder(m: Meta, c: MetaCell) { c.Copy? ==> c.meta.seqno <= m.seqno }

  class File {
    var a: MetaCell
    var b: MetaCell
    ghost var committed: Meta
    ghost var flight: Option<Meta>

    ghost predicate Valid()
      reads this
    {
      Copies(a, b, committed, flight)
    }

    /** Open: both copies hold the value in force. */
    ghost predicate Opened()
      reads this
    {
      a == Copy(committed) && b == Copy(committed) && flight.None?
    }

    constructor (m: Meta)
      ensures Valid() && Opened() && committed == m
    {
      a, b, committed, flight := Copy(m), Copy(m), m, None;
    }

    /** A durable write of one copy, or what a crash leaves of it. */
    method WriteDurable(which: Which, m: Meta, landing: Landing) returns (ok: bool)
      modifies `a, `b
      ensures ok == landing.Durable?
      ensures a == (if which.A? then Landed(old(a), m, landing) else old(a))
      ensures b == (if which.A? then old(b) else Landed(old(b), m, landing))
    {
      if which.A? { a := Landed(a, m, landing); } else { b := Landed(b, m, landing); }
      ok := landing.Durable?;
    }

    /** Copy A, then copy B: from the first write on, an open may find the new value. */
    method Update(m: Meta, first: Landing, second: Landing) returns (ok: bool)
      requires Valid() && Opened() && m.seqno > committed.seqno
      modifies this
      ensures Valid() && ok == (first.Durable? && second.Durable?)
      ensures ok ==> Opened() && committed == m
      ensures !ok ==> committed == old(committed) && flight == Some(m)
      ensures !first.Durable? ==> b == old(b)
    {
      flight := Some(m);
      ok := WriteDurable(A, m, first);
      if ok { ok := WriteDurable(B, m, second); }
      if ok { committed, flight := m, None; }
    }

    /** Refused exactly when no copy is readable or two that differ claim the same place; else a readable
        copy that none is newer than, and the other one to repair unless they agree. Of a file in use it
        is the value in force or the one in flight. */
    method Choose() returns (r: Result<(Meta, Option<Which>), OpenError>)
      ensures r == Runs.Choose(a, b)
      ensures r.Err? <==> (a.Unreadable? && b.Unreadable?) || (a.Copy? && b.Copy? && a != b && a.meta.seqno == b.meta.seqno)
      ensures r.Ok? ==> Copy(r.value.0) in {a, b} && NotOlder(r.value.0, a) && NotOlder(r.value.0, b)
      ensures r.Ok? ==> if r.value.1.None? then a == b else Copy(r.value.0) == (if r.value.1.value.A? then b else a) != (if r.value.1.value.A? then a else b)
      ensures Valid() ==> r.Ok? && (r.value.0 == committed || Some(r.value.0) == flight)
    {
      match (a, b)
      case (Copy(x), Copy(y)) =>
        if x == y { return Ok((x, None)); }
        if x.seqno == y.seqno { return Err(MetaLost); }
        if x.seqno > y.seqno { return Ok((x, Some(B))); }
        return Ok((y, Some(A)));
      case (Copy(x), Unreadable) => return Ok((x, Some(B)));
      case (Unreadable, Copy(y)) => return Ok((y, Some(A)));
      case (Unreadable, Unreadable) => return Err(MetaLost);
    }

    /** After any updates, torn writes and opens before it, an open finds the value of the last
        completed update or of the one in flight, never neither, and repairs the other copy. */
    method Open(repair: Landing) returns (m: Meta, ok: bool)
      requires Valid()
      modifies this
      ensures Valid() && m in ({old(committed)} + if old(flight).Some? then {old(flight).value} else {})
      ensures ok == (repair.Durable? || old(a) == old(b))
      ensures ok ==> Opened() && committed == m
      ensures !ok ==> committed == old(committed) && flight == old(flight)
    {
      ChoosesOne(a, b, committed, flight);
      var r := Choose();
      m := r.value.0;
      ok := true;
      if r.value.1.Some? { ok := WriteDurable(r.value.1.value, m, repair); }
      if ok { committed, flight := m, None; }
    }
  }

  lemma ChoosesOne(a: MetaCell, b: MetaCell, committed: Meta, flight: Option<Meta>)
    requires Copies(a, b, committed, flight)
    ensures var r := Runs.Choose(a, b);
            && r.Ok? && (r.value.0 == committed || Some(r.value.0) == flight)
            && (a.Copy? ==> a.meta.seqno <= r.value.0.seqno) && (b.Copy? ==> b.meta.seqno <= r.value.0.seqno)
            && match r.value.1 {
                 case None => a == b == Copy(r.value.0)
                 case Some(which) => (if which.A? then b else a) == Copy(r.value.0)
               }
  {
  }
}
