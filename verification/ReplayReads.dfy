/** Reading a range of positions with few reads: entries that follow each other are read together,
    and each is judged on its own bytes, as if it had been read alone. */
module ReplayReads {
  import opened Format
  import opened Ops
  import opened Recover
  import opened Log
  import opened Verdict
  import opened Runs
  import opened Invariant
  import opened Refinement
  import Spec
  import Reads

  const REPLAY_READ: nat := 0x10_0000
  const REPLAY_GAP: nat := 64 * BLOCK

  // ---- blocks ----

  /** A segment file: its blocks, and those its medium fails to read. */
  datatype Medium = Medium(blocks: seq<seq<int>>, bad: set<nat>) {
    predicate Valid() { forall b {:trigger blocks[b]} | 0 <= b < |blocks| :: |blocks[b]| == BLOCK }
  }

  function Zeros(): (r: seq<int>)
    ensures |r| == BLOCK
  {
    seq(BLOCK, _ => 0)
  }

  /** A block as a reader sees it: zeros where the medium fails. */
  function Block(m: Medium, b: nat): (r: seq<int>)
    requires m.Valid() && b < |m.blocks|
    ensures |r| == BLOCK
  {
    if b in m.bad then Zeros() else m.blocks[b]
  }

  function Window(m: Medium, first: nat, n: nat): (r: seq<int>)
    requires m.Valid() && first + n <= |m.blocks|
    ensures |r| == n * BLOCK
  {
    if n == 0 then [] else Window(m, first, n - 1) + Block(m, first + n - 1)
  }

  lemma {:induction false} WindowSplits(m: Medium, first: nat, a: nat, n: nat)
    requires m.Valid() && first + n <= |m.blocks| && a <= n
    ensures Window(m, first, n) == Window(m, first, a) + Window(m, first + a, n - a)
    decreases n - a
  {
    if a == n {
      assert Window(m, first + a, 0) == [];
    } else {
      WindowSplits(m, first, a, n - 1);
      assert (first + a) + (n - a) - 1 == first + n - 1;
    }
  }

  /** One transfer of every block, or the medium's failure. */
  method Transfer(m: Medium, first: nat, n: nat) returns (ok: bool, buf: seq<int>)
    requires m.Valid() && first + n <= |m.blocks|
    ensures ok <==> forall b | first <= b < first + n :: b !in m.bad
    ensures ok ==> buf == Window(m, first, n)
  {
    ok, buf := true, [];
    for i := 0 to n
      invariant ok ==> (forall b | first <= b < first + i :: b !in m.bad) && buf == Window(m, first, i)
      invariant !ok ==> exists b | first <= b < first + i :: b in m.bad
    {
      if first + i in m.bad { ok := false; }
      buf := if ok then buf + m.blocks[first + i] else [];
    }
  }

  lemma WindowOne(m: Medium, b: nat)
    requires m.Valid() && b < |m.blocks|
    ensures Window(m, b, 1) == Block(m, b)
  {
    assert Window(m, b, 0) == [];
  }

  /** A block read alone: zeros if the medium fails. */
  method ReadBlock(m: Medium, b: nat) returns (chunk: seq<int>)
    requires m.Valid() && b < |m.blocks|
    ensures chunk == Block(m, b)
  {
    var ok, buf := Transfer(m, b, 1);
    WindowOne(m, b);
    assert ok <==> b !in m.bad;
    chunk := if ok then buf else Zeros();
  }

  /** Whole blocks; after a failure each is read alone, and one that fails reads as zeros. */
  method ReadBlocks(m: Medium, first: nat, n: nat) returns (buf: seq<int>)
    requires m.Valid() && first + n <= |m.blocks|
    ensures buf == Window(m, first, n)
  {
    var ok, whole := Transfer(m, first, n);
    if ok { return whole; }
    buf := [];
    for i := 0 to n
      invariant buf == Window(m, first, i)
    {
      var chunk := ReadBlock(m, first + i);
      buf := buf + chunk;
    }
  }

  // ---- bytes ----

  function Contents(m: Medium): seq<int>
    requires m.Valid()
  {
    Window(m, 0, |m.blocks|)
  }

  function Bytes(m: Medium, offset: nat, len: nat): (r: seq<int>)
    requires m.Valid() && offset + len <= |m.blocks| * BLOCK
    ensures |r| == len
  {
    Contents(m)[offset..offset + len]
  }

  lemma MiddlePart<T>(head: seq<T>, mid: seq<T>, tail: seq<T>)
    ensures (head + (mid + tail))[|head|..|head| + |mid|] == mid
  {
  }

  /** The file around a window. */
  lemma Around(m: Medium, first: nat, n: nat)
    requires m.Valid() && first + n <= |m.blocks|
    ensures Contents(m) == Window(m, 0, first) + (Window(m, first, n) + Window(m, first + n, |m.blocks| - first - n))
  {
    WindowSplits(m, 0, first, |m.blocks|);
    WindowSplits(m, first, n, |m.blocks| - first);
  }

  lemma WindowIs(m: Medium, first: nat, n: nat)
    requires m.Valid() && first + n <= |m.blocks|
    ensures Window(m, first, n) == Contents(m)[first * BLOCK..(first + n) * BLOCK]
  {
    var head, mid, tail := Window(m, 0, first), Window(m, first, n), Window(m, first + n, |m.blocks| - first - n);
    Around(m, first, n);
    MiddlePart(head, mid, tail);
    assert |head| == first * BLOCK && |head| + |mid| == (first + n) * BLOCK;
  }

  lemma SliceTwice<T>(xs: seq<T>, a: nat, b: nat, skip: nat, len: nat)
    requires a <= b <= |xs| && skip + len <= b - a
    ensures xs[a..b][skip..skip + len] == xs[a + skip..a + skip + len]
  {
    var one, two := xs[a..b][skip..skip + len], xs[a + skip..a + skip + len];
    assert |one| == |two| == len;
    forall i | 0 <= i < len ensures one[i] == two[i] { }
  }

  /** Bytes through whole blocks: the window that covers them, and where they lie in it. */
  method ReadBytes(m: Medium, offset: nat, len: nat) returns (r: seq<int>)
    requires m.Valid() && offset + len <= |m.blocks| * BLOCK
    ensures r == Bytes(m, offset, len)
  {
    if len == 0 { return []; }
    var first, last := offset / BLOCK, AlignToBlock(offset + len) / BLOCK;
    var buf := ReadBlocks(m, first, last - first);
    WindowIs(m, first, last - first);
    var skip := offset - first * BLOCK;
    SliceTwice(Contents(m), first * BLOCK, last * BLOCK, skip, len);
    r := buf[skip..skip + len];
  }

  // ---- replay ----

  /** The bytes of an entry: its header and its payload. */
  function EntryBytes(at: Located): nat { RECORD_SIZE + at.len }

  /** An entry judged on its bytes: whatever the checks make of them. */
  type Judge = (nat, Located, seq<int>) -> Reads.Read

  /** The open segments' files, by their first batch. */
  type Files = map<nat, Medium>

  predicate Inside(files: Files, at: Located) {
    && at.segment in files && files[at.segment].Valid()
    && at.offset + EntryBytes(at) <= |files[at.segment].blocks| * BLOCK
  }

  predicate AllInside(files: Files, index: map<nat, Located>) {
    forall p {:trigger index[p]} | p in index :: Inside(files, index[p])
  }

  /** One position read alone. */
  function ReadOne(files: Files, judge: Judge, index: map<nat, Located>, position: nat): Reads.Read
    requires AllInside(files, index)
  {
    if position !in index then Reads.Empty
    else
      var at := index[position];
      if at.damaged then Reads.DamagedEntry(at.id) else judge(position, at, Bytes(files[at.segment], at.offset, EntryBytes(at)))
  }

  /** A range of positions; one without an upper bound has no `hi`. */
  datatype Range = Range(lo: nat, hi: Option<nat>) {
    predicate Has(p: nat) { lo <= p && (hi.Some? ==> p < hi.value) }
  }

  predicate Increasing(ps: seq<nat>) { forall i, j {:trigger ps[i], ps[j]} | 0 <= i < j < |ps| :: ps[i] < ps[j] }

  /** The indexed positions of the range, in order. */
  ghost predicate Lists(index: map<nat, Located>, range: Range, ps: seq<nat>) {
    Increasing(ps) && forall p :: p in ps <==> p in index && range.Has(p)
  }

  lemma {:induction false} LeastOf(s: set<nat>) returns (p: nat)
    requires s != {}
    ensures p in s && forall q | q in s :: p <= q
  {
    var x :| x in s;
    var rest := s - {x};
    if rest == {} {
      p := x;
      forall q | q in s ensures p <= q { assert q in rest || q == x; }
    } else {
      var least := LeastOf(rest);
      p := if x < least then x else least;
      forall q | q in s ensures p <= q { assert q in rest || q == x; }
    }
  }

  method PositionsIn(index: map<nat, Located>, range: Range) returns (ps: seq<nat>)
    ensures Lists(index, range, ps)
  {
    var rest := set p | p in index && range.Has(p);
    ps := [];
    while rest != {}
      invariant Increasing(ps) && forall p, i {:trigger p in rest, ps[i]} | p in rest && 0 <= i < |ps| :: ps[i] < p
      invariant forall p :: p in ps || p in rest <==> p in index && range.Has(p)
      decreases |rest|
    {
      ghost var least := LeastOf(rest);
      var p :| p in rest && forall q | q in rest :: p <= q;
      rest := rest - {p};
      ps := ps + [p];
    }
  }

  /** The entries of a run lie in one segment, inside the bytes read, none damaged. */
  predicate InRun(located: seq<Located>, from: nat, to: nat, start: nat, end: nat) {
    forall i {:trigger located[i]} | from <= i < to && i < |located| ::
      located[i].segment == located[from].segment && !located[i].damaged
      && start <= located[i].offset && located[i].offset + EntryBytes(located[i]) <= end
  }

  /** Entry `i` goes on where the one before it ends: in the same segment, readable, after a small gap, and
      within one read from the first. */
  predicate GoesOn(located: seq<Located>, first: nat, i: nat)
    requires first < i < |located|
  {
    var end := located[i - 1].offset + EntryBytes(located[i - 1]);
    && located[i].segment == located[first].segment && !located[i].damaged
    && end <= located[i].offset <= end + 0x4_0000 && located[i].offset + EntryBytes(located[i]) <= located[first].offset + 0x10_0000
  }

  /** The entries after `first` that one read covers: as many as go on one after the other. */
  method RunFrom(located: seq<Located>, first: nat) returns (stop: nat, end: nat)
    requires first < |located| && !located[first].damaged
    ensures first < stop <= |located| && InRun(located, first, stop, located[first].offset, end)
    ensures end == located[stop - 1].offset + EntryBytes(located[stop - 1])
    ensures stop > first + 1 ==> end - located[first].offset <= REPLAY_READ
    ensures (forall i | first < i < stop :: GoesOn(located, first, i)) && (stop < |located| ==> !GoesOn(located, first, stop))
  {
    var at := located[first];
    var start := at.offset;
    end := start + EntryBytes(at);
    stop := first + 1;
    while stop < |located|
      invariant first < stop <= |located| && InRun(located, first, stop, start, end)
      invariant end == located[stop - 1].offset + EntryBytes(located[stop - 1])
      invariant stop > first + 1 ==> end - start <= REPLAY_READ
      invariant forall i | first < i < stop :: GoesOn(located, first, i)
    {
      var next := located[stop];
      var nextEnd := next.offset + EntryBytes(next);
      if next.segment != at.segment || next.damaged || next.offset < end || next.offset - end > REPLAY_GAP || nextEnd - start > REPLAY_READ {
        break;
      }
      end := nextEnd;
      stop := stop + 1;
    }
  }

  lemma SliceOfRun(m: Medium, start: nat, end: nat, at: Located)
    requires m.Valid() && start <= at.offset && at.offset + EntryBytes(at) <= end <= |m.blocks| * BLOCK
    ensures Bytes(m, start, end - start)[at.offset - start..at.offset - start + EntryBytes(at)] == Bytes(m, at.offset, EntryBytes(at))
  {
    SliceTwice(Contents(m), start, end, at.offset - start, EntryBytes(at));
  }

  /** The first positions, each with what a read of it alone returns. */
  predicate ReadsOf(files: Files, judge: Judge, index: map<nat, Located>, ps: seq<nat>, out: seq<(nat, Reads.Read)>)
    requires AllInside(files, index)
  {
    |out| <= |ps| && forall i {:trigger out[i]} | 0 <= i < |out| :: out[i] == (ps[i], ReadOne(files, judge, index, ps[i]))
  }

  /** The entries of one run, read together and judged one by one. */
  method ReplayRun(files: Files, judge: Judge, index: map<nat, Located>, ps: seq<nat>, located: seq<Located>, before: seq<(nat, Reads.Read)>, stop: nat, end: nat)
    returns (out: seq<(nat, Reads.Read)>)
    requires AllInside(files, index) && ReadsOf(files, judge, index, ps, before) && |before| < stop <= |ps| == |located|
    requires forall i {:trigger located[i]} | 0 <= i < |ps| :: ps[i] in index && located[i] == index[ps[i]]
    requires InRun(located, |before|, stop, located[|before|].offset, end) && end == located[stop - 1].offset + EntryBytes(located[stop - 1])
    ensures ReadsOf(files, judge, index, ps, out) && |out| == stop
  {
    var at := located[|before|];
    var m, start := files[at.segment], at.offset;
    assert located[stop - 1].segment == at.segment && Inside(files, index[ps[stop - 1]]) && Inside(files, index[ps[|before|]]);
    var bytes := ReadBytes(m, start, end - start);
    out := before;
    while |out| < stop
      invariant |before| <= |out| <= stop && ReadsOf(files, judge, index, ps, out)
      decreases stop - |out|
    {
      var p, here := ps[|out|], located[|out|];
      var from := here.offset - start;
      SliceOfRun(m, start, end, here);
      out := out + [(p, judge(p, here, bytes[from..from + EntryBytes(here)]))];
    }
  }

  /** What a replay of a range returns: each indexed position of it once, in order, and of each exactly
      what a read of it alone returns. */
  predicate Replayed(files: Files, judge: Judge, index: map<nat, Located>, range: Range, out: seq<(nat, Reads.Read)>)
    requires AllInside(files, index)
  {
    && (forall i, j {:trigger out[i], out[j]} | 0 <= i < j < |out| :: out[i].0 < out[j].0)
    && (forall i {:trigger out[i]} | 0 <= i < |out| ::
          out[i].0 in index && range.Has(out[i].0) && out[i].1 == ReadOne(files, judge, index, out[i].0))
    && forall p {:trigger p in index} | p in index && range.Has(p) :: exists i | 0 <= i < |out| :: out[i].0 == p
  }

  lemma AllReplayed(files: Files, judge: Judge, index: map<nat, Located>, range: Range, ps: seq<nat>, out: seq<(nat, Reads.Read)>)
    requires AllInside(files, index) && Lists(index, range, ps) && ReadsOf(files, judge, index, ps, out) && |out| == |ps|
    ensures Replayed(files, judge, index, range, out)
  {
    forall i {:trigger out[i]} | 0 <= i < |out| ensures out[i].0 in index && range.Has(out[i].0) { assert ps[i] in ps; }
    forall p {:trigger p in index} | p in index && range.Has(p) ensures exists i | 0 <= i < |out| :: out[i].0 == p {
      var i :| 0 <= i < |ps| && ps[i] == p;
      assert out[i].0 == p;
    }
  }

  method Replay(files: Files, judge: Judge, index: map<nat, Located>, range: Range) returns (out: seq<(nat, Reads.Read)>)
    requires AllInside(files, index)
    ensures Replayed(files, judge, index, range, out)
  {
    var ps := PositionsIn(index, range);
    assert forall i {:trigger ps[i]} | 0 <= i < |ps| :: ps[i] in ps && ps[i] in index;
    var located := seq(|ps|, i requires 0 <= i < |ps| => index[ps[i]]);
    out := [];
    while |out| < |ps|
      invariant ReadsOf(files, judge, index, ps, out)
      decreases |ps| - |out|
    {
      var first := |out|;
      if located[first].damaged {
        out := out + [(ps[first], Reads.DamagedEntry(located[first].id))];
      } else {
        var stop, end := RunFrom(located, first);
        out := ReplayRun(files, judge, index, ps, located, out, stop, end);
      }
    }
    AllReplayed(files, judge, index, range, ps, out);
  }

  // ---- the replay of an open journal ----

  /** The files hold what the segments' cells say: an entry's bytes are judged as its cell is. */
  ghost predicate Encodes(g: Geometry, d: Disk, files: Files, judge: Judge) {
    forall s {:trigger d.segs[s]} | 0 <= s < |d.segs| :: EncodesOne(g, d.segs[s], files, judge)
  }

  ghost predicate EncodesOne(g: Geometry, seg: Segment, files: Files, judge: Judge) {
    && seg.first in files && files[seg.first].Valid() && |files[seg.first].blocks| == g.TotalBlocks()
    && forall p: nat, at: Located {:trigger Reads.Judge(seg, p, at)} | at.segment == seg.first && at.offset + EntryBytes(at) <= g.TotalBlocks() * BLOCK ::
         judge(p, at, Bytes(files[seg.first], at.offset, EntryBytes(at))) == Reads.Judge(seg, p, at)
  }

  /** Every indexed entry lies inside the segment that holds it. */
  lemma IndexedIsInside(g: Geometry, s: State, w: Witness, p: nat) returns (i: nat)
    requires Inv(g, s, w) && s.pc == Ready && p in s.mem.index
    ensures var at := s.mem.index[p];
            i < |s.disk.segs| && s.disk.segs[i].first == at.segment && at.offset + EntryBytes(at) <= g.EntryEnd()
  {
    Reads.IndexIsContents(s, w, p);
    i := PlacedInside(g, s.disk.segs, w.log, p);
  }

  lemma PlacedInside(g: Geometry, segs: seq<Segment>, log: seq<seq<Placed>>, p: nat) returns (i: nat)
    requires Chained(Held(g), segs, log, None) && p in Fold(map[], LogOps(segs, log))
    ensures var at := Fold(map[], LogOps(segs, log))[p].at;
            i < |segs| && segs[i].first == at.segment && at.offset + EntryBytes(at) <= g.EntryEnd()
  {
    var k, n;
    i, k, n := Reads.Origin(segs, log, p);
    Reads.SolidHere(g, segs, log, i, k);
    OffGrows(log[i][k], n, |log[i][k].entries|);
  }

  lemma JournalInside(g: Geometry, s: State, w: Witness, files: Files, judge: Judge)
    requires Inv(g, s, w) && s.pc == Ready && Encodes(g, s.disk, files, judge)
    ensures AllInside(files, s.mem.index)
  {
    forall p {:trigger s.mem.index[p]} | p in s.mem.index ensures Inside(files, s.mem.index[p]) {
      var i := IndexedIsInside(g, s, w, p);
      assert EncodesOne(g, s.disk.segs[i], files, judge);
    }
  }

  /** A read through the files is the read of the cells. */
  lemma ReadsAgree(g: Geometry, s: State, w: Witness, files: Files, judge: Judge, p: nat)
    requires Inv(g, s, w) && s.pc == Ready && Encodes(g, s.disk, files, judge) && AllInside(files, s.mem.index)
    ensures ReadOne(files, judge, s.mem.index, p) == Reads.ReadAt(s, p)
  {
    if p in s.mem.index && !s.mem.index[p].damaged {
      var i := IndexedIsInside(g, s, w, p);
      assert EncodesOne(g, s.disk.segs[i], files, judge);
      Reads.ReadFromIs(s.disk.segs, i, p, s.mem.index[p]);
    }
  }

  /** The replay of a range of an open journal is the abstract log's contents there, in order. */
  ghost predicate ReplaysContents(contents: map<nat, Cell>, range: Range, out: seq<(nat, Reads.Read)>) {
    && (forall i, j {:trigger out[i], out[j]} | 0 <= i < j < |out| :: out[i].0 < out[j].0)
    && (forall i {:trigger out[i]} | 0 <= i < |out| ::
          out[i].0 in contents && range.Has(out[i].0) && Reads.ReadFits(out[i].1, contents, out[i].0))
    && forall p {:trigger p in contents} | p in contents && range.Has(p) :: exists i | 0 <= i < |out| :: out[i].0 == p
  }

  lemma IndexedIsHeld(g: Geometry, s: State, w: Witness, p: nat)
    requires Inv(g, s, w) && s.pc == Ready
    ensures p in s.mem.index <==> p in Spec.Contents(w.abs)
  {
    Reads.IndexIsContents(s, w, p);
  }

  lemma ReplayIsRight(g: Geometry, s: State, w: Witness, files: Files, judge: Judge, range: Range, out: seq<(nat, Reads.Read)>)
    requires Inv(g, s, w) && s.pc == Ready && Encodes(g, s.disk, files, judge)
    requires AllInside(files, s.mem.index) && Replayed(files, judge, s.mem.index, range, out)
    ensures ReplaysContents(Spec.Contents(w.abs), range, out)
  {
    forall i {:trigger out[i]} | 0 <= i < |out|
      ensures out[i].0 in Spec.Contents(w.abs) && Reads.ReadFits(out[i].1, Spec.Contents(w.abs), out[i].0)
    {
      IndexedIsHeld(g, s, w, out[i].0);
      ReadsAgree(g, s, w, files, judge, out[i].0);
      Reads.ReadIsRight(g, s, w, out[i].0);
    }
    forall p {:trigger p in Spec.Contents(w.abs)} | p in Spec.Contents(w.abs) && range.Has(p) ensures exists i | 0 <= i < |out| :: out[i].0 == p {
      IndexedIsHeld(g, s, w, p);
    }
  }

  /** At the end of any run that leaves the journal open, a replay through its files may be asked for, */
  lemma RunInside(g: Geometry, run: seq<State>, files: Files, judge: Judge)
    requires g.Valid() && Run(g, run) && run[|run| - 1].pc == Ready && Encodes(g, run[|run| - 1].disk, files, judge)
    ensures AllInside(files, run[|run| - 1].mem.index)
  {
    var ws := RunWitnessed(g, run);
    assert InvAt(g, run, ws, |run| - 1);
    JournalInside(g, run[|run| - 1], ws[|run| - 1], files, judge);
  }

  /** and returns what the abstract log holds in the range. */
  lemma RunReplays(g: Geometry, run: seq<State>, files: Files, judge: Judge, range: Range, out: seq<(nat, Reads.Read)>) returns (abs: seq<Spec.Abs>)
    requires g.Valid() && Run(g, run) && run[|run| - 1].pc == Ready && Encodes(g, run[|run| - 1].disk, files, judge)
    requires AllInside(files, run[|run| - 1].mem.index) && Replayed(files, judge, run[|run| - 1].mem.index, range, out)
    ensures StandsFor(g, run, abs) && ReplaysContents(Spec.Contents(abs[|run| - 1]), range, out)
  {
    var ws := RunWitnessed(g, run);
    WitnessesStand(g, run, ws);
    EndReplays(g, run, ws, files, judge, range, out);
    abs := AbsOf(ws);
  }

  lemma EndReplays(g: Geometry, run: seq<State>, ws: seq<Witness>, files: Files, judge: Judge, range: Range, out: seq<(nat, Reads.Read)>)
    requires Witnessed(g, run, ws) && run[|run| - 1].pc == Ready && Encodes(g, run[|run| - 1].disk, files, judge)
    requires AllInside(files, run[|run| - 1].mem.index) && Replayed(files, judge, run[|run| - 1].mem.index, range, out)
    ensures ReplaysContents(Spec.Contents(ws[|run| - 1].abs), range, out)
  {
    assert InvAt(g, run, ws, |run| - 1);
    ReplayIsRight(g, run[|run| - 1], ws[|run| - 1], files, judge, range, out);
  }
}
