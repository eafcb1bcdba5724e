/** Whole-block transfers over a file whose reads and writes may stop short anywhere, and which
    refuses a request that misses one of its alignments. */
module BlockFile {

  const U64_LIMIT: nat := 0x1_0000_0000_0000_0000

  datatype Error = InvalidInput | UnexpectedEof | WriteZero | InvalidData | Io
  datatype Result<T> = Ok(value: T) | Err(error: Error)

  function Pow2(k: nat): (r: nat)
    ensures r > 0
  {
    if k == 0 then 1 else 2 * Pow2(k - 1)
  }

  /** The file's alignments, as powers of two. */
  datatype Constraints = Constraints(memoryBits: nat, offsetBits: nat, lengthBits: nat) {
    function Memory(): nat { Pow2(memoryBits) }
    function Offset(): nat { Pow2(offsetBits) }
    function Length(): nat { Pow2(lengthBits) }

    function StepBits(): nat {
      var m := if offsetBits > lengthBits then offsetBits else lengthBits;
      if m > memoryBits then m else memoryBits
    }

    /** The largest of the three alignments; a multiple of it is a multiple of each. */
    function Step(): nat { Pow2(StepBits()) }

    /** Whether the file takes a request at this offset, of this length, to or from this address. */
    predicate Allows(offset: nat, length: nat, address: nat) {
      offset % Offset() == 0 && length % Length() == 0 && address % Memory() == 0
    }
  }

  lemma MulGrows(a: nat, b: nat, d: nat)
    requires a <= b
    ensures a * d <= b * d
  {
  }

  lemma Distributes(a: int, b: int, d: int)
    ensures (a + b) * d == a * d + b * d && (a - b) * d == a * d - b * d
  {
  }

  lemma ModUnique(x: nat, d: nat, q: nat, r: nat)
    requires d > 0 && x == q * d + r && r < d
    ensures x % d == r
  {
    var k := x / d;
    assert x == k * d + x % d;
    if q < k { MulGrows(q + 1, k, d); Distributes(q, 1, d); }
    else if k < q { MulGrows(k + 1, q, d); Distributes(k, 1, d); }
  }

  lemma MultipleOf(q: nat, d: nat)
    requires d > 0
    ensures (q * d) % d == 0
  {
    ModUnique(q * d, d, q, 0);
  }

  lemma Quotient(x: nat, d: nat) returns (q: nat)
    requires d > 0 && x % d == 0
    ensures x == q * d
  {
    q := x / d;
  }

  lemma Associates(n: int, q: int, d: int)
    ensures n * (q * d) == (n * q) * d
  {
  }

  lemma MultipleTimes(x: nat, d: nat, n: nat)
    requires d > 0 && x % d == 0
    ensures (n * x) % d == 0
  {
    var q := Quotient(x, d);
    Associates(n, q, d);
    MultipleOf(n * q, d);
  }

  lemma MultipleSum(x: nat, y: nat, d: nat)
    requires d > 0 && x % d == 0 && y % d == 0
    ensures (x + y) % d == 0
  {
    var p := Quotient(x, d);
    var q := Quotient(y, d);
    Distributes(p, q, d);
    MultipleOf(p + q, d);
  }

  lemma MultipleLess(x: nat, y: nat, d: nat)
    requires d > 0 && x % d == 0 && y % d == 0 && y <= x
    ensures (x - y) % d == 0
  {
    var p := Quotient(x, d);
    var q := Quotient(y, d);
    Distributes(p, q, d);
    if p < q { MulGrows(p + 1, q, d); Distributes(p, 1, d); } else { MultipleOf(p - q, d); }
  }

  lemma {:induction false} Pow2Divides(i: nat, j: nat)
    requires i <= j
    ensures Pow2(j) % Pow2(i) == 0
  {
    if i == j {
      MultipleOf(1, Pow2(i));
    } else {
      Pow2Divides(i, j - 1);
      MultipleTimes(Pow2(j - 1), Pow2(i), 2);
    }
  }

  lemma MultipleThrough(x: nat, m: nat, d: nat)
    requires d > 0 && m > 0 && x % m == 0 && m % d == 0
    ensures x % d == 0
  {
    var q := Quotient(x, m);
    MultipleTimes(m, d, q);
  }

  /** A multiple of the step is what all three alignments divide. */
  lemma StepIsCommon(c: Constraints, x: nat)
    ensures x % c.Step() == 0 <==> x % c.Memory() == 0 && x % c.Offset() == 0 && x % c.Length() == 0
  {
    Pow2Divides(c.memoryBits, c.StepBits());
    Pow2Divides(c.offsetBits, c.StepBits());
    Pow2Divides(c.lengthBits, c.StepBits());
    if x % c.Step() == 0 {
      MultipleThrough(x, c.Step(), c.Memory());
      MultipleThrough(x, c.Step(), c.Offset());
      MultipleThrough(x, c.Step(), c.Length());
    }
  }

  /** A byte count rounded down to the step. */
  function AlignDown(step: nat, done: nat): (r: nat)
    requires step > 0
    ensures r <= done < r + step
    decreases done
  {
    if done < step then 0 else step + AlignDown(step, done - step)
  }

  lemma {:induction false} AlignDownIsMultiple(step: nat, done: nat)
    requires step > 0
    ensures AlignDown(step, done) % step == 0
    decreases done
  {
    if done >= step {
      AlignDownIsMultiple(step, done - step);
      MultipleOf(1, step);
      MultipleSum(step, AlignDown(step, done - step), step);
    }
  }

  // ---- the file ----

  type Byte = nat

  /** Whether a file's bytes become `after` when `data` is written at an offset; a gap past the end
      reads as zeros. */
  predicate Wrote(before: seq<Byte>, at: nat, data: seq<Byte>, after: seq<Byte>) {
    if data == [] then after == before
    else
      && |after| == (if |before| > at + |data| then |before| else at + |data|)
      && forall i | 0 <= i < |after| ::
           after[i] == if at <= i < at + |data| then data[i - at] else if i < |before| then before[i] else 0
  }

  function Put(bytes: seq<Byte>, at: nat, data: seq<Byte>): (r: seq<Byte>)
    ensures Wrote(bytes, at, data, r)
  {
    if data == [] then bytes
    else
      var n := if |bytes| > at + |data| then |bytes| else at + |data|;
      seq(n, i requires 0 <= i < n => if at <= i < at + |data| then data[i - at] else if i < |bytes| then bytes[i] else 0)
  }

  /** Writing again what was written, and some more, is one longer write. */
  lemma WroteMore(bytes: seq<Byte>, at: nat, buf: seq<Byte>, done: nat, from: nat, reached: nat, mid: seq<Byte>, r: seq<Byte>)
    requires from <= done <= |buf| && from <= reached <= |buf|
    requires Wrote(bytes, at, buf[..done], mid) && Wrote(mid, at + from, buf[from..reached], r)
    ensures Wrote(bytes, at, buf[..if reached > done then reached else done], r)
  {
  }

  /** However far a transfer gets. */
  method AtMost(n: nat) returns (moved: nat)
    ensures moved <= n
  {
    moved := *;
    if moved > n { moved := n; }
  }

  /** A request to the file: how far it got, or that it failed. */
  datatype Call = Moved(offset: nat, length: nat, count: nat) | Failed(offset: nat, length: nat)

  /** How far a transfer is after a call made with `done` bytes behind it. */
  function Reached(step: nat, done: nat, c: Call): nat
    requires step > 0
  {
    if c.Moved? then AlignDown(step, done) + c.count else done
  }

  /** How far a transfer is after its calls. */
  function Frontier(step: nat, calls: seq<Call>): nat
    requires step > 0
  {
    if calls == [] then 0 else Reached(step, Frontier(step, calls[..|calls| - 1]), calls[|calls| - 1])
  }

  /** With `done` bytes behind it a transfer asks for all the rest from the boundary below. */
  predicate Asks(step: nat, start: nat, length: nat, done: nat, c: Call)
    requires step > 0
  {
    done < length && c.offset == start + AlignDown(step, done) && c.length == length - AlignDown(step, done)
  }

  /** Calls that each asked for the rest and got past what was done. */
  predicate Advances(step: nat, start: nat, length: nat, calls: seq<Call>)
    requires step > 0
  {
    calls == [] ||
    (var n := |calls| - 1; var done := Frontier(step, calls[..n]);
     Advances(step, start, length, calls[..n]) && Asks(step, start, length, done, calls[n]) && calls[n].Moved?
     && done < Reached(step, done, calls[n]) <= length)
  }

  /** A transfer that is over: every byte moved, or its last call failed or stalled. */
  predicate Ends(step: nat, start: nat, length: nat, calls: seq<Call>, r: Result<()>, stall: Call -> Error)
    requires step > 0
  {
    if r.Ok? then Advances(step, start, length, calls) && Frontier(step, calls) == length
    else
      && calls != []
      && (var n := |calls| - 1; var done := Frontier(step, calls[..n]);
          && Advances(step, start, length, calls[..n]) && Asks(step, start, length, done, calls[n])
          && (if calls[n].Failed? then r.error == Io
              else Reached(step, done, calls[n]) <= done && r.error == stall(calls[n])))
  }

  lemma Advance(step: nat, start: nat, length: nat, calls: seq<Call>, c: Call)
    requires step > 0 && Advances(step, start, length, calls) && Asks(step, start, length, Frontier(step, calls), c)
    ensures (calls + [c])[..|calls + [c]| - 1] == calls
    ensures Frontier(step, calls + [c]) == Reached(step, Frontier(step, calls), c)
    ensures c.Moved? && Frontier(step, calls) < Reached(step, Frontier(step, calls), c) <= length ==> Advances(step, start, length, calls + [c])
  {
    assert (calls + [c])[..|calls + [c]| - 1] == calls;
  }

  /** A transfer makes at most one call for each byte. */
  lemma {:induction false} CallsAreFew(step: nat, start: nat, length: nat, calls: seq<Call>)
    requires step > 0 && Advances(step, start, length, calls)
    ensures |calls| <= Frontier(step, calls) && (calls != [] ==> Frontier(step, calls) <= length)
    decreases |calls|
  {
    if calls != [] { CallsAreFew(step, start, length, calls[..|calls| - 1]); }
  }

  /** Whether a call moved a whole step, or all it was asked for. */
  predicate Steady(step: nat, c: Call) { c.Moved? && (c.count >= step || c.count == c.length) }

  /** A transfer is given up only at a call that failed or moved less than a step: a file whose
      short transfers stop no finer is read and written whole. */
  lemma GivesUpOnUnsteady(step: nat, start: nat, length: nat, calls: seq<Call>, r: Result<()>, stall: Call -> Error)
    requires step > 0 && Ends(step, start, length, calls, r, stall)
    ensures r.Err? ==> calls != [] && !Steady(step, calls[|calls| - 1])
    ensures (forall i | 0 <= i < |calls| :: Steady(step, calls[i])) ==> r.Ok?
  {
  }

  class File {
    var bytes: seq<Byte>
    const constraints: Constraints
    ghost var calls: seq<Call>

    constructor (c: Constraints, initial: seq<Byte>)
      ensures constraints == c && bytes == initial && calls == []
    {
      constraints, bytes, calls := c, initial, [];
    }

    /** A read that may stop anywhere, or fail. */
    method ReadAt(offset: nat, buf: array<Byte>, from: nat, address: nat) returns (r: Result<nat>)
      requires from <= buf.Length && constraints.Allows(offset, buf.Length - from, address + from)
      modifies buf, `calls
      ensures calls == old(calls) + [if r.Ok? then Moved(offset, buf.Length - from, r.value) else Failed(offset, buf.Length - from)]
      ensures r.Err? ==> r.error == Io
      ensures r.Ok? ==> r.value <= buf.Length - from && (r.value > 0 ==> offset + r.value <= |bytes|)
      ensures r.Ok? ==> forall i | 0 <= i < buf.Length ::
                buf[i] == if from <= i < from + r.value then bytes[offset + (i - from)] else old(buf[i])
    {
      var moved := AtMost(buf.Length - from);
      var fails: bool := *;
      if fails {
        calls := calls + [Failed(offset, buf.Length - from)];
        return Err(Io);
      }
      if offset + moved > |bytes| { moved := if offset < |bytes| then |bytes| - offset else 0; }
      forall i | from <= i < from + moved { buf[i] := bytes[offset + (i - from)]; }
      calls := calls + [Moved(offset, buf.Length - from, moved)];
      r := Ok(moved);
    }

    /** A write that may stop anywhere, or fail on the way. */
    method WriteAt(offset: nat, buf: array<Byte>, from: nat, address: nat, ghost data: seq<Byte>) returns (moved: nat, fails: bool)
      requires buf[..] == data && from <= buf.Length && constraints.Allows(offset, buf.Length - from, address + from)
      modifies `bytes, `calls
      ensures calls == old(calls) + [if fails then Failed(offset, buf.Length - from) else Moved(offset, buf.Length - from, moved)]
      ensures moved <= buf.Length - from && Wrote(old(bytes), offset, data[from..from + moved], bytes)
    {
      moved := AtMost(buf.Length - from);
      fails := *;
      assert buf[from..from + moved] == data[from..from + moved];
      bytes := Put(bytes, offset, buf[from..from + moved]);
      calls := calls + [if fails then Failed(offset, buf.Length - from) else Moved(offset, buf.Length - from, moved)];
    }
  }

  // ---- blocks ----

  class Blocks {
    const file: File
    const blockSize: nat
    const step: nat

    ghost predicate Valid() {
      && blockSize > 0 && step == file.constraints.Step()
      && blockSize % file.constraints.Offset() == 0 && blockSize % file.constraints.Length() == 0
    }

    constructor Wrap(f: File, size: nat)
      requires Accepts(f.constraints, size)
      ensures Valid() && file == f && blockSize == size
    {
      file, blockSize, step := f, size, f.constraints.Step();
    }

    /** Where a whole-block range starts, or why it is not one. */
    function Range(block: nat, length: nat): (r: Result<nat>)
      requires Valid()
      ensures r.Ok? <==> length > 0 && length % blockSize == 0 && block * blockSize + length < U64_LIMIT
      ensures r.Ok? ==> r.value == block * blockSize
    {
      if length == 0 || length % blockSize != 0 then Err(InvalidInput)
      else if block * blockSize >= U64_LIMIT then Err(InvalidInput)
      else if block * blockSize + length >= U64_LIMIT then Err(InvalidInput)
      else Ok(block * blockSize)
    }

    /** A range of whole blocks, in a buffer at an address the file takes. */
    ghost predicate Takes(block: nat, length: nat, address: nat)
      requires Valid()
    {
      Range(block, length).Ok? && address % file.constraints.Memory() == 0
    }

    /** A transfer the file takes. */
    ghost predicate Transfer(start: nat, length: nat, address: nat) {
      && Valid() && start % file.constraints.Offset() == 0 && length % file.constraints.Length() == 0
      && address % file.constraints.Memory() == 0
    }

    lemma Ranges(block: nat, length: nat, address: nat)
      requires Valid() && length % blockSize == 0 && address % file.constraints.Memory() == 0
      ensures Transfer(block * blockSize, length, address)
    {
      MultipleTimes(blockSize, file.constraints.Offset(), block);
      MultipleThrough(length, blockSize, file.constraints.Length());
    }

    /** Every request of a transfer is one the file takes, wherever the last one stopped. */
    lemma Resumes(start: nat, length: nat, address: nat, done: nat)
      requires Transfer(start, length, address) && done <= length
      ensures var from := AlignDown(step, done); file.constraints.Allows(start + from, length - from, address + from)
    {
      var c, from := file.constraints, AlignDown(step, done);
      AlignDownIsMultiple(step, done);
      Pow2Divides(c.offsetBits, c.StepBits());
      Pow2Divides(c.lengthBits, c.StepBits());
      Pow2Divides(c.memoryBits, c.StepBits());
      MultipleThrough(from, step, c.Offset());
      MultipleThrough(from, step, c.Length());
      MultipleThrough(from, step, c.Memory());
      MultipleSum(start, from, c.Offset());
      MultipleLess(length, from, c.Length());
      MultipleSum(address, from, c.Memory());
    }

    /** Where a transfer resumes: the last boundary at or below what is done. */
    method Boundary(start: nat, length: nat, address: nat, done: nat) returns (from: nat)
      requires Transfer(start, length, address) && done <= length
      ensures from == AlignDown(step, done) && from <= done < from + step
      ensures file.constraints.Allows(start + from, length - from, address + from)
    {
      Resumes(start, length, address, done);
      from := AlignDown(step, done);
    }

    /** The buffer's first `n` bytes are the file's from `start` on. */
    ghost predicate Filled(start: nat, buf: array<Byte>, n: nat)
      reads buf, file
    {
      n <= buf.Length && (n > 0 ==> start + n <= |file.bytes|) && forall i | 0 <= i < n :: buf[i] == file.bytes[start + i]
    }

    /** One request for the rest, from what is done, rounded down to the step. */
    method ReadOn(start: nat, buf: array<Byte>, address: nat, done: nat) returns (r: Result<nat>)
      requires Transfer(start, buf.Length, address) && done < buf.Length && Filled(start, buf, done)
      modifies buf, file`calls
      ensures r.Ok? ==> Filled(start, buf, done) && (r.value > done ==> Filled(start, buf, r.value))
      ensures r.Err? ==> r.error == Io
      ensures |file.calls| == |old(file.calls)| + 1 && file.calls[..|old(file.calls)|] == old(file.calls)
      ensures var c := file.calls[|old(file.calls)|];
              Asks(step, start, buf.Length, done, c) && c.Moved? == r.Ok? && (r.Ok? ==> r.value == Reached(step, done, c))
    {
      var from := Boundary(start, buf.Length, address, done);
      var moved := file.ReadAt(start + from, buf, from, address);
      if moved.Err? { return Err(Io); }
      r := Ok(from + moved.value);
    }

    /** The calls since `before`. */
    ghost function Since(before: seq<Call>): seq<Call>
      reads file
    {
      if |before| <= |file.calls| then file.calls[|before|..] else []
    }

    /** Why a read stalls: it ran into the end of the file, or the file moved less than a step. */
    function ReadStall(start: nat, length: nat): Error
      reads file
    {
      if |file.bytes| >= start + length then InvalidData else UnexpectedEof
    }

    /** The read loop. */
    method ReadFrom(start: nat, buf: array<Byte>, address: nat) returns (r: Result<()>)
      requires Transfer(start, buf.Length, address) && buf.Length > 0
      modifies buf, file`calls
      ensures r.Ok? ==> Filled(start, buf, buf.Length)
      ensures old(file.calls) <= file.calls
      ensures var e := ReadStall(start, buf.Length); Ends(step, start, buf.Length, Since(old(file.calls)), r, _ => e)
    {
      ghost var before := file.calls;
      var done := 0;
      assert Since(before) == [];
      while done < buf.Length
        invariant Filled(start, buf, done) && before <= file.calls
        invariant Advances(step, start, buf.Length, Since(before)) && Frontier(step, Since(before)) == done
        decreases buf.Length - done
      {
        ghost var calls := Since(before);
        var reached := ReadOn(start, buf, address, done);
        ghost var c := file.calls[|file.calls| - 1];
        assert Since(before) == calls + [c];
        Advance(step, start, buf.Length, calls, c);
        if reached.Err? { return Err(reached.error); }
        if reached.value <= done { return Err(ReadStall(start, buf.Length)); }
        done := reached.value;
      }
      r := Ok(());
    }

    /** Fill the buffer from the file, or say why not: the file ends inside the range, its short
        reads stop finer than its alignment, or it failed. */
    method ReadBlocks(block: nat, buf: array<Byte>, address: nat) returns (r: Result<()>)
      requires Valid()
      modifies buf, file`calls
      ensures old(file.calls) <= file.calls
      ensures !Takes(block, buf.Length, address) ==> r == Err(InvalidInput) && file.calls == old(file.calls)
      ensures Takes(block, buf.Length, address) && r.Ok? ==> Filled(Range(block, buf.Length).value, buf, buf.Length)
      ensures Takes(block, buf.Length, address) ==>
                var start := Range(block, buf.Length).value; var e := ReadStall(start, buf.Length);
                Ends(step, start, buf.Length, Since(old(file.calls)), r, _ => e)
    {
      var range := Range(block, buf.Length);
      if range.Err? { return Err(range.error); }
      if address % file.constraints.Memory() != 0 { return Err(InvalidInput); }
      Ranges(block, buf.Length, address);
      r := ReadFrom(range.value, buf, address);
    }

    /** One request from a boundary at or below what is done: rewriting the bytes in between changes
        nothing. */
    method WriteRest(start: nat, buf: array<Byte>, address: nat, done: nat, from: nat, ghost before: seq<Byte>, ghost data: seq<Byte>)
      returns (moved: nat, fails: bool)
      requires buf[..] == data && from <= done < buf.Length && file.constraints.Allows(start + from, buf.Length - from, address + from)
      requires Wrote(before, start, data[..done], file.bytes)
      modifies file`bytes, file`calls
      ensures moved <= buf.Length - from
      ensures Wrote(before, start, data[..if from + moved > done then from + moved else done], file.bytes)
      ensures file.calls == old(file.calls) + [if fails then Failed(start + from, buf.Length - from) else Moved(start + from, buf.Length - from, moved)]
    {
      moved, fails := file.WriteAt(start + from, buf, from, address, data);
      WroteMore(before, start, data, done, from, from + moved, old(file.bytes), file.bytes);
    }

    /** One request for the rest, and how far the transfer is after it. */
    method WriteOn(start: nat, buf: array<Byte>, address: nat, done: nat, ghost before: seq<Byte>, ghost data: seq<Byte>)
      returns (r: Result<nat>, ghost n: nat)
      requires buf[..] == data && Transfer(start, buf.Length, address) && done < buf.Length && Wrote(before, start, data[..done], file.bytes)
      modifies file`bytes, file`calls
      ensures n <= buf.Length && Wrote(before, start, data[..n], file.bytes) && (r.Ok? ==> done < r.value == n)
      ensures |file.calls| == |old(file.calls)| + 1 && file.calls[..|old(file.calls)|] == old(file.calls)
      ensures var c := file.calls[|old(file.calls)|];
              && Asks(step, start, buf.Length, done, c)
              && (if r.Ok? then c.Moved? && r.value == Reached(step, done, c)
                  else if c.Failed? then r.error == Io else Reached(step, done, c) <= done && r.error == WriteStall(c))
    {
      var from := Boundary(start, buf.Length, address, done);
      var moved, fails := WriteRest(start, buf, address, done, from, before, data);
      n := if from + moved > done then from + moved else done;
      if fails { return Err(Io), n; }
      if moved == 0 { return Err(WriteZero), n; }
      if from + moved <= done { return Err(InvalidData), n; }
      r := Ok(from + moved);
    }

    /** The write loop. */
    method WriteFrom(start: nat, buf: array<Byte>, address: nat) returns (r: Result<()>)
      requires Transfer(start, buf.Length, address) && buf.Length > 0
      modifies file`bytes, file`calls
      ensures r.Ok? ==> Wrote(old(file.bytes), start, buf[..], file.bytes)
      ensures r.Err? ==> exists n | 0 <= n <= buf.Length :: Wrote(old(file.bytes), start, buf[..n], file.bytes)
      ensures old(file.calls) <= file.calls && Ends(step, start, buf.Length, Since(old(file.calls)), r, WriteStall)
    {
      ghost var before, earlier, data := file.bytes, file.calls, buf[..];
      var done := 0;
      assert Since(earlier) == [];
      while done < buf.Length
        invariant buf[..] == data && done <= buf.Length && Wrote(before, start, data[..done], file.bytes) && earlier <= file.calls
        invariant Advances(step, start, buf.Length, Since(earlier)) && Frontier(step, Since(earlier)) == done
        decreases buf.Length - done
      {
        ghost var calls := Since(earlier);
        var reached, n := WriteOn(start, buf, address, done, before, data);
        ghost var c := file.calls[|file.calls| - 1];
        assert Since(earlier) == calls + [c];
        Advance(step, start, buf.Length, calls, c);
        if reached.Err? {
          assert buf[..n] == data[..n];
          return Err(reached.error);
        }
        done := reached.value;
      }
      assert data[..done] == data;
      r := Ok(());
    }

    /** Write the whole buffer: on success the file is as after one write of all of it. */
    method WriteBlocks(block: nat, buf: array<Byte>, address: nat) returns (r: Result<()>)
      requires Valid()
      modifies file`bytes, file`calls
      ensures old(file.calls) <= file.calls
      ensures !Takes(block, buf.Length, address) ==>
                r == Err(InvalidInput) && file.bytes == old(file.bytes) && file.calls == old(file.calls)
      ensures Takes(block, buf.Length, address) && r.Ok? ==>
                Wrote(old(file.bytes), Range(block, buf.Length).value, buf[..], file.bytes)
      ensures Takes(block, buf.Length, address) && r.Err? ==>
                exists n | 0 <= n <= buf.Length :: Wrote(old(file.bytes), Range(block, buf.Length).value, buf[..n], file.bytes)
      ensures Takes(block, buf.Length, address) ==>
                Ends(step, Range(block, buf.Length).value, buf.Length, Since(old(file.calls)), r, WriteStall)
    {
      var range := Range(block, buf.Length);
      if range.Err? { return Err(range.error); }
      if address % file.constraints.Memory() != 0 { return Err(InvalidInput); }
      Ranges(block, buf.Length, address);
      r := WriteFrom(range.value, buf, address);
    }
  }

  /** Why a write stalls: nothing was written, or it stopped finer than a step. */
  function WriteStall(c: Call): Error { if c.Moved? && c.count == 0 then WriteZero else InvalidData }

  /** The block sizes a file can honour. */
  predicate Accepts(c: Constraints, size: nat) { size > 0 && size % c.Length() == 0 && size % c.Offset() == 0 }

  method New(f: File, size: nat) returns (r: Result<Blocks>)
    ensures r.Ok? <==> Accepts(f.constraints, size)
    ensures r.Ok? ==> r.value.Valid() && r.value.file == f && r.value.blockSize == size
    ensures r.Err? ==> r.error == InvalidInput
  {
    if size == 0 { return Err(InvalidInput); }
    if size % f.constraints.Length() != 0 { return Err(InvalidInput); }
    if size % f.constraints.Offset() != 0 { return Err(InvalidInput); }
    var b := new Blocks.Wrap(f, size);
    r := Ok(b);
  }
}
