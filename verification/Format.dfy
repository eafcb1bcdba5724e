/** The journal's on-disk arithmetic: blocks, records, entry footprints, the segment
    geometry and the batch numbers that carry their open generation. */
module Format {

  const BLOCK: nat := 4096
  const RECORD_SIZE: nat := 64
  const MAX_BATCH_RECORDS: nat := 65535
  const PERSIST_START: nat := 8192

  /** Batches of one open generation: the low bits of a batch number. */
  const PER_GENERATION: nat := 0x100_0000_0000

  const U32_LIMIT: nat := 0x1_0000_0000
  const U64_LIMIT: nat := 0x1_0000_0000_0000_0000

  function AlignToBlock(value: nat): (r: nat)
    ensures value <= r < value + 4096 && r % 4096 == 0
  {
    (value + 4095) / 4096 * 4096
  }

  /** How far an entry moves the entry cursor. */
  function Footprint(len: nat): (r: nat)
    ensures 64 + len <= r < 72 + len && r % 8 == 0
  {
    (64 + len + 7) / 8 * 8
  }

  /** How many blocks of records one batch uses up. */
  function BlocksFor(count: nat): (r: nat)
    ensures 64 * r >= count && (count > 0 ==> r > 0 && 64 * (r - 1) < count)
  {
    AlignToBlock(count * 64) / 4096
  }

  /** The slots of the persist log those blocks hold. */
  function Span(count: nat): (r: nat)
    ensures count <= r < count + 64 && r % 64 == 0
  {
    BlocksFor(count) * 64
  }

  datatype Geometry = Geometry(persistBlocks: nat, gapBlocks: nat, entryBlocks: nat) {
    function TotalBlocks(): nat { 2 + persistBlocks + gapBlocks + entryBlocks }

    predicate Valid() {
      persistBlocks >= 1 && entryBlocks >= 1 && TotalBlocks() * 4096 < U32_LIMIT
    }

    function Slots(): nat { persistBlocks * 64 }
    function PersistEnd(): nat { PERSIST_START + persistBlocks * 4096 }
    function EntryStart(): nat { PersistEnd() + gapBlocks * 4096 }
    function EntryEnd(): nat { EntryStart() + entryBlocks * 4096 }
  }

  /** A segment file is its two headers, the persist log, the gap and the entry log, one after the other
      and nothing else. */
  lemma Layout(g: Geometry)
    ensures PERSIST_START == 2 * BLOCK && g.PersistEnd() == (2 + g.persistBlocks) * BLOCK
    ensures g.EntryStart() == (2 + g.persistBlocks + g.gapBlocks) * BLOCK && g.EntryEnd() == g.TotalBlocks() * BLOCK
    ensures g.Slots() * RECORD_SIZE == g.persistBlocks * BLOCK
  {
  }

  // ---- batch numbers ----

  function GenerationOf(batch: nat): nat { batch / PER_GENERATION }

  /** `(generation << 40) + 1` in a `u64`: the shift drops the bits that leave the word. */
  function FirstBatchOf(generation: nat): nat {
    (generation * PER_GENERATION) % U64_LIMIT + 1
  }

  /** The number the next batch takes, from the last one in the log. */
  function NextBatch(generation: nat, last: nat): nat {
    if GenerationOf(last) == generation then last + 1 else FirstBatchOf(generation)
  }

  /** A generation's batches are numbered from one on, above its bits. */
  lemma FirstBatchIs(generation: nat)
    requires generation < 0x100_0000
    ensures FirstBatchOf(generation) == generation * 0x100_0000_0000 + 1 && GenerationOf(FirstBatchOf(generation)) == generation
  {
    assert generation * PER_GENERATION < U64_LIMIT;
  }

  /** Generations number their batches apart exactly while they fit the 24 high bits: below
      that, a first batch exceeds every batch of every earlier generation; from there on
      the shifted generation wraps. */
  lemma GenerationsStayApart(generation: nat)
    requires 1 <= generation < U32_LIMIT
    ensures generation < 0x100_0000
            <==> forall batch: nat | GenerationOf(batch) < generation :: batch < FirstBatchOf(generation)
  {
    if generation < 0x100_0000 {
      assert generation * PER_GENERATION < U64_LIMIT;
      assert FirstBatchOf(generation) == generation * PER_GENERATION + 1;
      forall batch: nat | GenerationOf(batch) < generation ensures batch < FirstBatchOf(generation) {
        assert batch < (batch / PER_GENERATION + 1) * PER_GENERATION;
      }
    } else {
      var batch := generation * PER_GENERATION - 1;
      assert GenerationOf(batch) < generation;
      assert batch >= FirstBatchOf(generation);
    }
  }

  /** The next batch exceeds the last one and everything of an earlier generation, while the
      generation and its batches fit their bits. */
  lemma NextBatchGrows(generation: nat, last: nat, batch: nat)
    requires 1 <= generation < 0x100_0000 && GenerationOf(last) <= generation
    requires batch <= last || GenerationOf(batch) < generation
    ensures batch < NextBatch(generation, last)
  {
    GenerationsStayApart(generation);
    assert GenerationOf(batch) < generation ==> batch < FirstBatchOf(generation);
    assert GenerationOf(last) < generation ==> last < FirstBatchOf(generation);
  }

  /** No number is skipped: of the generation's numbers after the last batch it is the least. */
  lemma NextBatchIsLeast(generation: nat, last: nat, n: nat)
    requires 1 <= generation < 0x100_0000 && GenerationOf(last) <= generation
    requires n > last && n / 0x100_0000_0000 == generation && n % 0x100_0000_0000 != 0
    ensures last < NextBatch(generation, last) <= n
  {
    NextBatchGrows(generation, last, last);
    FirstBatchIs(generation);
  }
}
