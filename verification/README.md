# moonpool, modelled and proved

This project models the parts of moonpool whose correctness is hardest to see
from the code, and proves what they promise:

- the **CLSTORE journal** (`moonpool-journal`): its commit protocol, its recovery
  scan, its recycled segments and its in-memory index, as a machine of durable
  steps with a crash possible between, and inside, any two of them;
- the **claim table** shared between processes (`moonpool-assertions`), as
  interleaved atomic steps of claimants that may stop for good anywhere;
- **replication needs** (`moonpool-buggify`): evaluating a need and enumerating the
  minimal sets of replicas that satisfy it;
- the **exploration controller**, its bounded discovery journal and recipe replay
  (`moonpool-explorer`);
- **block transfers** over a file that moves fewer bytes than asked
  (`moonpool-core`).

`dafny verify dfyconfig.toml` verifies all of it.

## How the journal is modelled

`Format` holds the geometry and the numbering; `Recover` the recovery scan as
functions over a segment's cells, and `RecoverLoops` its loops, proved equal to
them. A record slot or an entry is intact, absent or damaged, and a damaged cell
never decodes. `Runs` is the step machine: one step per durable write of `commit`
and `open`, and a crash step that leaves each cell in flight old, new or damaged.
`Spec` is what a caller may rely on: a log of operations with a floor and a
metainfo, at most one commit in flight, and the outcomes a crash may give that
commit (any of its writes if batched, a prefix of them if ordered, its metainfo
only with all of them).

The proof goes from cells to runs:

1. `Log`, `Verdict`: if the segments hold a log of batches, the scan finds it.
2. `Writes`, `Tail`: torn writes of the batch in flight keep the log before it,
   and what recovery keeps of that batch is again a batch.
3. `Invariant`: what relates disk, memory and the abstract state, for each place
   in the protocol. `DiskSteps` and `MemSteps` change its parts; `Begin`,
   `RollSteps`, `PutSteps`, `CommitSteps`, `CrashSteps`, `ScanSteps` and
   `OpenSteps` show that every step and every crash keeps it.
4. `Reads`, `Refinement`, `Guarantees`: every run refines a run of the abstract
   log, and what follows for callers.
5. `Numbering`: batch numbers only grow along a run, those no longer on disk
   included. `Damage`, `Scars`, `Ambiguity`, `CutExample`: what the scan of a run's
   disk may report as damaged, and exactly when a cut ordered commit leaves nothing
   to report.
6. `Effects`, `Admission`, `Upkeep`: what a commit does to each position, which
   batches are taken, when a segment is rolled, removed or kept, and what the
   metainfo names, all in terms of a caller's writes and of the disk.
7. `Evidence`, `Refusals`: the scan of any disk whatever, by what its cells show:
   which logs it accepts, and which refusal it gives to every other disk. `Faults`
   and `Media`: what it finds of a log whose medium lost cells.

`MetaFile`, `Batches`, `LiveIndex` and `ReplayReads` are the journal's mutable
objects and loops on their own: the two metainfo copies, the batch builder, the
index with its live counts, and coalesced replay.

## What turned out false

- *One ready entry per identity in the claim table* does not hold: a claimant that
  took an index does not show until it stores initializing, and a rescan that passes
  it in that window lets both publish. `ClaimUnique.OverlapIsNotUnique` gives the
  schedule. `ClaimUnique.CarefulIsUnique` proves that nothing else can break it: it
  holds under every schedule in which no rescan passes a lower claimant of its
  identity in that window. `ClaimUnique.UniqueExactlyWhenSmall` says that all schedules
  keep it exactly when the table has fewer than two entries. What does hold for all
  schedules: indices are handed out once, ready entries never change, and claimants
  never all give up.
- *A claim of an identity that has a ready entry gets one* does not hold either: a
  claimant of a lower index, still initializing, may be what the search meets first,
  and then the claim is told to come back. `ClaimFinds.CanBeBusy` gives a schedule;
  `ClaimFinds.BusyExactly` says that this can happen exactly when such a claimant is
  at work when the claim begins. Otherwise it gets the entry, and in no case does it
  take an index or hear that the table is full.
- *A cut ordered commit leaves nothing ambiguous* does not hold when the last batch
  on disk is one that a crash cut under batched durability:
  `CutExample.OrderedCutCanBeAmbiguous` is such a run. It holds exactly when the disk
  the commit begins on scans without an ambiguous entry: `Ambiguity.OrderedCutIsClean`.
  The commit itself adds none: `Ambiguity.OrderedCutAddsNone`.
- *A generation's batches come after all earlier ones* holds exactly below
  generation 2^24, where the shift starts to wrap: `Format.GenerationsStayApart`.
- A comment in `BlockFile::new` (`crates/moonpool-core/src/block.rs:132-136`) says
  that the block size is a multiple of the transfer step. The code checks the length
  and offset alignments only, and the step may be the coarser memory alignment; the
  model follows the code, and `BlockFile.Blocks.Resumes` shows that every request is
  aligned all the same.

## Model

| member | source | states |
|---|---|---|
| Refinement.RunRefines | crates/moonpool-journal/src/journal.rs:426-539 | Over every run of accepted commits, crashes at any point (inside open included) and opens, there is a run of an abstract log that it stands for step by step: open never refuses; a commit that returned took effect whole; a crash changes nothing by itself; the next open settles the commit that was in flight; and every read of an open journal returns what the abstract log holds |
| Refinement.NextKeeps | crates/moonpool-journal/src/journal.rs:879-979 | Any one step or crash from a state of the invariant leads to a state of the invariant, and the abstract step it stands for is the one its place in the protocol says |
| Refinement.InitInv | crates/moonpool-journal/src/journal.rs:364-414 | A journal just created satisfies the invariant and stands for the empty log with its first metainfo |
| Guarantees.HistoryGrows | crates/moonpool-journal/src/lib.rs:185-204 | Along every run what took effect stays in effect, in its order: the earlier history is a prefix of every later one |
| Guarantees.FloorGrows | crates/moonpool-journal/src/journal.rs:904-937 | Along every run the floor only rises, and a commit in flight never carries a lower one, whatever crashes do to it |
| Guarantees.CommitLasts | crates/moonpool-journal/src/journal.rs:930-979 | The writes of a commit that returned are in the history of every later state of the run, whatever crashes follow |
| Effects.CommitShows | crates/moonpool-journal/src/journal.rs:879-979 | Over every run: once a commit returned, the floor is at least the old one and the one asked for and equals one of them, the metainfo is the batch's or else the old one, nothing is left below that floor, and every position at or above it holds what the last write of the batch that touches it says, or what it held before |
| Effects.OrderedCutShows | crates/moonpool-journal/src/journal.rs:1363-1395 | An ordered commit that a crash cut, once an open settled it: exactly a prefix of its writes took effect, and its floor and metainfo only with all of them |
| Effects.BatchedCutShows | crates/moonpool-journal/src/journal.rs:1396-1407 | A batched one: some of its writes took effect, in their order, and its floor and metainfo only with all of them and none soft |
| Effects.ContentsAre | crates/moonpool-journal/src/journal.rs:762-803 | A position can be read exactly when it is not below the floor and the last operation of the history that touches it is a put, and then it holds that put's value |
| Effects.BegunTakes | crates/moonpool-journal/src/journal.rs:883-921 | Whichever way a step that begins a commit is read, its abstract commit is the caller's batch |
| Refinement.Begins | crates/moonpool-journal/src/journal.rs:879-921 | Every accepted batch begins in the invariant, with the abstract commit its caller asked for |
| Admission.Check | crates/moonpool-journal/src/journal.rs:883-903 | The checks of a commit pass exactly for a batch with no put below either floor, a metainfo of at most 4012 bytes and writes that one empty segment holds; a refusal names the first of these that fails, and the first put below the floor |
| Admission.TakenExactly | crates/moonpool-journal/src/journal.rs:879-979 | An open journal takes a batch exactly when it passes those checks and changes something |
| Admission.FitsIsRoomy | crates/moonpool-journal/src/batch.rs:103-125 | A batch fits exactly when it has at most 65535 writes, each payload's length fits 32 bits, and the records and the entries fit the two logs of one segment |
| Admission.RollsExactly | crates/moonpool-journal/src/journal.rs:1101-1166 | Over every run, a commit takes a new segment exactly when its records or its entries do not fit what is left of the active one |
| Guarantees.RunGoesOn | crates/moonpool-journal/src/journal.rs:426-539 | At the end of any run the journal was not refused, and unless it waits for a caller (or has used up its open generations) a step of commit or open is enabled |
| Numbering.NumbersGrow | crates/moonpool-journal/src/journal.rs:1008-1014 | Along every run, a batch that was begun with writes took a number below that of every commit begun later, whatever became of it: aborted, cut, overwritten, its segment deleted or recycled, opens and crashes in between included. (A commit without writes plans a number but writes none, and the next one may plan it again) |
| Numbering.NextKnows | crates/moonpool-journal/src/journal.rs:339-357 | Every step, write, crash and open keeps a number known as used: each readable metainfo copy has at least its generation, and an open journal is past it |
| Numbering.RunNumbers | crates/moonpool-journal/src/format.rs:449-461 | At the end of any run the number the next batch takes exceeds every batch number in every record, entry and segment header on disk and in the spare's cells |
| Guarantees.RunScansClean | crates/moonpool-journal/src/recover.rs:284-320 | However a run crashed, the scan of the next open succeeds, reports nothing corrupt, and finds a last batch at least the one the metainfo names |
| Ambiguity.RunReports | crates/moonpool-journal/src/recover.rs:333-409 | Whatever a run did, the scan of its next open calls nothing corrupt, and what it calls ambiguous is a put of a batched commit that a crash cut, in the history or in flight |
| Ambiguity.OrderedReports | crates/moonpool-journal/src/recover.rs:375-409 | So with an ordered commit in flight, or none, every ambiguous position is an earlier soft put of the history; with no soft put in it there is none |
| Ambiguity.OrderedCutIsClean | crates/moonpool-journal/src/recover.rs:375-409 | An ordered commit begun after any run: every way to cut it, with any crashes of the opens after it, leaves a disk on which the scan finds nothing corrupt or ambiguous, if and only if the disk it begins on scans without an ambiguous entry |
| Ambiguity.OrderedCutAddsNone | crates/moonpool-journal/src/journal.rs:1363-1395 | Until a cut ordered commit is settled, no scan calls anything corrupt, nor anything ambiguous unless a scan before the commit did |
| CutExample.OrderedCutCanBeAmbiguous | crates/moonpool-journal/src/recover.rs:333-358 | A run on a valid geometry in which an ordered commit is cut and the scan reports position 5 as ambiguous: a batched commit, cut before, is still the last batch |
| Damage.ScanNames | crates/moonpool-journal/src/recover.rs:359-409 | On any disk the scan accepts, the corrupt list is exactly the damaged puts of ordered commits among the applied operations, the ambiguous list exactly those of batched ones |
| Damage.AmbiguousMayBe | crates/moonpool-journal/src/recover.rs:333-358 | On a disk of the invariant each of these was put by a batched commit that a crash cut |
| Scars.ScanScars | crates/moonpool-journal/src/recover.rs:333-409 | With no batch in flight on disk, the scan reports something ambiguous exactly when a live put of the log's last batch has lost its entry |
| Scars.TornEntriesApart | crates/moonpool-journal/src/journal.rs:1326-1338 | Torn entries of a batch in flight touch no entry of the batch before it |
| Guarantees.RunVouches | crates/moonpool-journal/src/journal.rs:904-937 | Whatever a run leaves on disk, a metainfo copy is readable, and a scan by each readable one succeeds and finds a last batch at least the one it names. That copy is the one in force in the abstract run, or that of the commit in flight, and then the scan finds every write of that commit undamaged at the end of the log |
| Guarantees.FlightIsFound | crates/moonpool-journal/src/journal.rs:1353-1418 | Once the writes of a commit are durable, what the scan finds ends with exactly them |
| Guarantees.RunInOrder | crates/moonpool-journal/src/journal.rs:1252-1276 | Two asserts of the journal about itself hold in every open state: no index entry lies below the floor, and the segments come in the order of their numbers |
| Guarantees.NeverStuck | crates/moonpool-journal/src/journal.rs:879-979 | In every state of the invariant that waits for no caller, some step of commit or open is enabled |
| Upkeep.RunIsSwept | crates/moonpool-journal/src/journal.rs:1231-1250 | Whenever a run leaves the journal open, the front segment holds a value that can be read, or it is the only one |
| Upkeep.RemovedIsKept | crates/moonpool-journal/src/journal.rs:1231-1250 | A removed segment's file is kept as the spare, cells and all, unless there is one already, which then stays |
| Upkeep.KeepsFirstFree | crates/moonpool-journal/src/journal.rs:290-324 | Open keeps exactly the first spare that is no second name of a listed segment, and none only when every spare may be one |
| Upkeep.PickedFirstFree | crates/moonpool-journal/src/journal.rs:290-324 | The step of open that chooses the spare changes nothing else on disk |
| Upkeep.OpenNamesLast | crates/moonpool-journal/src/journal.rs:339-357 | Over every run, the metainfo an open installs is of the next generation, names the last batch that open found as its last and as the end of earlier generations, and keeps floor and bytes |
| Upkeep.CommitNamesLast | crates/moonpool-journal/src/journal.rs:904-914 | A commit's metainfo names the last batch that a scan of the disk it begins on finds |
| Reads.ReadIsRight | crates/moonpool-journal/src/journal.rs:762-803 | In every reachable open state a read of any position returns exactly the cell the abstract log holds, or nothing when it holds none; only a cell of a cut batched commit may read as damaged; and the segment an index entry names is open |
| Begin.BeginPut | crates/moonpool-journal/src/journal.rs:1101-1166 | An accepted batch with room in the active segment starts there: the disk invariant holds with the batch in flight, and the abstract commit is the caller's: its writes as they are, the higher of the floor in force and the one asked for, its metainfo or else the one in force, and no put below that floor |
| Begin.PlacedFits | crates/moonpool-journal/src/journal.rs:1326-1338 | A batch whose summed footprint fits the remaining room is well placed: records inside the persist log, entries inside the entry log |
| Begin.BeginMeta | crates/moonpool-journal/src/journal.rs:1168-1178 | A commit of a floor or metainfo alone starts in the invariant, with that same abstract commit |
| Begin.BeginRoll | crates/moonpool-journal/src/journal.rs:1101-1166 | So does a batch that needs a new segment, before any file is touched |
| Begin.PlanIsNew | crates/moonpool-journal/src/journal.rs:1008-1014 | A planned batch's number exceeds everything on disk, spares' old cells included |
| RollSteps.Create | crates/moonpool-journal/src/segment.rs:83-127 | A roll to a new file keeps the invariant: the new segment is linked to the last batch and takes the batch in flight |
| RollSteps.Adopt | crates/moonpool-journal/src/segment.rs:129-160 | Writing a spare's headers keeps the invariant, whatever its cells still hold |
| RollSteps.Rename | crates/moonpool-journal/src/segment.rs:160-174 | Renaming the spare to its segment keeps the invariant: every old cell in it is older than its first batch, so none is evidence |
| PutSteps.Entries | crates/moonpool-journal/src/journal.rs:1363-1380 | The durable write of an ordered batch's entries keeps the invariant |
| PutSteps.Records | crates/moonpool-journal/src/journal.rs:1380-1395 | Then the durable write of its records does, and every write of the batch is on disk |
| PutSteps.Both | crates/moonpool-journal/src/journal.rs:1396-1407 | The single sync of a batched commit keeps the invariant, and from there on the batch is as firm as an ordered one |
| CommitSteps.WriteMetaA | crates/moonpool-journal/src/meta.rs:170-173 | The first metainfo copy of a commit keeps the invariant: it is written only with the whole batch on disk |
| CommitSteps.WriteMetaB | crates/moonpool-journal/src/journal.rs:937-979 | The second copy makes the commit take effect: history, floor and metainfo are the abstract commit's, and memory follows the log |
| CommitSteps.NoMeta | crates/moonpool-journal/src/journal.rs:937-979 | The same for a commit that changes no metainfo |
| CommitSteps.Remove | crates/moonpool-journal/src/journal.rs:1231-1250 | Removing a dead front segment keeps the invariant and the abstract state |
| CrashSteps.CrashPuts | crates/moonpool-journal/src/journal.rs:1353-1418 | A crash while entries, records or both are written, each cell old, new or damaged, leaves a disk that stands for the same abstract state |
| CrashSteps.CrashMetas | crates/moonpool-journal/src/meta.rs:156-173 | So does a crash in either metainfo copy, in a commit or in a repair |
| CrashSteps.CrashRename | crates/moonpool-journal/src/spare.rs:24-31 | So does a crash around the rename of the spare, also when it leaves a second name |
| CrashSteps.CrashSweep | crates/moonpool-journal/src/journal.rs:1231-1250 | So does a crash while a dead front segment is removed |
| CrashSteps.CrashRoll | crates/moonpool-journal/src/segment.rs:129-160 | A crash while a spare's two headers are written, each old, new or torn, leaves a disk that stands for the same abstract state. With no spare the disk is unchanged: a file under creation has a temporary name that the next open deletes |
| CrashSteps.CrashPick | crates/moonpool-journal/src/journal.rs:290-324 | So does one while open discards all spares but one |
| OpenSteps.Open | crates/moonpool-journal/src/meta.rs:82-127 | Choosing the metainfo keeps the invariant: after any run a copy is readable, so open is not refused here |
| OpenSteps.Repair | crates/moonpool-journal/src/meta.rs:90-105 | Repairing the stale copy keeps the invariant |
| OpenSteps.KeptSpare | crates/moonpool-journal/src/journal.rs:290-324 | The one spare that open keeps is a file of its own, never a second name of a listed segment |
| OpenSteps.Scans | crates/moonpool-journal/src/journal.rs:470-492 | The scan step keeps the invariant and the abstract state, and never refuses |
| OpenSteps.WritesBack | crates/moonpool-journal/src/journal.rs:488-500 | Writing back the last batch's records keeps the invariant and leaves that batch whole on disk |
| OpenSteps.CrashWriteBack | crates/moonpool-journal/src/journal.rs:488-500 | A crash in the write-back, record by record, leaves a disk that stands for the same abstract state |
| OpenSteps.StartsGeneration | crates/moonpool-journal/src/journal.rs:339-357 | The new generation's metainfo vouches for the whole log and makes everything beyond it stale for good |
| OpenSteps.Opens | crates/moonpool-journal/src/journal.rs:504-539 | The open journal holds the history plus what the crash kept of the commit in flight: any of a batched one, a prefix of an ordered one, its metainfo only with all of it |
| OpenSteps.RecoveredIs | crates/moonpool-journal/src/recover.rs:341-409 | What recovery makes of the batch in flight is one of the outcomes a crash of that commit may have |
| OpenSteps.Pick | crates/moonpool-journal/src/journal.rs:290-324 | Choosing the spare keeps the invariant |
| OpenSteps.CrashGenerationA | crates/moonpool-journal/src/journal.rs:339-357 | A crash in the first copy of the new generation's metainfo leaves a disk that stands for the same abstract state |
| OpenSteps.CrashGenerationB | crates/moonpool-journal/src/journal.rs:339-357 | So does one in the second copy |
| ScanSteps.ScanFindsLog | crates/moonpool-journal/src/recover.rs:284-320 | On any disk of the invariant the scan returns the operations of the durable batches and of what it keeps of the batch in flight, their last number, the places of the next batches, and a rewrite exactly when a record of the last batch is missing |
| ScanSteps.KeptMerged | crates/moonpool-journal/src/recover.rs:341-358 | What recovery keeps of a durable batch is all of it |
| DiskSteps.UnusedFrontDrops | crates/moonpool-journal/src/journal.rs:1223-1250 | When nothing above the floor lives in the front segment, folding the operations of the remaining segments gives the same index above the floor as folding all of them |
| DiskSteps.FrontDrops | crates/moonpool-journal/src/journal.rs:1231-1250 | A disk whose front segment is unused above the floor satisfies the invariant without it, with the same abstract state |
| MemSteps.BatchSurvivors | crates/moonpool-journal/src/recover.rs:341-409 | What a batch in the log applies is exactly the caller's writes that recovery kept, in order, marked soft when the batch is not firm |
| MemSteps.ReflectsMore | crates/moonpool-journal/src/journal.rs:1186-1229 | Folding a batch's operations into the index and dropping what is below the floor gives what the whole log gives above that floor |
| Verdict.ScanAllFinds | crates/moonpool-journal/src/recover.rs:284-320 | For any log of coherent batches, the last one possibly torn, both passes succeed, apply exactly the surviving operations, and report damage only in a soft last batch |
| Verdict.JudgeBatchApplies | crates/moonpool-journal/src/recover.rs:323-419 | One batch's verdicts: its surviving operations in order, nothing corrupt, and its extent rewritten with its kept records exactly when it is last and a record is missing |
| Log.ScanFinds | crates/moonpool-journal/src/recover.rs:169-281 | Pass 1 finds exactly the batches a segment holds, slot by slot, and where the next one goes |
| Log.ShapeIs | crates/moonpool-journal/src/recover.rs:192-222 | A batch with any cell left is located at its boundary: by its first evident record, or by its first entry when no record is left |
| Log.ScanEnds | crates/moonpool-journal/src/recover.rs:192-222 | After the last batch the scan ends there, whatever older batches the file still holds |
| Log.Grounded | crates/moonpool-journal/src/recover.rs:201 | A record that is evidence sits at or after its index from the batch boundary, so the subtraction cannot go below it |
| Evidence.ShapeMeans | crates/moonpool-journal/src/recover.rs:192-227 | At a boundary of any disk there is a batch exactly when its records or its first entry locate one, the end exactly when no later record and no first entry counts, and in every other case a batch is lost |
| Evidence.ScanSegmentIs | crates/moonpool-journal/src/recover.rs:169-281 | On any disk pass 1 over a segment returns the batches it holds, each slot by its record or its entry, and refuses exactly when they cannot be told to a point from which nothing counts |
| Evidence.NothingLeftBehind | crates/moonpool-journal/src/recover.rs:192-227 | If pass 1 accepts a segment, every record in it that decodes, is no older than the segment and was not declared absent lies in a batch it found, so none is left where the next batch goes |
| Evidence.ScanSegmentLoses | crates/moonpool-journal/src/recover.rs:223-268 | A refusal of a segment names the batch that is gone: the one after the last it could tell, or one that does not fit |
| Refusals.PassOne | crates/moonpool-journal/src/recover.rs:284-301 | Pass 1 over any segments succeeds exactly when each can be told and names the last batch found before it |
| Refusals.PassOneLoses | crates/moonpool-journal/src/recover.rs:284-301 | A refusal of pass 1 names the batch missing at the first link that does not hold, or in the first segment that cannot be told |
| Refusals.PassTwo | crates/moonpool-journal/src/recover.rs:323-419 | Pass 2 refuses exactly when both cells of a write before the last batch are lost, and names the first such write |
| Refusals.ScanAllIs | crates/moonpool-journal/src/recover.rs:284-320 | The scan of any disk: accepted exactly for a linked log with no such hole, and then it ends where that log ends; each refusal is the one that log, or its absence, calls for |
| Refusals.OpenGoesOnExactly | crates/moonpool-journal/src/journal.rs:470-492 | From any state and on any disk, an open goes on after its scan exactly when the segments hold such a log and it reaches the batch the metainfo names; otherwise it names that batch, or what the scan named |
| Refusals.OpenLeavesNothing | crates/moonpool-journal/src/journal.rs:470-492 | So an open that goes on has found every record that counts, in every segment |
| Refusals.BatchTallies | crates/moonpool-journal/src/recover.rs:323-419 | A judged batch reports how many of its records were rebuilt and how many of its writes were lost |
| Faults.HurtHolds | crates/moonpool-journal/src/recover.rs:133-281 | A segment that lost any cells still holds its log: what is left says nothing else |
| Faults.DamageNeverLies | crates/moonpool-journal/src/lib.rs:185-204 | Whatever cells a committed log lost: if the scan succeeds, it found the log's own batches from the first on, every write it found is as it was written, and one is missing only in the last batch it found |
| Faults.NothingLost | crates/moonpool-journal/src/journal.rs:470-492 | If it also reaches the log's last batch, no batch is missing |
| Media.RunNeverLies | crates/moonpool-journal/src/lib.rs:185-204 | The same of the disk that any run leaves open with no write discarded |
| Tail.KeptKeeps | crates/moonpool-journal/src/recover.rs:235-268 | What recovery keeps of a batch in flight is again a batch of the segment; of an ordered one it is an intact prefix, and a batch with every record on disk is kept whole |
| Tail.JoinsLog | crates/moonpool-journal/src/journal.rs:937-950 | A batch with every record durable joins the log |
| Tail.EntriesKeep | crates/moonpool-journal/src/journal.rs:1363-1380 | Torn writes of entries keep the segment's invariant, before any record of an ordered batch exists |
| Tail.RecordsKeep | crates/moonpool-journal/src/journal.rs:1380-1395 | Torn writes of records keep it, and of an ordered batch what would be kept stays an intact prefix |
| Tail.MadeFirm | crates/moonpool-journal/src/journal.rs:1396-1407 | A batched commit with every entry durable may be treated as an ordered one |
| Writes.TornEntriesHold | crates/moonpool-journal/src/journal.rs:1363-1407 | Entries of the batch in flight, written whole or torn, leave every earlier batch of the segment as it was |
| Writes.TornRecordsHold | crates/moonpool-journal/src/journal.rs:1363-1407 | So do its records |
| Writes.InvisibleDrops | crates/moonpool-journal/src/recover.rs:192-222 | A batch of which no record and no first entry is left is no batch: the log ends before it |
| Writes.KeptHolds | crates/moonpool-journal/src/recover.rs:235-268 | With the torn slots of its last batch discarded a segment still holds a log |
| Redundancy.RecordsAreRedundant | crates/moonpool-journal/src/recover.rs:133-281 | For a log of committed batches with every entry intact, damaging any set of records, even all, leaves the recovered operations, the last batch and the cursors unchanged |
| Redundancy.RecycledScansLikeNew | crates/moonpool-journal/src/recover.rs:156-222 | Scanning a recycled segment gives what scanning a zero-filled one with the same new cells gives, whatever older batches the file holds |
| Redundancy.RecycledIsLikeNew | crates/moonpool-journal/src/recover.rs:156-419 | On any disk, both passes give exactly what they give when every segment is zero-filled but for its own batches' cells: whatever older batches a recycled file holds, nothing of the scan changes |
| Redundancy.RecycledJudgesLikeNew | crates/moonpool-journal/src/recover.rs:323-419 | Judging one scanned batch reads only cells of the segment's own batches |
| Recover.Rebuild | crates/moonpool-journal/src/recover.rs:133-146 | The record rebuilt from an entry is one that entry matches, at its offset |
| RecoverLoops.FindBatch | crates/moonpool-journal/src/recover.rs:235-268 | The slot loop of one batch computes the specified slots and end of entries |
| RecoverLoops.RunScanSegment | crates/moonpool-journal/src/recover.rs:169-281 | On any disk the batch loop of one segment returns exactly the batches the segment holds, up to a point from which no record and no first entry counts, and refuses exactly when there is no telling them to such a point |
| RecoverLoops.JudgeInto | crates/moonpool-journal/src/recover.rs:359-409 | One slot's verdict is added to the lists as specified |
| RecoverLoops.RunJudgeBatch | crates/moonpool-journal/src/recover.rs:323-419 | The verdict loop of one batch computes the specified verdicts, a double fault before the last batch included |
| RecoverLoops.RunScanAll | crates/moonpool-journal/src/recover.rs:284-320 | On any disk both passes succeed exactly when the segments hold a linked log with no write lost before its last batch |
| RecoverLoops.RunScanSegments | crates/moonpool-journal/src/recover.rs:284-301 | The loop over the segments computes the specified pass 1, each segment linked to the last batch found before it |
| Ops.FoldSuffix | crates/moonpool-journal/src/journal.rs:1186-1203 | A position folded over a log holds what a suffix of it says, or else a put of the part before |
| Ops.FoldAbove | crates/moonpool-journal/src/journal.rs:1214-1222 | Only what is above the floor decides what later operations leave above a floor at least as high |
| Ops.LastDecides | crates/moonpool-journal/src/journal.rs:1186-1203 | Folding operations into any index: the last one that touches a position, by a put there or a clear from at most it to beyond it, decides what it holds; a position that none touches stays |
| Ops.LastWriter | crates/moonpool-journal/src/journal.rs:1186-1203 | So a position is in a log's index exactly when the last operation that touches it is a put, and holds that put's value |
| Format.GenerationsStayApart | crates/moonpool-journal/src/format.rs:449-461 | A generation's first batch exceeds every batch of every earlier generation exactly while the generation is below 2^24; from there on the shift wraps |
| Format.NextBatchGrows | crates/moonpool-journal/src/journal.rs:1008-1014 | The next batch number exceeds the last one and every number of an earlier generation |
| Format.NextBatchIsLeast | crates/moonpool-journal/src/journal.rs:1008-1014 | No number is skipped: the next batch takes the least number of its generation after the last one |
| Format.FirstBatchIs | crates/moonpool-journal/src/format.rs:449-461 | Below generation 2^24 a generation's batches start one above its number shifted by 40 bits |
| Format.Layout | crates/moonpool-journal/src/format.rs:161-177 | The two headers, the records, the gap and the entries follow each other in whole blocks, 64 records to a block |
| Format.BlocksFor | crates/moonpool-journal/src/format.rs:355-359 | The blocks of a batch hold all its records and not a block more |
| Format.Footprint | crates/moonpool-journal/src/format.rs:391-394 | An entry's footprint covers header and payload, padded to 8 by less than 8 |
| MetaFile.File.Update | crates/moonpool-journal/src/meta.rs:170-173 | An update completes exactly when both writes do, and then both copies hold the new value; cut anywhere, one copy is readable, each readable copy is the old or the new value, and copy B is not touched before copy A is durable |
| MetaFile.File.Open | crates/moonpool-journal/src/meta.rs:82-105 | After any updates, torn writes and opens, an open finds the value of the last completed update or of the one in flight, never neither; it completes exactly when no repair is needed or the repair becomes durable, and then both copies agree |
| MetaFile.File.Choose | crates/moonpool-journal/src/meta.rs:110-127 | Refused exactly when both copies are lost or two readable copies of one sequence number differ; otherwise the value is a readable copy none is newer than, and the copy to repair is the other one, none when they agree. After any updates, cuts and opens it is the value in force or in flight |
| MetaFile.ChoosesOne | crates/moonpool-journal/src/meta.rs:110-127 | The chosen copy is the value in force or in flight, no readable copy is newer, and the other one is the copy to repair |
| MetaFile.File.constructor | crates/moonpool-journal/src/meta.rs:50-77 | Both copies hold the first value |
| Batches.Builder.Clear | crates/moonpool-journal/src/batch.rs:53-61 | On any contents the batch now means what it meant before without the positions from start to before end, an empty or reversed range removing nothing |
| Batches.Builder.TruncatePrefix | crates/moonpool-journal/src/batch.rs:66-69 | The floor is only raised |
| Batches.Builder.FitsWith | crates/moonpool-journal/src/batch.rs:103-125 | The summing loop decides exactly whether the batch, with one more put if asked, fits one empty segment, and its sum stays within 64 bits |
| Batches.Builder.FitsAnother | crates/moonpool-journal/src/batch.rs:99-101 | It answers for the batch with that put appended, whatever its position, identity and bytes |
| Batches.RunPrepares | crates/moonpool-journal/src/journal.rs:1008-1097 | For every commit accepted after any run the asserts and conversions of prepare hold: its number is above the last, the records fit 16 bits, each length and each entry's offset in the buffer fit 32, and the padded buffers fit one empty segment |
| Batches.RunLands | crates/moonpool-journal/src/journal.rs:1326-1338 | Whenever a run is writing a batch, that batch starts on a block in both logs, lies inside its segment with its padding, all offsets within 32 bits, and on no block of the headers or of a record or live entry of an earlier batch |
| Batches.InFlightLands | crates/moonpool-journal/src/journal.rs:1101-1166 | The same of every state of the invariant |
| Batches.FitsByLength | crates/moonpool-journal/src/batch.rs:95-101 | Only the length of one more payload decides whether it fits |
| Batches.Builder.Put | crates/moonpool-journal/src/batch.rs:42-49 | On any contents the batch now means what it meant before with this value at its position |
| Batches.MeantIs | crates/moonpool-journal/src/batch.rs:42-61 | What a batch means for a position: what its last write that touches it says, or what the position held before |
| LiveIndex.Index.SegmentIndex | crates/moonpool-journal/src/journal.rs:1180-1184 | The binary search finds the open segment an entry lies in |
| LiveIndex.Index.Apply | crates/moonpool-journal/src/journal.rs:1186-1203 | A put sets its position, a clear removes exactly the positions from its start to before its end, and each segment's live count stays the number of index entries in it |
| LiveIndex.Index.Release | crates/moonpool-journal/src/journal.rs:1205-1212 | Exactly the released entry's segment counts one less; its count was positive |
| LiveIndex.Index.DropBelowFloor | crates/moonpool-journal/src/journal.rs:1214-1222 | Exactly the positions below the floor go, counts included |
| LiveIndex.Index.RemoveDeadSegments | crates/moonpool-journal/src/journal.rs:1231-1250 | Only leading segments without an index entry go, never the last one, and the loop stops at the first live one |
| LiveIndex.LiveCoversIndex | crates/moonpool-journal/src/journal.rs:1252-1260 | The live counts sum to the size of the index |
| LiveIndex.Index.AddSegment | crates/moonpool-journal/src/journal.rs:1140-1166 | A new segment starts with nothing live |
| LiveIndex.Index.Insert | crates/moonpool-journal/src/journal.rs:1186-1195 | A put replaces the position's entry; both segments' counts follow, also when they are one |
| LiveIndex.Index.Remove | crates/moonpool-journal/src/journal.rs:1196-1212 | A removed position is counted out of its segment |
| LiveIndex.Index.RemoveAll | crates/moonpool-journal/src/journal.rs:1196-1222 | Exactly the given positions go, counts included |
| LiveIndex.FrontDrops | crates/moonpool-journal/src/journal.rs:1231-1250 | A front segment with count zero owns no entry, and the counts stay right without it |
| ReplayReads.ReadBlocks | crates/moonpool-journal/src/io.rs:41-64 | A block read is the file's blocks with zeros for those the medium fails, whether the transfer went through at once or block by block |
| ReplayReads.ReadBytes | crates/moonpool-journal/src/io.rs:82-103 | Bytes read through a window of whole blocks are the bytes at that offset |
| ReplayReads.RunFrom | crates/moonpool-journal/src/journal.rs:834-853 | A run stays in one segment, holds no damaged entry, covers each entry's bytes and stays within the read limit unless it is a single entry; it goes on over gaps of at most 256 KiB while it spans at most 1 MiB, and stops at the first entry for which it cannot |
| ReplayReads.PositionsIn | crates/moonpool-journal/src/journal.rs:814-833 | The positions of an index in a range, each once and in order |
| ReplayReads.Replay | crates/moonpool-journal/src/journal.rs:814-866 | For every index and range, coalesced replay returns each indexed position of the range once, in order, exactly as a read of it alone would, and no other |
| ReplayReads.ReplayIsRight | crates/moonpool-journal/src/journal.rs:762-866 | In an open journal of the invariant, a replay of a range is the abstract contents of that range in order; only a soft cell may come back damaged |
| ReplayReads.RunReplays | crates/moonpool-journal/src/journal.rs:762-866 | So after any run that ends open |
| ReplayReads.RunInside | crates/moonpool-journal/src/journal.rs:834-853 | At the end of such a run every indexed entry lies inside its segment's file, which is all that replay asks for |
| Claims.ExecKeeps | crates/moonpool-assertions/src/table.rs:165-229 | Under every schedule of atomic steps, any claimant stopping for good anywhere, the table keeps its invariant: entries agree with the fate of their index, and a claimant that gave its index up yields to one published or lower |
| Claims.Takes | crates/moonpool-assertions/src/table.rs:196-201 | The fetch-and-add hands out the first index not handed out before, and over-counts are given back only when the table is full |
| Claims.DoKeeps | crates/moonpool-assertions/src/table.rs:138-229 | Each atomic step of any claimant keeps the table's invariant |
| ClaimRuns.IndexIsNew | crates/moonpool-assertions/src/table.rs:196-201 | Under every schedule, an index handed out was never handed out before |
| ClaimRuns.IndexHeldOnce | crates/moonpool-assertions/src/table.rs:196-229 | No two claimants ever hold the same index |
| ClaimRuns.ReadyStays | crates/moonpool-assertions/src/table.rs:225-228 | A ready entry never changes again, whatever moves follow |
| ClaimRuns.EntryIsReady | crates/moonpool-assertions/src/table.rs:182-193 | The entry a claim returns is ready, filled and of the identity asked for |
| ClaimFinds.FindsExisting | crates/moonpool-assertions/src/table.rs:165-193 | Under every schedule, a claim that begins when an entry of its identity is ready takes no index and is never told the table is full; when it is over it has a ready entry of that identity, or is told to come back |
| ClaimFinds.GetsTheEntry | crates/moonpool-assertions/src/table.rs:165-193 | With no lower claimant of the identity at work when it begins, it can only end with the first ready entry |
| ClaimFinds.BusyExactly | crates/moonpool-assertions/src/table.rs:165-193 | Some schedule tells it to come back exactly when a lower claimant of its identity is at work, and not giving up, when it begins |
| ClaimFinds.CanBeBusy | crates/moonpool-assertions/src/table.rs:165-224 | A concrete schedule of that: entry 1 is ready, and a new claim of its identity is told to come back |
| ClaimRuns.FullIsFull | crates/moonpool-assertions/src/table.rs:196-201 | A claim is told the table is full only when every index has been handed out |
| ClaimRuns.BusyIsPatient | crates/moonpool-assertions/src/table.rs:138-163 | It is told to come back only by an entry still initializing after 4096 reads, or one given up that it had yielded to |
| ClaimRuns.SomeoneWins | crates/moonpool-assertions/src/table.rs:206-224 | Once every claimant of an identity that took an index has settled, one entry of that identity is ready |
| ClaimUnique.CarefulIsUnique | crates/moonpool-assertions/src/table.rs:194-224 | Under every schedule in which no rescan passes a lower claimant of its identity inside its window (index taken, initializing not yet stored), whatever else overlaps or stops, no identity ever has two ready entries |
| ClaimUnique.SerialIsCareful | crates/moonpool-assertions/src/table.rs:165-229 | Claims for one identity that do not overlap never meet that window, with every other interleaving allowed |
| ClaimUnique.DoCarefully | crates/moonpool-assertions/src/table.rs:203-224 | Each step that misses no claimant keeps it true that a winning or published claimant has passed every lower one of its identity, which gave up or is about to |
| ClaimUnique.OverlapIsNotUnique | crates/moonpool-assertions/src/table.rs:194-224 | Outside that condition two entries of one identity can be ready: a concrete schedule in any table of two or more |
| ClaimUnique.UniqueExactlyWhenSmall | crates/moonpool-assertions/src/table.rs:194-224 | Every schedule keeps one ready entry per identity exactly when the table holds fewer than two entries |
| Needs.HoldsGrows | crates/moonpool-buggify/src/shard.rs:103-116 | More available replicas never break a need |
| Needs.FromNext | crates/moonpool-buggify/src/shard.rs:222-229 | Advancing the last movable pick gives the next combination: none skipped, none repeated |
| Needs.HoldsLocally | crates/moonpool-buggify/src/shard.rs:103-116 | Only replicas the need names decide it |
| Needs.AllPicksComplete | crates/moonpool-buggify/src/shard.rs:211-231 | Every increasing choice of positions is listed |
| Needs.AllPicksIncrease | crates/moonpool-buggify/src/shard.rs:211-231 | Only increasing choices of the right size are |
| NeedSets.KSetInside | crates/moonpool-buggify/src/shard.rs:211-231 | Every admitted set with enough of the pool has a listed subset of exactly the size inside |
| NeedSets.SetsAreGood | crates/moonpool-buggify/src/shard.rs:162-207 | Cut or not, every listed set makes the need hold and consists of admitted replicas the need names |
| NeedSets.SetsCover | crates/moonpool-buggify/src/shard.rs:162-207 | If the cap cut nothing, every admitted set that makes the need hold has a listed one inside |
| NeedSets.SetsEmpty | crates/moonpool-buggify/src/shard.rs:137-141 | Nothing is listed exactly when the admitted replicas cannot make the need hold, cut or not |
| NeedSets.SetsExist | crates/moonpool-buggify/src/shard.rs:137-141 | A need that can hold lists a set even when the cap cuts |
| NeedLoops.RunHolds | crates/moonpool-buggify/src/shard.rs:103-116 | The evaluation answers whether the need holds on the admitted replicas it names, duplicates counted once |
| NeedLoops.Combinations | crates/moonpool-buggify/src/shard.rs:211-231 | The picks loop lists every subset of the size in lexicographic order, cut at the cap |
| NeedLoops.RunProduct | crates/moonpool-buggify/src/shard.rs:177-192 | The nested loop computes every union of a base and an option, cut at the cap |
| NeedLoops.RunSets | crates/moonpool-buggify/src/shard.rs:162-207 | The enumeration computes the specified list of sets, its early stops included |
| NeedLoops.LastMovable | crates/moonpool-buggify/src/shard.rs:219-224 | The search from the right finds the last pick that can move, or that none can |
| NeedLoops.Advance | crates/moonpool-buggify/src/shard.rs:225-229 | The pick moves by one and every later pick follows it |
| NeedLoops.RunAll | crates/moonpool-buggify/src/shard.rs:177-192 | The loop over all parts computes the specified products, stopping at an empty one |
| NeedLoops.RunAny | crates/moonpool-buggify/src/shard.rs:193-206 | The loop over alternatives computes the specified concatenation, stopping once the cap is reached |
| MinimalSets.Filter | crates/moonpool-buggify/src/shard.rs:146-150 | Filtering smallest first keeps sets of the list of which none lies inside another, and covers every listed set |
| MinimalSets.KeptAreMinimal | crates/moonpool-buggify/src/shard.rs:137-159 | If the cap cut nothing, the kept sets are exactly the inclusion-minimal admitted sets that make the need hold |
| MinimalSets.RunMinimalSets | crates/moonpool-buggify/src/shard.rs:137-159 | What the caller gets: sorted, at most the limit, each set satisfying, none inside another, empty exactly when the need cannot hold; and if the cap cut nothing, minimal sets only, a minimal set being absent only when the limit is reached and every returned set comes before it |
| MinimalSets.Sort | crates/moonpool-buggify/src/shard.rs:144-157 | Sorted, and a permutation of what was given |
| MinimalSets.FirstAreRight | crates/moonpool-buggify/src/shard.rs:151-159 | Cutting a sorted reduction at the limit keeps all of that |
| MinimalSets.ExactlyMinimal | crates/moonpool-buggify/src/shard.rs:137-159 | With neither the cap nor the limit reached, the sets returned are exactly the inclusion-minimal admitted sets that make the need hold |
| NeedCap.CapExactly | crates/moonpool-buggify/src/shard.rs:162-231 | The cap cuts something exactly when some list on the way exceeds 4096, told from binomials, products and sums of the admitted replicas; and uncut the enumeration lists exactly that many sets |
| Exploration.Explorer.constructor | crates/moonpool-explorer/src/controller.rs:251-283 | A new controller has every slot free and nothing counted |
| Exploration.Explorer.ObserveRootRun | crates/moonpool-explorer/src/controller.rs:314-317 | The root run counts as one; what it found is learned like any run, its failure not recorded as a find |
| Exploration.Explorer.Explore | crates/moonpool-explorer/src/controller.rs:327-358 | Exploration ends for every order in which workers do and whatever they report; on return every slot is free, the timelines counted equal the runs started, within the budget, and either the budget is spent or nothing is left to try. Over the log of all results: failures counted are the failing runs, discoveries the sum of theirs, and the recipes kept the first four non-empty ones of failing runs, in order |
| Exploration.Explorer.SpawnWorker | crates/moonpool-explorer/src/controller.rs:426-460 | A spawned worker owns the slot that was next and leaves all else but the high-water mark alone; a failed fork runs the job here and owns none; the accounts stay balanced |
| Exploration.Explorer.ReapOne | crates/moonpool-explorer/src/controller.rs:468-544 | Whichever worker ends, its slot is free again, its own job is what is learned from, and one worker fewer is live |
| Exploration.SlotsConserved | crates/moonpool-explorer/src/controller.rs:426-544 | A slot is not free exactly when a live worker owns it |
| Exploration.Explorer.Expand | crates/moonpool-explorer/src/controller.rs:570-593 | The states of a run are registered and the run expanded as specified, the anchor's state counting a visit |
| Exploration.Explorer.RegisterState | crates/moonpool-explorer/src/controller.rs:596-629 | The list of states and its index change as specified, the three cases included |
| Exploration.Explorer.ExpandFrom | crates/moonpool-explorer/src/controller.rs:632-643 | Children are appended until there are as many as the branching or the frontier is full, child n the base recipe and one breakpoint at the anchor with the seed derived for n from the base's last seed |
| Exploration.Explorer.PickState | crates/moonpool-explorer/src/controller.rs:648-681 | The picked state can grow and precedes every other one that can: fewest visits for its depth, then progress, then depth, then order; none is picked exactly when none can grow |
| Exploration.Explorer.ScheduleContinuations | crates/moonpool-explorer/src/controller.rs:648-702 | Either no state can grow and nothing changes, or the first state in order is visited and this round's exemplar of it fills the frontier with its children |
| Exploration.SelectAnchor | crates/moonpool-explorer/src/controller.rs:742-747 | The anchor is a discovery none is stronger than |
| Exploration.SlotTaken | crates/moonpool-explorer/src/controller.rs:430-456 | Giving a free slot to a new worker keeps every slot free or owned by exactly one |
| Exploration.SlotReturned | crates/moonpool-explorer/src/controller.rs:521-530 | So does taking it back |
| Exploration.Explorer.BeginSeed | crates/moonpool-explorer/src/controller.rs:297-307 | A new seed starts with empty accounts, frontier and states, and keeps the slots |
| Exploration.Explorer.ProcessResult | crates/moonpool-explorer/src/controller.rs:552-593 | One run's result counts once, with its discoveries and its failure, leaves exactly the children it should or none, and is logged; what is known stays within every bound |
| Exploration.Explorer.Rotate | crates/moonpool-explorer/src/controller.rs:682-694 | Exemplars that can grow take turns by round |
| Exploration.Explorer.RunInProcess | crates/moonpool-explorer/src/controller.rs:403-411 | A run without a worker is learned from at once and balances the accounts by itself |
| Exploration.Explorer.StartNext | crates/moonpool-explorer/src/controller.rs:336-350 | The oldest job of the frontier leaves it and starts, in a worker or here, and uses exactly one run of the budget |
| Exploration.Anchor | crates/moonpool-explorer/src/controller.rs:742-747 | The anchor is as strong as every discovery of the run and stronger than every later one |
| Exploration.RegisterAllMeans | crates/moonpool-explorer/src/controller.rs:570-580 | After registering a run's discoveries each one's state is tracked unless the table is full, and no state loses its place, visits or progress |
| Exploration.RegisterMeans | crates/moonpool-explorer/src/controller.rs:596-629 | Only the discovered state changes: its latest three exemplars now end with this run, its progress is kept or set, its visits and place stay; a new state is added exactly while there are fewer than 512 |
| Exploration.AddedIsLatest | crates/moonpool-explorer/src/controller.rs:610-629 | A state keeps its latest three exemplars; one more takes the place of the oldest |
| Exploration.AccountsOn | crates/moonpool-explorer/src/controller.rs:552-567 | One more result keeps the accounts those of the log of all results |
| Continuations.PickIsFair | crates/moonpool-explorer/src/controller.rs:648-681 | The state picked was visited less for its depth than every other that can grow, or no more and is ahead by progress, depth or order; and no other is ahead of it |
| Continuations.DeeperLasts | crates/moonpool-explorer/src/controller.rs:648-681 | While some state that can grow has not had its share of q rounds, one visit for each level of depth and one more, neither has the one picked |
| Continuations.EveryTurn | crates/moonpool-explorer/src/controller.rs:682-694 | Within as many rounds as a state has exemplars that can grow, each of them has its turn |
| Continuations.GrowableJoins | crates/moonpool-explorer/src/controller.rs:682-694 | The exemplars that can grow are picked out in their order |
| Exploration.LearnedMeans | crates/moonpool-explorer/src/controller.rs:552-593 | After one run: the timelines grow by one, the discoveries by its own; a failure that exploration found, and nothing else, counts and keeps its recipe if that is non-empty and fewer than four are kept; a barren or too deep run adds no job, a productive one as many children as fit at the last of its strongest discoveries, whose state alone is visited; and every discovered state is tracked unless the table is full |
| Discoveries.Journal.Record | crates/moonpool-explorer/src/journal.rs:109-136 | Recording coalesces by state, fills free room, or replaces the weakest, as specified |
| Discoveries.JournalHolds | crates/moonpool-explorer/src/journal.rs:24-31 | After any discoveries the journal holds one entry per state, each at its strongest, and once full it holds, up to ties, the strongest states |
| Discoveries.AnchorIsStrongest | crates/moonpool-explorer/src/controller.rs:742-747 | The anchor chosen from the bounded journal is as strong as any discovery of the run: an unbounded journal would give the same key |
| Discoveries.StrongerRanks | crates/moonpool-explorer/src/journal.rs:48-77 | Progress outranks new buckets and combinations, which outrank passes; within a rank the later draw is the stronger |
| Discoveries.FindState | crates/moonpool-explorer/src/journal.rs:109-120 | The first entry of a state, or that there is none |
| Discoveries.Weakest | crates/moonpool-explorer/src/journal.rs:121-136 | An entry none is weaker than |
| Replay.Rng.constructor | crates/moonpool-explorer/src/simulations.rs:39-43 | A reset generator has the seed, made nonzero, no draws and no breakpoints |
| Replay.Rng.Draw | crates/moonpool-explorer/src/simulations.rs:54-76 | A draw counts, passes every breakpoint it is beyond, and returns the next value, as specified |
| Replay.ReplayThenDiverge | crates/moonpool-explorer/src/simulations.rs:50-76 | A run whose breakpoints are consumed, replayed with its count and a new seed appended, draws every earlier value again and then exactly what the new seed draws |
| Replay.AfterExtended | crates/moonpool-explorer/src/simulations.rs:54-76 | A breakpoint at the end of a run changes no draw before it |
| Replay.ConsumedStays | crates/moonpool-explorer/src/simulations.rs:54-76 | Without breakpoints left the count only counts draws |
| Replay.DrawUndone | crates/moonpool-explorer/src/simulations.rs:68-76 | A draw can be undone: the value drawn determines the state before it |
| Replay.NeverZero | crates/moonpool-explorer/src/simulations.rs:33-76 | For every seed and recipe the generator is never at zero, where it would be stuck |
| Replay.StreamsNeverMeet | crates/moonpool-explorer/src/simulations.rs:54-76 | Two streams without breakpoints that began apart are apart after any number of draws |
| Replay.SameStreamExactly | crates/moonpool-explorer/src/simulations.rs:33-43 | Two seeds draw the same values exactly when they are equal, or one is 0 and the other 1 |
| BlockFile.New | crates/moonpool-core/src/block.rs:113-146 | A view is made exactly for positive block sizes that are multiples of the file's length and offset alignments |
| BlockFile.Blocks.Range | crates/moonpool-core/src/block.rs:605-624 | A range is accepted exactly when it is a non-zero number of blocks whose end fits 64 bits, and starts at its block |
| BlockFile.StepIsCommon | crates/moonpool-core/src/block.rs:132-146 | The transfer step is the least common alignment: its multiples are exactly what the memory, offset and length alignments all divide |
| BlockFile.Blocks.Resumes | crates/moonpool-core/src/block.rs:267-299 | Wherever a transfer stopped, the next request from the step boundary below meets the offset, length and memory alignment of the file |
| BlockFile.Blocks.ReadFrom | crates/moonpool-core/src/block.rs:267-299 | The read loop ends for every pattern of short reads; success means the buffer is exactly the file's bytes; every request asks for all the rest from the boundary below; and it fails only at a request that failed or did not get past what was done, the end of the file and a stall told apart |
| BlockFile.Blocks.ReadBlocks | crates/moonpool-core/src/block.rs:227-231 | A range or buffer the file cannot take is refused before any request; any other transfer fills the buffer exactly or fails as its last request says |
| BlockFile.Blocks.WriteFrom | crates/moonpool-core/src/block.rs:424-450 | The write loop ends for every pattern of short writes; success leaves the file as one write of the whole buffer would, a failure as one of a prefix; it fails only at a request that failed, wrote nothing or did not get past what was done |
| BlockFile.Blocks.WriteBlocks | crates/moonpool-core/src/block.rs:387-392 | A refused write makes no request and changes nothing; any other puts exactly the buffer, or a prefix of it, at its block |
| BlockFile.Blocks.Boundary | crates/moonpool-core/src/block.rs:267-299 | The boundary a transfer resumes from loses less than a step and meets all three alignments |
| BlockFile.Blocks.ReadOn | crates/moonpool-core/src/block.rs:267-299 | One request, however short, keeps what is filled and extends it |
| BlockFile.Blocks.WriteOn | crates/moonpool-core/src/block.rs:424-450 | One request, however short, extends what is written, or is classified as failed, empty or stalled |
| BlockFile.WroteMore | crates/moonpool-core/src/block.rs:424-450 | Writing again from below what is written gives one longer write |
| BlockFile.Blocks.WriteRest | crates/moonpool-core/src/block.rs:424-450 | Rewriting bytes already there changes nothing: after the request the file is as after one longer write |
| BlockFile.GivesUpOnUnsteady | crates/moonpool-core/src/block.rs:533-575 | A transfer is given up only at a request that failed or moved less than a step: a file whose short transfers stop no finer is always read and written whole |
| BlockFile.CallsAreFew | crates/moonpool-core/src/block.rs:267-299 | A transfer makes at most one request for each byte |

## Left out

- Journal creation as steps: a run starts from a journal just created. The meta file gets its name only once it is whole, so before that there is no journal.
- A process that dies without a power loss: unsynced writes that stay readable for a while, and the syncs with which `open` makes them durable, are not modelled. A crash settles every cell.
- A poisoned journal is a journal that is down: after a failed write only `open` goes on.
- CRC32C, FNV hashing, magic numbers, the journal tag and the byte codecs: a damaged cell never decodes, and no payload parses as an entry.
- Media that lose durable cells while a run goes on: the run machine has crash faults only. What the next scan makes of a disk that lost any cells is covered (`Refusals`, `Media.RunNeverLies`).
- Media.RunNeverLies: speaks of runs that end open with no write discarded; a last batch that an open cut short has cells of its own that were never whole.
- Media that are unreadable once and readable later.
- Numbers beyond 2^24 open generations or 2^40 batches in one of them: starting a generation and a batch are guarded by these bounds, which the format shares.
- Segment and spare names, directory listing and syncing: a rename is one step that a crash may leave with the old name, the new one or both.
- `State::Ambiguous` and `State::Corrupt` as values handed to the caller: the scan's two lists are modelled, and a damaged cell shows as a damaged read.
- Hints, buggify coins, layout publishing and regions: they do not change what is written.
- ReplayReads.Replay: does not model a provider error other than a medium's; such an error ends the replay without a result. File bytes are tied to cells by a given decoding.
- ClaimRuns.SomeoneWins: does not model weak memory below acquire and release, nor the two-word identity read in halves; the 32-bit count does not wrap.
- MinimalSets.RunMinimalSets: replicas are numbers and the final order of sets is any total order given to it, where the source derives both from names.
- Exploration.Explorer.Explore: does not model fork, waitpid, shared memory and time-outs; a worker's end and report are any choice, a failed fork is a choice, and seed derivation is any function.
- Exploration.AddedIsLatest: the counter of replaced exemplars does not wrap at 64 bits.
- Replay.ReplayThenDiverge: the draws of one seed are a fixed bit-vector step; the samplers built on them are not modelled.
- BlockFile.Blocks.ReadBlocks: only the borrowed-buffer form; the owned, aligned and durable variants, growing and `AlignedBuf` are the same loop. The mask that rounds down is written as arithmetic.
- Coverage merging, metrics, floating-point scaling, timeline text, the network, RPC, hyper, time and task crates: adapters, or properties easier than these.
