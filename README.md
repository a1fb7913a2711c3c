# External merge sort of 64-bit records — a Dafny model

This project models the sorting core of `src/main.cpp`, a two-phase external merge sort
of binary files of signed 64-bit integers (`Number`), and proves what it computes.

* **Files.** A file is the sequence of records it holds (`Files.File`, a class with one
  `data` field). Reads copy a slice of the file into a buffer at a record offset; every
  write appends, because every file the sort writes was opened truncated. Opening a file
  "read/write, truncated" is `Clear`.
* **Partition phase** (`Partition`). The input is cut into runs of `m` records (the
  memory budget). Each run is read block by block (`b` records per block), sorted in
  memory by a top-down merge sort (`InMemorySort`), and written to the output file block
  by block. The phase returns the number of runs.
* **Block merger** (`ChunkMerge`). Two sorted runs are merged through three one-block
  buffers: two read buffers and one write buffer. A read buffer whose run is used up is
  filled with the sentinel `INT64_MAX`. Its exact output is the ghost function
  `Runs.BlockMerge`. That is the merge of the two runs, each padded with sentinels, cut
  after `|x| + |y|` records.
* **Passes** (`Passes`, specified by `MergeSchedule`).
  * Pass `t` merges neighbouring chunks of `m * 2^t` records in the active part of the
    input file. When the active part holds an odd number of chunks, the last chunk is
    dropped from the active part.
  * The records from the new active length on are copied behind the merged pairs.
  * The two files then swap roles.
  * After `floor(log2(runs))` passes, anything carried is merged with the active part by
    the unequal-size block merge.
  * `MergeSchedule.MergeResult` is the file this returns.
* **Whole sort** (`ExternalSort`). The partition phase runs, then the merge phase, with
  the input file reused as the second file.

Main results:

* Every imperative operation is proved against a ghost specification function:
  * `MergeSort` equals `TopDownSort`;
  * `SortInternal` writes `TopDownSort` of the run;
  * `ExternalMergeChunksNeq` appends `BlockMerge`;
  * `ExternalMergeFile` computes `MergePairs` and `NextActive`;
  * `ExternalMerge` returns `MergeResult`.
* On sorted runs the sentinel is harmless: `BlockMerge` is the plain merge, even when
  `INT64_MAX` occurs as data.
* Each pass keeps the records and doubles the sorted run length.
* When the run count has at most two set bits (at most one pass carries a chunk), the
  result is sorted and equals the top-down merge sort of the input. This covers one run,
  a power of two runs, and exactly one carried run.
* For every run count, sorting an already sorted file returns it unchanged.
* When the run count has three or more set bits, the result can be unsorted, and it can lose records when
  `INT64_MAX` occurs as data. Two seven-run files show this.

## Model

| member | source | states |
|---|---|---|
| Files.File.Clear | src/main.cpp:68-71 | opening a file truncated leaves it empty |
| Files.File.Write | src/main.cpp:360 | a write appends exactly the `count` buffer records starting at `from` to the file |
| Files.ReadData | src/main.cpp:45-52 | the buffer slice at `bufStart` becomes the file slice at `fileStart`; the rest of the buffer is unchanged |
| InMemorySort.Merge | src/main.cpp:89-122 | `nums[left..right]` becomes the merge of the two old halves (left record first on ties); nothing outside the range changes |
| InMemorySort.MergeCopies | src/main.cpp:99-121 | the three loops write exactly the merge of the two copied halves from `left` on; every other position is kept |
| InMemorySort.PutLeft | src/main.cpp:100-103 | storing the left copy's head, when the right copy is used up or its head is not smaller, writes the next record of the merge at `k` and keeps every other position; the same step ends each turn of the loop at 111-115 |
| InMemorySort.PutRight | src/main.cpp:104-107 | storing the right copy's head, when the left copy is used up or the right head is smaller, writes the next record of the merge at `k` and keeps every other position; the same step ends each turn of the loop at 117-121 |
| InMemorySort.MergeSort | src/main.cpp:124-131 | `nums[left..right]` becomes the top-down merge sort of its old contents; nothing outside the range changes; a range with `left >= right` leaves the array untouched |
| SortSpec.MergedIsSorted | src/main.cpp:89-122 | the merge of two sorted runs is sorted |
| SortSpec.MergedPermutes | src/main.cpp:89-122 | the merge keeps exactly the records of both runs |
| SortSpec.TopDownSortIsSorted | src/main.cpp:124-131 | the top-down merge sort's result is sorted |
| SortSpec.TopDownSortPermutes | src/main.cpp:124-131 | the top-down merge sort's result is a permutation of its input |
| SortSpec.SortedPermutationIsSort | src/main.cpp:422-443 | any sorted permutation of the input equals its top-down merge sort, so agreeing with a reference sort means being sorted and complete |
| SortSpec.SortIdempotent | src/main.cpp:124-131 | sorting an already sorted sequence returns it unchanged |
| SortSpec.MergedSortedHalves | src/main.cpp:89-122 | merging the two halves of a sorted sequence gives the sequence back |
| SortSpec.SentinelMergePrefix | src/main.cpp:238 | padding two sorted runs with `INT64_MAX` and cutting the merge after their combined length gives their merge |
| Partition.ReadRun | src/main.cpp:139-150 | the block reads followed by the rest read fill the buffer with exactly the `m` records at `cur` and advance the cursor by `m` |
| Partition.ReadMore | src/main.cpp:140-147 | one read appends the next `count` records of the run behind the records already in the buffer |
| Partition.RunFits | src/main.cpp:139-150 | with `m` dividing what remains and `m >= 2b` when the whole file holds more than one run, the next run fits and the block loop stops inside it (no read past the buffer) |
| Partition.WriteRun | src/main.cpp:158-167 | the block writes append the whole sorted buffer; no partial block remains |
| Partition.SortInternal | src/main.cpp:133-168 | one call appends the top-down sort of the `m` records at `cur` and advances the cursor by exactly `m` |
| Partition.DoPartition | src/main.cpp:170-179 | the run count times `m` is `n`, and the output receives every run of the input sorted on its own, in order |
| Runs.SortEachRunSorted | src/main.cpp:170-179 | every run of the partition output is sorted |
| Runs.SortEachRunPermutes | src/main.cpp:170-179 | the partition output is a permutation of the input |
| Runs.BlockMergeSorted | src/main.cpp:238-248 | on sorted runs the sentinel never reaches the output: the block merge equals the plain merge, also when `INT64_MAX` occurs as data |
| Runs.MergePairsSorted | src/main.cpp:339-343 | merging pairs over whole sorted chunks keeps the records and yields sorted chunks of twice the length |
| Runs.MergePairsKeepsSorted | src/main.cpp:339-343 | a merge pass over a sorted sequence leaves it unchanged |
| Runs.SortEachRunKeepsSorted | src/main.cpp:170-179 | the partition phase leaves a sorted sequence unchanged |
| ChunkMerge.Fill | src/main.cpp:305 | every buffer slot becomes the given value |
| ChunkMerge.NextBlock | src/main.cpp:300-317 | a refill reads the next block of the run while its disk cursor is inside the run, and fills sentinels otherwise; the cursor never passes the run's end |
| ChunkMerge.RefillBlock1 | src/main.cpp:297-308 | a used-up first read buffer becomes the next block of the first run followed by sentinels, read from disk or filled with `INT64_MAX`; the disk cursor advances by a block, never past the run's end; the merge state is kept |
| ChunkMerge.RefillBlock2 | src/main.cpp:309-318 | a used-up second read buffer becomes the next block of the second run followed by sentinels, read from disk or filled with `INT64_MAX`; the disk cursor advances by a block, never past the run's end; the merge state is kept |
| ChunkMerge.MoveSmaller | src/main.cpp:284-292 | the smaller head record (the first buffer's on ties) becomes the next merged record in the write buffer |
| ChunkMerge.MergeBlocks | src/main.cpp:283-293 | the inner loop keeps the merge state and ends with a read buffer used up or the write buffer full |
| ChunkMerge.FlushBlock | src/main.cpp:319-324 | a full write buffer appends the next `b` merged records to the output |
| ChunkMerge.Refill | src/main.cpp:297-318 | the first read buffer is refilled when used up, else the second; the merge state is kept and one fewer buffer is used up |
| ChunkMerge.RefillOrFlush | src/main.cpp:297-324 | the first buffer is refilled first, then the second, else the write buffer is flushed; the merge state is kept and the loop measure decreases |
| ChunkMerge.MergeRound | src/main.cpp:282-325 | one turn of the main loop keeps the merge state and the output as the written prefix of the merge, and advances the loop measure |
| ChunkMerge.MergeLoop | src/main.cpp:282-328 | the main loop appends exactly the first `c1 + c2` merged records; the final partial flush has nothing left to write |
| ChunkMerge.ExternalMergeChunksNeq | src/main.cpp:266-330 | appends exactly the block merge of the runs of `c1` and `c2` records |
| ChunkMerge.ExternalMergeChunks | src/main.cpp:195-263 | for the neighbouring runs at `s1` and `s1 + c`, appends exactly their block merge |
| MergeSchedule.ChunkLengthPow2 | src/main.cpp:335 | the chunk length of pass `t` is `m * 2^t` |
| MergeSchedule.OddChunksDiv | src/main.cpp:349 | an odd chunk count, counted one chunk at a time, is the quotient-parity test `(fse / c) % 2 != 0` |
| MergeSchedule.NextActive | src/main.cpp:349-351 | the active length stays the same or drops by exactly one chunk |
| MergeSchedule.ActiveNext | src/main.cpp:349-351 | the active length drops by a chunk exactly when the chunk count is odd, and the new length is a whole number of next-pass chunks |
| MergeSchedule.PassPermutes | src/main.cpp:339-351 | a pass over whole sorted chunks keeps the file's records |
| MergeSchedule.PassKeeps | src/main.cpp:339-351 | after a pass the active part is sorted chunks of twice the length; an even pass leaves the carried part unchanged; an odd first carry is sorted |
| MergeSchedule.BetweenAll | src/main.cpp:379-398 | after every pass the active part is whole sorted chunks; nothing is carried while no pass was odd; the carried part is sorted while at most one was |
| MergeSchedule.PermutesAll | src/main.cpp:379-398 | after every pass the file holds exactly the partition output's records |
| MergeSchedule.OddPassesPopCount | src/main.cpp:366-368 | the passes with an odd chunk count are the set bits of the run count other than its highest |
| MergeSchedule.LastPass | src/main.cpp:371-398 | with at most two set bits in the run count, the last pass leaves a sorted active part, a sorted carried part and the same records; with one set bit nothing is carried |
| MergeSchedule.FinishSorted | src/main.cpp:400-407 | the final unequal merge of two sorted parts is sorted and keeps the records |
| MergeSchedule.MergeResultSorted | src/main.cpp:369-408 | with at most two set bits in the run count, the merge phase returns a sorted permutation of the partition output |
| MergeSchedule.MergeResultOneRun | src/main.cpp:371-406 | with one run there is no pass and no final merge: the partition output is returned unchanged |
| MergeSchedule.MergeResultPowerOfTwo | src/main.cpp:369-408 | with a power-of-two run count nothing is carried, and the returned file is sorted and complete |
| MergeSchedule.AfterPassesKeepsSorted | src/main.cpp:379-398 | every pass leaves a sorted file unchanged |
| MergeSchedule.MergeResultIdempotent | src/main.cpp:369-408 | for every run count, the merge phase returns a sorted file unchanged |
| MergeSchedule.SevenRunsResult | src/main.cpp:369-408 | for seven runs of two records whose first twelve records are sorted and whose last two are, both passes leave the file unchanged, eight records stay active, and the result is the block merge of those eight with the six carried records |
| MergeSchedule.SevenRunsUnsorted | src/main.cpp:369-408 | for the partitioned file `[0..7, 20, 21, 22, 23, -5, -4]` in seven runs, the merge phase returns the file unchanged, and it is not sorted |
| MergeSchedule.SevenRunsLoseRecords | src/main.cpp:369-408 | for the partitioned file `[0..7, 20, 21, 22, INT64_MAX, -5, -4]` in seven runs, the merge phase returns `[0..7, 20, 21, 22]` followed by three `INT64_MAX`, so `-5` is lost |
| Arith.Log2 | src/main.cpp:371 | the pass count is the integer floor of log2: `2^r <= n < 2^(r+1)` |
| Arith.HalveUntilLog | src/main.cpp:371-379 | up to the pass count at least one chunk is active, and after the last pass exactly one |
| Passes.PairedWhole | src/main.cpp:339-343 | over whole chunks the pair loop merges every chunk but an odd last one, which is exactly the new active length |
| Passes.ChunkMod | src/main.cpp:335 | every chunk length is a multiple of the block size |
| Passes.OddChunkCount | src/main.cpp:349 | the parity test equals the odd chunk count |
| Passes.ExternalMergeFile | src/main.cpp:333-352 | appends the merged neighbouring pairs; together with the unpaired tail this is the pass's pair merge; the new active length is `NextActive` |
| Passes.CopyChunk | src/main.cpp:354-364 | appends `inp[start..end]` unchanged, one block at a time |
| Passes.ActiveShape | src/main.cpp:349-351 | after `t` passes the active length is `Halve(r, t)` chunks of the pass-`t` length |
| Passes.PassByFiles | src/main.cpp:380-387 | merged pairs plus the copied carried records are the next stage; the copied part is a whole number of blocks |
| Passes.LastStage | src/main.cpp:400-401 | after the last pass the active chunk is not empty, and it and the carried part are whole numbers of blocks, as the final merge needs |
| Passes.FinishFromFiles | src/main.cpp:400-407 | the final merge's output, or the input file when nothing was carried, is the merge phase's result |
| Passes.MergeRound | src/main.cpp:380-387 | a pass and the copy of the carried records turn the empty output file into the next stage |
| Passes.PassInto | src/main.cpp:380 | the merged pairs written by a pass, followed by the carried records, are the next stage; the carried part is a whole number of blocks |
| Passes.ExternalMerge | src/main.cpp:369-408 | returns one of the two files, holding exactly `MergeResult` of the partition output |
| Passes.FinalMerge | src/main.cpp:399-407 | returns one of the two files, holding the merge phase's result: the block merge of the active chunk with the carried records, or the input file when nothing was carried |
| ExternalSort.RunCount | src/main.cpp:459 | the reported run count is `n / m` and at least 1 |
| ExternalSort.SortFileExternal | src/main.cpp:446-473 | the returned file is one of the two and holds the merge result of the partition output |
| ExternalSort.ExternalSortSorts | src/main.cpp:446-473 | with at most two set bits in the run count, the external sort's result equals the top-down merge sort of the input: sorted and a permutation |
| ExternalSort.ExternalSortIdempotent | src/main.cpp:446-473 | for every run count, sorting an already sorted file returns it unchanged |

## Left out

- Files: stream failures and short reads are not modelled. The source checks neither. The `std::nullopt` returns for files that cannot be opened (src/main.cpp:448-458) are left out, because a file model cannot fail to open.
- Sizes are counted in records, not bytes. The model's `m` and `b` are the source's `internal_memory_size / sizeof(Number)` and `block_size / sizeof(Number)`. The byte-level `reinterpret_cast` serialisation is not modelled.
- `pow(2, iteration)` and `floor(log2(partitions))` use floating point. They are modelled by the integer `ChunkLength` and `Log2`.
- Closing and reopening the two files between passes is modelled as a swap of the two file references and a `Clear` of the new output. File names are not modelled.
- Partition.DoPartition: requires `m` to divide `n`. For a shorter last run, the source writes `m` records from a buffer shrunk below `m` (src/main.cpp:153, 158-167).
- Partition.DoPartition: requires `m >= 2b` when there is more than one run. Otherwise the rest read at src/main.cpp:145-150 writes past the buffer, and the run after it is swallowed.
- Partition.DoPartition: requires `b` to divide `m`. Otherwise the block read loop at src/main.cpp:139-143 runs until `current_block` reaches `m`, so for every run but the last its final read writes part of a block past the end of the buffer. The write loop at 159-162 also passes `m`, so `rest` at 163 wraps around as a `size_t`. With `b` dividing `m` the partial-block write at 163-167 never happens and is not modelled as code.
- The partial flushes at src/main.cpp:259-261 and 326-328 are not modelled as code. They are dead for every `b`: the main loop only ends after a flush, and every flush resets `k` to 0. `ChunkMerge.MergeLoop` asserts `k == 0` after its loop.
- ExternalSort.SortFileExternal: requires `n > 0`. `log2(0)` has no value, and an empty input has no run.
- ChunkMerge.ExternalMergeChunksNeq: requires both runs to be non-empty whole numbers of blocks. Its first two reads take a whole block from each run (src/main.cpp:275-278).
- ChunkMerge.ExternalMergeChunks: requires `s2 == s1 + c`. The refill test `chunk_1 < chunk_2_start` (src/main.cpp:233) ends the first run at the second run's start, which is the only way the source calls it (src/main.cpp:340). Under that requirement it delegates to the unequal-size merger.
- MergeSchedule.MergeResultSorted: proved only when the run count has at most two set bits. With three or more (for example 7 runs), the carried part holds several separately sorted runs. The final merge then neither sorts the carried runs nor, when `INT64_MAX` is among them as a record, keeps every record: once the active part is used up, its sentinels tie with that record and win the tie (src/main.cpp:284-292). `MergeSchedule.SevenRunsUnsorted` and `MergeSchedule.SevenRunsLoseRecords` show both on concrete files. The TODO at src/main.cpp:366-368 marks the handling of an odd run count as unfinished. For those counts the model states what the file is (`MergeResult`), not that it is sorted.
- Unused parameters of the source are dropped: the memory budget and `iteration` passed to the block mergers, and `internal_memory_size` given to the pass loop only to derive `m`.
- `write_input_data`, `copy_file`, `file_open`, `file_open_and_clear`, `print_block`, `debug_write`, `prepare`, `test`, `internal_mergesort_file` and `main` are not part of this model. They cover data generation, file plumbing, console output, the reference-sort check and argument parsing. The check's property, agreement with a reference sort, is stated by `SortSpec.SortedPermutationIsSort` and `ExternalSort.ExternalSortSorts`.
