# Partition generator — Dafny model

This project models `create_partitions` from `docker/partition_gen.py` of the
NGIAB cloud infrastructure. The function splits a hydrographic network into
partitions for parallel processing. It reads the `(toid, divide_id)` rows of
the `divides` table and groups the divide ids by their toid (the terminal
nexus). The groups keep the order in which each toid is first seen, and each
group keeps its divide ids in row order. The requested partition count is
clamped to the number of distinct toids. The ordered groups are then cut into
contiguous blocks of `ceil(groups / count)` groups. Each block becomes one
partition record `{id, cat-ids, nex-ids, remote-connections}`.

Modules, one per step of the function:

- `Numeric` (`numeric.dfy`): Python's `min`, and Python's `ceil(a / b)` taken
  exactly on integers (`PyCeil`), with the block-count arithmetic.
- `Grouping` (`grouping.dfy`): the `defaultdict(list)` loop as a pure fold
  `GroupBy` over the rows. Its reference definitions are `ValuesOf` (the rows
  of one toid, filtered) and `FirstIndex` (first occurrence).
- `Chunking` (`chunking.dfy`): the `Partition` record and the `range` loop as
  `ChunkFrom`/`Chunk`, with lemmas on ids, block sizes, concatenation and
  exactly-once ownership.
- `PartitionGen` (`partition_gen.dfy`): `CreatePartitions` for any row
  sequence and any integer request, including the two exceptions the source
  raises. It also holds the end-to-end theorems, the loops as written
  (`GroupRows`, `BuildPartition`, `ChunkItems`, `RunCreatePartitions`, each
  proved equal to the functional model) and the worked example with five
  toids.

The requested count is a Python `int`, so the model covers every value:

- A clamped count of 0 (a request of 0, or an empty table with a request of
  at least 0) divides by zero at line 21. This is `Err(ZeroDivision)`.
- A negative request whose ceiling rounds to 0 gives `range(..., 0)` at
  line 25. This is `Err(ZeroRangeStep)`.
- A negative request with at least as many toids as its magnitude gives a
  negative step. The range is then empty, and the output is an empty
  partition list, written under the negative count.

The file name and the partition list can disagree. The file is named after
the clamped count, but the number of partitions emitted is
`ceil(toids / ceil(toids / count))`, which can be smaller. For five toids and
a request of 4, the blocks hold 2 toids, so `partitions_4.json` holds only 3
partitions (`ExampleFourRequested`). A consumer that starts one worker per
`N` of the file name would start one worker too many. The model keeps the
name as written.

Counts below 1 are not a documented use of the function. The model still
gives them the behaviour the code has. `CreatePartitionsOutcome` states
exactly which inputs fall in each case.

## Model

| member | source | states |
|---|---|---|
| `Grouping.Add` | docker/partition_gen.py:18 | appending to a toid already present keeps every toid in place and extends only that toid's list at its end; a new toid is placed last with a one-element list; keys stay distinct |
| `Grouping.GroupBy` | docker/partition_gen.py:16-18 | the grouped toids are distinct, they are exactly the toids of the rows, there are no more groups than rows, and there are no groups exactly when there are no rows |
| `Grouping.GroupByMembers` | docker/partition_gen.py:16-18 | each group's divide ids are exactly the divide ids of the rows with that toid, in row order |
| `Grouping.GroupByFirstSeenOrder` | docker/partition_gen.py:16-18 | groups appear in the order in which their toids first occur in the rows |
| `Grouping.GroupByPreservesValues` | docker/partition_gen.py:16-18 | the flattened groups are a permutation of the rows' divide ids, so every row contributes to exactly one group |
| `Grouping.GroupCount` | docker/partition_gen.py:20-22 | `len(nexus)` is the number of distinct toids among the rows |
| `Numeric.Min` | docker/partition_gen.py:20 | the result is at most both arguments and equal to one of them |
| `Numeric.PyCeil` | docker/partition_gen.py:21 | the result is the ceiling of a / b for either sign of b: the least integer at or above the quotient |
| `Numeric.ClampedBlockCount` | docker/partition_gen.py:20-25 | for 1 <= count <= groups, the block size is at least 1 and the number of blocks is between 1 and count |
| `Numeric.PyCeilNegative` | docker/partition_gen.py:21 | for a negative divisor, the ceiling is 0 exactly when the dividend is below the divisor's magnitude, and negative otherwise |
| `Chunking.ChunkFromCount` | docker/partition_gen.py:25 | the loop from i emits ceil((groups - i) / size) partitions, or none once i reaches the end |
| `Chunking.ChunkFromAt` | docker/partition_gen.py:25-35 | the k-th emitted partition is the record of the block starting at the k-th value of the loop variable |
| `Chunking.ChunkShape` | docker/partition_gen.py:25-35 | there are ceil(groups / size) partitions with ids 0, 1, … in order and no remote connections; all but the last hold exactly size toids and the last holds 1 to size, with no padding |
| `Chunking.MakePartition` | docker/partition_gen.py:26-34 | the record of the block at i holds between 1 and size toids, exactly size when the block does not run past the end, and no remote connections |
| `Chunking.ChunkFrom` | docker/partition_gen.py:25 | the loop from i emits no partition exactly when i is at or past the end |
| `Chunking.Chunk` | docker/partition_gen.py:23-35 | the nex-ids concatenated over the partitions are the group keys in order; the cat-ids concatenated are the flattened groups in order |
| `Chunking.ChunkShapeAt` | docker/partition_gen.py:25-35 | the k-th emitted partition has id k and no remote connections, and holds between 1 and size toids, exactly size unless it is the last |
| `Chunking.ChunkKeysOnce` | docker/partition_gen.py:25-34 | with distinct keys, a toid is a group key exactly when some partition lists it, and no two partitions share a toid |
| `Chunking.ChunkCatOfNex` | docker/partition_gen.py:31-34 | with distinct keys, each partition's cat-ids are the divide ids of the groups named by its nex-ids, looked up by toid, in nex-ids order |
| `PartitionGen.CreatePartitions` | docker/partition_gen.py:16-35 | on success the file count is min(request, distinct toids); when partitions are emitted, their nex-ids concatenate to the grouped toids in first-seen order and their cat-ids to the grouped divide ids |
| `PartitionGen.CreatePartitionsOutcome` | docker/partition_gen.py:20-25 | division by zero exactly for a request of 0, or an empty table with a positive request; a zero range step exactly for a negative request larger in magnitude than the toid count; the file count is always min(request, distinct toids); partitions are emitted exactly for a positive request and a non-empty table |
| `PartitionGen.PartitionCount` | docker/partition_gen.py:20-25 | for a positive request and a non-empty table, the count is clamped to the distinct toids and 1 <= partitions <= count <= distinct toids, with partitions = ceil(toids / ceil(toids / count)) |
| `PartitionGen.PartitionNumbering` | docker/partition_gen.py:21-35 | ids run 0, 1, … in emission order; remote-connections is always empty; every partition but the last holds ceil(toids / count) toids and the last holds between 1 and that many |
| `PartitionGen.PartitionsCoverToids` | docker/partition_gen.py:16-34 | the nex-ids concatenated over the partitions are the distinct toids in first-seen order, without duplicates; a toid occurs in the rows exactly when some partition lists it, and never in two partitions |
| `PartitionGen.PartitionsCoverDivides` | docker/partition_gen.py:16-34 | each partition's cat-ids are, toid by toid in nex-ids order, the divide ids of that toid's rows; concatenated over partitions they equal the grouped order and are a permutation of the rows' divide ids |
| `PartitionGen.ItemsAdd` | docker/partition_gen.py:18-23 | `list(nexus.items())` follows the dict's insertion order, and one `nexus[k].append(v)` on the dict, for a present or a new toid, matches `Add` on the item list |
| `PartitionGen.GroupRowsStep` | docker/partition_gen.py:17-18 | one iteration of the row loop keeps the dict's items equal to the grouping of the rows read so far, and keeps its key order distinct and equal to its key set |
| `PartitionGen.GroupRows` | docker/partition_gen.py:16-18 | the dict loop, with its insertion order, yields the same items as `GroupBy` |
| `PartitionGen.BuildPartition` | docker/partition_gen.py:26-34 | the inner loop, which skips the indices past the end, builds the block's record with id i // size |
| `PartitionGen.ChunkItems` | docker/partition_gen.py:25-35 | the outer `range(0, len, size)` loop yields `Chunk` of the items |
| `PartitionGen.RunCreatePartitions` | docker/partition_gen.py:16-35 | the function's loops as written agree with `CreatePartitions` on every input, error paths included |
| `PartitionGen.ExampleTwoPartitions` | docker/partition_gen.py:16-35 | A:[1,2], B:[3], C:[4], D:[5,6], E:[7] with 2 requested gives partition 0 = A,B,C with cat-ids 1..4 and partition 1 = D,E with cat-ids 5..7 |
| `PartitionGen.ExampleFourRequested` | docker/partition_gen.py:20-25 | the same five toids with 4 requested give blocks of 2 and only 3 partitions, while the file count is 4 |

## Left out

- The SQLite connection and query (lines 15, 17). The query result is the input `rows`, in the order the database returns it.
- The `multiprocessing.cpu_count()` default (lines 12-13). It depends on the host, so the request is always an explicit parameter.
- The JSON serialisation and the write of `partitions_<N>.json` (lines 37-40). These are file I/O. The model returns the `N` of the file name as `Output.fileCount`, together with the partition list.
- The command-line handling and exit (lines 44-50). This is process plumbing.
- Floating point in `ceil(len(nexus) / num_partitions)` (line 21). `PyCeil` is the exact integer ceiling. It agrees with the float computation for all realistic group counts.
- The element type of `remote-connections`. The source never fills the list, so it is modelled as a sequence of toids that is always empty.
- Determinism needs no lemma. Every operation is a pure function of the rows and the request.
- Toids and divide ids are generic. Toids only need equality (they are dict keys). Divide ids are carried along unchanged.
