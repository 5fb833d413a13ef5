# Verification of the NPU kernels

A Dafny model of the index arithmetic, the scheduling and the hand-off protocols of the NPU kernels in this repository,
and proofs about it. Vector, matrix and copy instructions are modelled by their plain meaning on integer sequences;
loops, branches, constants, running sums and flags are the kernels' own.

Run `dafny verify dfyconfig.toml` in this directory.

| component | files |
|---|---|
| lightning indexer: balanced split of the block space, its walk, the top-K of every row across cores, the block sort, the paged key load, the two-slot buffer | `BlockSpace`, `BlockOrder`, `LightningIndexer`, `ProcessMain`, `IndexerSchedule`, `TopK`, `MrgSort`, `SortAll`, `LIVector`, `IndexerTopK`, `IndexerRow`, `CubeVectorCredits`, `KeyGather` |
| ping-pong batched matmul: swizzle, tiling, prefetch, k split and rotation | `Swizzle`, `NzFormat`, `MatmulSpec`, `TileMath`, `PpMatmulTiles`, `PpMatmulKernel`, `PpMatmulOutput`, `PpMatmulTiling` |
| MLA preprocess: the cube/vector handshake, the rotary embedding | `MlaHandshake`, `Rope` |
| speculative decoding: draft tree, masks, greedy verification | `DraftTree`, `BuildTree`, `MaskLayout`, `BuildTreeKernel`, `BuildTreeLaunch`, `VerifyTree`, `BuildAndVerify` |
| paged allocator | `AllocExtend`, `AllocExtendKernel` |
| cache copies: the ring-ordered copy, the location scatter and gather | `ServiceOrder`, `AssignCache`, `AssignCacheRing`, `AssignCacheProgress`, `AssignCacheProof`, `AssignCacheLimits`, `CacheLocAssign` |
| segmented LoRA expand | `SgmvReduce`, `SgmvExpand`, `SgmvKernel` |
| shared | `Arith`, `Buffers` |

## How to read it

* A kernel's class is a class here, a loop a loop, a buffer written in place an array. A method's contract ties the new
  state to a specification function or predicate; the lemmas say what the specification amounts to.
* Protocols between cores - the indexer's credits, the MLA handshake, the ring of the cache copy - are state machines
  over every interleaving: `Enabled` and `After` are one step, `Run` is any sequence of steps, and the results hold of
  every state of every run.
* `Launch` methods run the cores one after the other. Each core's contract says which places it writes, and these are
  disjoint, so the order of the cores does not matter to the result.

## Assumptions about the hardware

* Cross-core flags are counting semaphores; a cube core's wait takes one count from each of its vector cores.
* `IBSet` raises a core's flag once, `IBWait` waits for it and takes it down.
* `MrgSort` moves out the best head again and again; with early stop it ends when one list is exhausted. `Sort32` and
  `Sort` sort. The ranking - higher score first, equal scores by key index, padding last - is a total order.
* `Mmad` adds the product of two L0 tiles to the accumulator. `BlockReduceSum` and `PairReduceSum` write the sums of 8
  and 2 lanes contiguously.
* `DataCopy` copies; the row-major to fractal copy writes sixteen columns of a row at a time, `dstNzC0Stride` rows apart.
* In the ring-ordered copy a read of a place to which another core is just writing a different value may give any value;
  every other read gives what stands there.

## Limits of the code, and where it differs from its promise

* `SortAll` (lightning_indexer_vector.h:183-242) sorts the lengths that its comment promises, and drops runs when their
  number is above four and no multiple of four. The exact set of lengths it sorts is proved, with a failing input for
  every other length.
* `AssignCacheOp::Process` (assign_cache_op.cpp:84-141) can let the rounded tail of one row overwrite what another row has
  copied, and an empty row, which neither waits nor sets a flag, can starve its ring. Exactly which launches can finish,
  and of these exactly which are right on every destination and in every run, is proved for all rows, with one failing
  input.
* `KernelAllocExtent::Compute` (alloc_extend_kernel.cpp:136-153) stores the page total only when the last request reaches
  its third part; the contracts, up to the whole launch, say exactly that.
* The parent search of the tree kernel (build_tree_kernel.cpp:155-161) reads one place past the row when a parent was not
  selected; the model reads an arbitrary value there and proves that it does not matter.
* `tilingData->lCoreRun` is filled with `nlCoreRun` (mla_preprocess.cpp:444); the kernel only uses the loop counts, which
  are right.

## Model

| member | source | states |
|---|---|---|
| BlockSpace.Shape.KeyBlockIffSeen | csrc/lightning_indexer/op_kernel/lightning_indexer_kernel.cpp:228-237 | the 32-bit block count of a masked tile is exact: a key block is counted if and only if some row of the tile may see its first key |
| BlockSpace.Shape.TileCountsAgree | csrc/lightning_indexer/op_kernel/lightning_indexer_kernel.cpp:458-475 | the two tile counts in the code - rows by tile height in the split, rows times heads by 512 in the walk - are the same number for every group size that divides 512 |
| BlockOrder.AllIsTheBlockSpace | csrc/lightning_indexer/op_kernel/lightning_indexer_kernel.cpp:586-597 | the order of blocks lists every valid (batch, query tile, key block) and nothing else, each once, lexicographically |
| BlockOrder.BlockIsSeen | csrc/lightning_indexer/op_kernel/lightning_indexer_kernel.cpp:228-259 | every block of the launch has a row of its batch, among the rows whose heads have the tile's 512 places, that may attend to the first of its 512 keys: the key exists and, under the mask, key + s1 <= row + s2 |
| BlockOrder.SeenIsBlock | csrc/lightning_indexer/op_kernel/lightning_indexer_kernel.cpp:228-259 | ... and every block with such a row belongs to the launch |
| BlockOrder.RangesTile | csrc/lightning_indexer/op_kernel/lightning_indexer_kernel.cpp:266-272 | the quotas of consecutive cores meet, cover all blocks, and are positive exactly on the used cores |
| LightningIndexer.LIPreload.GetTotalBaseBlockNum | csrc/lightning_indexer/op_kernel/lightning_indexer_kernel.cpp:240-259 | the loops count exactly the blocks of the launch, with and without the mask |
| LightningIndexer.LIPreload.SplitCore | csrc/lightning_indexer/op_kernel/lightning_indexer_kernel.cpp:263-340 | for every batch of lengths and every number of cores: each used core gets a range that starts at its first block (or at the first batch to be cleared since the core before), ends at its last block (the last core at the last batch), and has its merge flag set exactly when it holds the first block of a tile that goes on behind its range |
| LightningIndexer.LIPreload.SplitTile | csrc/lightning_indexer/op_kernel/lightning_indexer_kernel.cpp:302-337 | the innermost loop of the split hands out the key blocks of one tile, several cores to one tile if need be, and keeps the walk's bookkeeping |
| ProcessMain.CoreWalk.CalcGS1LoopParams | csrc/lightning_indexer/op_kernel/lightning_indexer_kernel.cpp:458-475 | the last tile to walk is the range's end in its last batch and the batch's last tile in any other |
| ProcessMain.CoreWalk.CalcS2LoopParams | csrc/lightning_indexer/op_kernel/lightning_indexer_kernel.cpp:438-455 | a block of a tile lies in the core's range if and only if it is not behind the computed last key block, which is itself a block of the tile |
| ProcessMain.CoreWalk.ProcessMain | csrc/lightning_indexer/op_kernel/lightning_indexer_kernel.cpp:569-604 | from the six coordinates alone a core visits exactly its slice of the block order, in order, and clears exactly the batches of its span that have no queries or no keys, each once |
| IndexerSchedule.VisitsAreTheBlockSpace | csrc/lightning_indexer/op_kernel/lightning_indexer_kernel.cpp:263-340 | the visits of all used cores, one after the other, are every valid block once and in order; loads differ by at most one and none is empty |
| IndexerSchedule.ClearedByOneCore | csrc/lightning_indexer/op_kernel/lightning_indexer_kernel.cpp:285-290 | when there is any work, every batch without queries or without keys - in BSND any, otherwise one with query rows - lies in the span of exactly one core |
| IndexerSchedule.LeadsIffHoldsFirst | csrc/lightning_indexer/op_kernel/lightning_indexer_kernel.cpp:316-319 | the merge flag means: this core holds the tile's first block and not its last, and no other reading is possible |
| IndexerSchedule.OneLeaderPerCutTile | csrc/lightning_indexer/op_kernel/lightning_indexer_kernel.cpp:309-333 | a tile cut across cores has exactly one core with the merge flag, the one that holds its first block |
| TopK.MergeTake | csrc/lightning_indexer/op_kernel/lightning_indexer_vector.h:333-353 | only the first k of a list matter to the first k of a merge |
| TopK.TopAbsorbs | csrc/lightning_indexer/op_kernel/lightning_indexer_vector.h:264-289 | keeping only the k best of one part of a collection loses nothing of the k best of the whole |
| TopK.TopIsBest | csrc/lightning_indexer/op_kernel/lightning_indexer_service_vector.h:363-375 | every kept entry is a key whose score is above that of any key left out, or equal to it with no later position |
| TopK.TopComesFrom | csrc/lightning_indexer/op_kernel/lightning_indexer_service_vector.h:363-375 | whatever is kept comes from the collection, as often as it occurs there at most |
| LIVector.RowLengths | csrc/lightning_indexer/op_kernel/lightning_indexer_service_vector.h:229-265 | the two vector cores of a pair have the first and the second half of a tile's rows; under the mask row i counts s2 - s1 + i + 1 keys, otherwise all s2 |
| MrgSort.MrgIsSort | csrc/lightning_indexer/op_kernel/lightning_indexer_vector.h:292-330 | merging sorted lists to the end gives the sorted list of all their entries |
| MrgSort.SuspendedHoldsTop | csrc/lightning_indexer/op_kernel/lightning_indexer_service_vector.h:543-559 | a merge that stops as soon as one full-length list is exhausted still holds the right first k entries |
| MrgSort.MergeSort | csrc/lightning_indexer/op_kernel/lightning_indexer_vector.h:264-289 | the running list becomes the best of what it held and the new sorted block, at unchanged length |
| MrgSort.SparseTopK | csrc/lightning_indexer/op_kernel/lightning_indexer_vector.h:333-353 | the same for lists of any length, whether or not the merge may stop early |
| MrgSort.MrgBasicBlock | csrc/lightning_indexer/op_kernel/lightning_indexer_vector.h:292-330 | one to four sorted blocks become one sorted list of all their entries |
| SortAll.MergeLevel | csrc/lightning_indexer/op_kernel/lightning_indexer_vector.h:226-234 | one merge instruction turns groups of adjacent sorted runs in one buffer into sorted runs of the group length in the other |
| SortAll.SortAll | csrc/lightning_indexer/op_kernel/lightning_indexer_vector.h:183-242 | through the alternating buffers and the final copy, the first `Kept` places of src end up as those of the input in ranking order; the loop ends |
| SortAll.KeptExactlyWhenSupported | csrc/lightning_indexer/op_kernel/lightning_indexer_vector.h:215-235 | no run is dropped exactly when the number of runs is 1 to 4, or a multiple of four whose quarter is again supported |
| SortAll.SupportedForm | csrc/lightning_indexer/op_kernel/lightning_indexer_vector.h:215-235 | those numbers of runs are exactly the numbers c * 4^a with c in 1 to 4 |
| SortAll.RightExactlyWhenSupported | csrc/lightning_indexer/op_kernel/lightning_indexer_vector.h:178-242 | the block sort sorts every input of a length if and only if the length is 32 * c * 4^a |
| SortAll.WrongOtherwise | csrc/lightning_indexer/op_kernel/lightning_indexer_vector.h:215-235 | for every other length of at least 32 there is an input - the best key last - on which every outcome is wrong |
| SortAll.DocumentedLengths | csrc/lightning_indexer/op_kernel/lightning_indexer_vector.h:181 | the lengths named in the source comment are all of that form |
| LIVector.RowLane.MergeByFour | csrc/lightning_indexer/op_kernel/lightning_indexer_service_vector.h:328-352 | the four-block path keeps the running list equal to the k best of the blocks merged so far, with up to three sorted blocks waiting |
| SortAll.SortBlock | csrc/lightning_indexer/op_kernel/lightning_indexer_service_vector.h:320-324 | called for one block, with both buffers of exactly a sorted length, the routine gives the sorted block; the row lane calls it so for its 512 entries |
| LIVector.RowLane.TakeBlock | csrc/lightning_indexer/op_kernel/lightning_indexer_service_vector.h:320-353 | both merge strategies give the same result: at the end of a row or of the core's range the running list is the k best of every entry the row has met |
| LIVector.RowLane.ProcessVec | csrc/lightning_indexer/op_kernel/lightning_indexer_service_vector.h:218-418 | one key block for one row: the row's result, a partial list for the head or the tail slot, or nothing, exactly as the position of the block in the row and in the core's range demands |
| IndexerTopK.RunPiece | csrc/lightning_indexer/op_kernel/lightning_indexer_service_vector.h:218-418 | all key blocks of a tile that one core holds leave behind the k best of that piece, as output, head or tail |
| IndexerTopK.ProcessLD | csrc/lightning_indexer/op_kernel/lightning_indexer_service_vector.h:504-613 | starting from the tail list and following the next cores' head lists until the row's end flag, with merges at every fourth list, gives the k best of all the pieces |
| IndexerTopK.SeenIsKeys | csrc/lightning_indexer/op_kernel/lightning_indexer_service_vector.h:300-317 | all key blocks of a row together hold exactly the keys the row may see, each once, and padding |
| IndexerTopK.TopOfKeys | csrc/lightning_indexer/op_kernel/lightning_indexer_service_vector.h:363-375 | the k best of the first len keys: keys with their own scores, in falling order of score and then by position, and every key that is missing ranks behind all of them |
| IndexerRow.ChainTop | csrc/lightning_indexer/op_kernel/lightning_indexer_service_vector.h:504-601 | the lists of the leading core and of the cores after it stand for the row's blocks up to where the last of them ends |
| IndexerRow.IndexRow | csrc/lightning_indexer/op_kernel/lightning_indexer_service_vector.h:253-418 | end to end, for every row and every way the split cuts it: exactly one core writes the row's output; it holds keys i below s2 with their scores, under the mask only such with i + s1 <= row + s2, in falling order of score and then by position, and every such key that is missing ranks behind all that are there |
| CubeVectorCredits.BufferIsSafe | csrc/lightning_indexer/op_kernel/lightning_indexer_kernel.cpp:576-628 | in every interleaving of the cube core and its two vector cores no slot is read before it is filled or overwritten before both have used it, and no counter exceeds two |
| CubeVectorCredits.NeverStuck | csrc/lightning_indexer/op_kernel/lightning_indexer_kernel.cpp:606-628 | no reachable state short of the end is a deadlock |
| CubeVectorCredits.RunsAreBounded | csrc/lightning_indexer/op_kernel/lightning_indexer_kernel.cpp:606-628 | every step uses up one of 6n + 6 moves, n being the core's blocks, so every run ends |
| CubeVectorCredits.EndsBalanced | csrc/lightning_indexer/op_kernel/lightning_indexer_kernel.cpp:606-613 | at the end every block was used by both vector cores, and every credit and signal counter is zero |
| KeyGather.ChunkContinues | csrc/lightning_indexer/op_kernel/lightning_indexer_service_cube.h:263-297 | a chunk that stays in one page and one 128-row half lays down exactly the next rows of the fractal layout |
| KeyGather.PiecesApart | csrc/lightning_indexer/op_kernel/lightning_indexer_service_cube.h:282-294 | no two sixteen-element pieces of a load touch, in either half |
| KeyGather.KeyNd2NzForPA | csrc/lightning_indexer/op_kernel/lightning_indexer_service_cube.h:260-298 | for every page size of at least one the chunked loop ends and has written the pieces of all rows |
| KeyGather.LoadKeys | csrc/lightning_indexer/op_kernel/lightning_indexer_service_cube.h:260-298 | column d of row i of the load stands at slot + 16384 for the second half + (d / 16) * 16 * stride + (i mod 128) * 16 + d mod 16, the stride being the half's rows rounded up to sixteens, and is column d of row (off + i) mod B of page table[(off + i) / B]; the other buffer slots are untouched |
| KeyGather.HalfIsFractal | csrc/lightning_indexer/op_kernel/lightning_indexer_service_cube.h:356-369 | what the load into L0B reads of a half is those rows in fractal order: the writer's stride is the reader's aligned row count |
| Swizzle.TileOfIsBijection | csrc/batch_matmul_transpose/op_kernel/batch_matmul_transpose_kernel.cpp:88-120 | the serpentine order meets every (batch, row tile, column tile) at most once: the tile determines its number, for both directions and every swizzle count of at least one |
| Swizzle.IndexOfIsInverse | csrc/batch_matmul_transpose/op_kernel/batch_matmul_transpose_kernel.cpp:88-120 | ... and at least once: every tile has a number within the launch |
| Swizzle.BandsJoin | csrc/batch_matmul_transpose/op_kernel/batch_matmul_transpose_kernel.cpp:97-104 | where one band ends and the next begins the walk stays at the same index across |
| MatmulSpec.Problem.RotatedIsSpan | csrc/batch_matmul_transpose/op_kernel/batch_matmul_transpose_kernel.cpp:256-262 | the rotated order of k blocks visits the blocks from the core's start to the end and then those before |
| MatmulSpec.Problem.RotationGivesSum | csrc/batch_matmul_transpose/op_kernel/batch_matmul_transpose_kernel.cpp:256-262 | whatever the rotation, all k blocks together give the full sum |
| TileMath.MadStep | csrc/batch_matmul_transpose/op_kernel/batch_matmul_transpose_kernel.cpp:575-602 | multiplying n more values of a block into the accumulator adds their share of the sum |
| PpMatmulTiles.LoadA | csrc/batch_matmul_transpose/op_kernel/batch_matmul_transpose_kernel.cpp:176-209 | a load of A brings the values of the right rows and k values into L1, from the strides the kernel uses |
| NzFormat.NzTile | csrc/batch_matmul_transpose/op_kernel/batch_matmul_transpose_kernel.cpp:156-166 | in NZ format a tile that starts at a whole group of sixteen columns lies as the kernel's offset says, entry by entry as in the matrix itself |
| NzFormat.NzGroup | csrc/batch_matmul_transpose/op_kernel/batch_matmul_transpose_kernel.cpp:156-166 | column c of group g of a matrix of H rows stands at g * 16 * H + row * 16 + c |
| NzFormat.NzApart | csrc/batch_matmul_transpose/op_kernel/batch_matmul_transpose_kernel.cpp:156-166 | different entries of a matrix in NZ format have different places |
| PpMatmulTiles.LoadB | csrc/batch_matmul_transpose/op_kernel/batch_matmul_transpose_kernel.cpp:151-253 | the same for B, stored by rows or by columns, plain or in NZ format |
| PpMatmulKernel.KPartFits | csrc/batch_matmul_transpose/op_kernel/batch_matmul_transpose_kernel.cpp:140-143 | both operands of a step fit an L0 buffer, and the step of k is positive if and only if the larger rounded side of the tile is at most 1024 |
| PpMatmulKernel.PpMatmulEinSum.LoadL1 | csrc/batch_matmul_transpose/op_kernel/batch_matmul_transpose_kernel.cpp:295-376 | a load needs the slot's flag to be down and puts it up; the slot then holds exactly the block asked for |
| PpMatmulKernel.PpMatmulEinSum.Step | csrc/batch_matmul_transpose/op_kernel/batch_matmul_transpose_kernel.cpp:256-606 | each step prefetches the next block into the other slot and multiplies the one that is waiting: the current buffer holds exactly the tile to be multiplied |
| PpMatmulKernel.PpMatmulEinSum.MultiplyBlock | csrc/batch_matmul_transpose/op_kernel/batch_matmul_transpose_kernel.cpp:497-604 | the two-level split of k, on alternating L0 buffers, adds the whole block's share |
| PpMatmulKernel.PpMatmulEinSum.CopyCcToGm | csrc/batch_matmul_transpose/op_kernel/batch_matmul_transpose_kernel.cpp:608-619 | the accumulator goes to its rows of C and nothing else changes |
| PpMatmulKernel.PpMatmulEinSum.Process | csrc/batch_matmul_transpose/op_kernel/batch_matmul_transpose_kernel.cpp:122-629 | a core's strided walk leaves every tile it owns complete in C and all else untouched; no event flag is set twice, and all are down at the end |
| PpMatmulOutput.OwnerIsTile | csrc/batch_matmul_transpose/op_kernel/batch_matmul_transpose_kernel.cpp:132-139 | a tile covers exactly the cells of C whose owner it is |
| PpMatmulKernel.Launch | csrc/batch_matmul_transpose/op_kernel/batch_matmul_transpose_kernel.cpp:122-629 | on all cores: C[i, b, j] is the sum over k of A[i, b, k] * B[b, k, j], everywhere, whatever C held before |
| PpMatmulTiling.End | csrc/batch_matmul_transpose/op_host/tiling/tiling_data.cpp:108-133 | the k tile size is a multiple of the block size, both tiles of a step fit half of L1, and it is positive exactly when one block's worth fits |
| PpMatmulTiling.RegionsDisjoint | csrc/batch_matmul_transpose/op_kernel/batch_matmul_transpose_kernel.cpp:77-81 | with that size the four tile regions of L1 are disjoint and inside the buffer |
| PpMatmulTiling.LoadedTileFits | csrc/batch_matmul_transpose/op_kernel/batch_matmul_transpose_kernel.cpp:140-168 | a loaded tile, padded to whole sixteens, stays inside its region |
| MlaHandshake.NeverReadBeforeWritten | csrc/mla_preprocess/op_kernel/mla_preprocess_mix_bf16.hpp:1958-1963 | in every interleaving of all cores a vector core only works on a tile its cube core has written |
| MlaHandshake.NeverOverwrittenTooEarly | csrc/mla_preprocess/op_kernel/mla_preprocess_mix_bf16.hpp:1757-1759 | while a cube core writes a tile of a matmul no vector core is still in an earlier matmul, whose tiles share the buffer |
| MlaHandshake.PendingIsBounded | csrc/mla_preprocess/op_kernel/mla_preprocess_mix_bf16.hpp:1958-1963 | at most 9 tile signals are pending, and 5 more for each earlier matmul whose tile count is no multiple of five |
| MlaHandshake.PendingInKernel | csrc/mla_preprocess/op_kernel/mla_preprocess_mix_bf16.hpp:2352-2356 | so at most 9 in the first matmul of the kernel and 14 in the second |
| MlaHandshake.NeverStuck | csrc/mla_preprocess/op_kernel/mla_preprocess_mix_bf16.hpp:2122-2130 | with the throttle, the barrier and the start signals no reachable state short of the end is a deadlock, including iterations where a vector half is empty |
| MlaHandshake.RunsAreBounded | csrc/mla_preprocess/op_kernel/mla_preprocess_mix_bf16.hpp:1958-1963 | no run is longer than the fixed number of steps there are, and a finished run has made them all |
| MlaHandshake.EndsDrained | csrc/mla_preprocess/op_kernel/mla_preprocess_mix_bf16.hpp:2352-2356 | at the end no tile signal is pending; exactly the leftover return signals are out |
| MlaHandshake.SameTurns | csrc/mla_preprocess/op_kernel/mla_preprocess_mix_bf16.hpp:1755-1772 | a cube core, which walks the tiles by the smaller of tile count and core count and does nothing beyond that, makes as many turns as each of its vector cores, which walk by the core count |
| MlaHandshake.LaunchStarts | csrc/mla_preprocess/op_kernel/mla_preprocess_mix_bf16.hpp:2105 | so every launch starts in a state of the machine: the tile count of a core in a matmul is that of its cube core's loop and of both vector cores' loops |
| MlaHandshake.SameTile | csrc/mla_preprocess/op_kernel/mla_preprocess_mix_bf16.hpp:2021-2022 | in each of its turns a vector core is at the tile at which its cube core is in the same turn, although their strides differ |
| MlaHandshake.EveryTileComesUp | csrc/mla_preprocess/op_kernel/mla_preprocess_mix_bf16.hpp:1772 | every tile comes up in some turn of some cube core |
| MlaHandshake.TilesDiffer | csrc/mla_preprocess/op_kernel/mla_preprocess_mix_bf16.hpp:1683-1716 | different iterations or different cores that walk by one stride never share a tile |
| MlaHandshake.HalvesJoin | csrc/mla_preprocess/op_kernel/mla_preprocess_mix_bf16.hpp:2114-2120 | every row of a tile belongs to exactly one vector core; one half is empty only for a single row |
| Rope.RopeConcatTiling | csrc/mla_preprocess/op_host/mla_preprocess.cpp:404-434 | for every token, head, core count and buffer size the runs of heads tile all heads, on no more cores than given; the last core's run is positive and not the longest |
| Rope.GatherAngles | csrc/mla_preprocess/op_kernel/mla_preprocess_mix_bf16.hpp:98-124 | the run-length copy gives head h the cos and sin rows of token h / headNumQ, whatever part of a token a loop begins or ends in |
| Rope.Rotate | csrc/mla_preprocess/op_kernel/mla_preprocess_mix_bf16.hpp:125-143 | the vector instructions - exchanged halves, sign row, two products and a sum - compute the rotation of the row |
| Rope.RotationScales | csrc/mla_preprocess/op_kernel/mla_preprocess_mix_bf16.hpp:134-142 | each pair of columns half a row apart is rotated: its length is scaled by that of the angle |
| Rope.UnitTurns | csrc/mla_preprocess/op_kernel/mla_preprocess_mix_bf16.hpp:125-143 | the direction of the turn: the row with 1 in column d of the first half goes to cos in that column and sin in the column 32 on, the row with 1 there to minus sin and cos |
| Rope.Process | csrc/mla_preprocess/op_kernel/mla_preprocess_mix_bf16.hpp:73-158 | a core turns exactly its run of heads, in order, whatever other cores have done, and touches no others |
| Rope.Launch | csrc/mla_preprocess/op_kernel/mla_preprocess_mix_bf16.hpp:73-158 | all cores together turn every head h of every token once, by the rows of token h / headNumQ: column d becomes q[d] * cos[d] - q[d + 32] * sin[d], column d + 32 becomes q[d + 32] * cos[d + 32] + q[d] * sin[d + 32] |
| DraftTree.Draft.ParentsComeFirst | csrc/build_tree/op_kernel/build_tree_kernel.cpp:151-161 | in a well-formed draft every node comes after its parent; this is what ends the ancestor walk |
| DraftTree.Draft.ParentIs | csrc/build_tree/op_kernel/build_tree_kernel.cpp:151-161 | whose child a node is: for candidate c with t * topk <= c < (t + 1) * topk it is the root if and only if c < topk, and otherwise the node of candidate parents[t] |
| DraftTree.ChildrenAreAll | csrc/build_tree/op_kernel/build_tree_kernel.cpp:148-174 | the list of a node's children has each child once, in increasing order |
| DraftTree.LinksListChildren | csrc/build_tree/op_kernel/build_tree_kernel.cpp:163-173 | following next-token and then the sibling links lists exactly that list |
| DraftTree.TwoNodes | python/sgl_kernel_npu/sgl_kernel_npu/speculative.py:35-50 | for two draft tokens and topk 1 the short cut writes the links of the general case |
| BuildTree.LinkTokens | csrc/build_tree/op_kernel/build_tree_kernel.cpp:148-175 | the descending loop with front insertion leaves the first-child and next-sibling arrays of the parent table, whose entries `ParentIs` gives, and the running numbers |
| BuildTree.Ancestors | csrc/build_tree/op_kernel/build_tree_kernel.cpp:176-192 | the walk along that parent table to the root ends; its length is the node's depth and its marks are exactly the root, the ancestors and the node |
| BuildTreeKernel.KernalBuildTree.SeqTreeIdx | csrc/build_tree/op_kernel/build_tree_kernel.cpp:100-103 | the running sum is where the request's mask rows begin |
| BuildTreeKernel.KernalBuildTree.Compute | csrc/build_tree/op_kernel/build_tree_kernel.cpp:121-201 | one node: its mask row goes to its place, its position is length plus depth, and node 0 makes the links |
| BuildTreeKernel.KernalBuildTree.Process | csrc/build_tree/op_kernel/build_tree_kernel.cpp:86-118 | a core's requests are written behind those of the cores before it, and nothing else changes |
| BuildTreeLaunch.RangesTileBatch | csrc/build_tree/op_kernel/build_tree_kernel.cpp:43-50 | the big and small core shares lie one behind the other and cover the batch |
| BuildTreeLaunch.Launch | csrc/build_tree/op_host/build_tree.cpp:20-45 | all cores of the launch leave the outputs of all requests |
| BuildTreeLaunch.NodesHeld | csrc/build_tree/op_kernel/build_tree_kernel.cpp:203-220 | after the launch every node of every request has position length + depth, its number, its first child and its next sibling; no later request disturbs them |
| BuildTreeLaunch.MaskHeld | csrc/build_tree/op_kernel/build_tree_kernel.cpp:129-131 | in the row of every node of every request exactly its ancestors and itself are marked |
| BuildTreeLaunch.CachedPlacesStay | csrc/build_tree/op_kernel/build_tree_kernel.cpp:129-131 | the places for the cached tokens before each row are not written |
| BuildTreeLaunch.RootHeld | csrc/build_tree/op_kernel/build_tree_kernel.cpp:142-147 | after the launch the root of every request stands at its sequence length and its mask row marks itself only |
| BuildTreeLaunch.NodeBelowParent | csrc/build_tree/op_kernel/build_tree_kernel.cpp:148-193 | after the launch, in terms of the flat inputs: node i of request b with c = selected[b * (d - 1) + i - 1] in group t hangs from the root if and only if c < topk, otherwise from the node p with selected[b * (d - 1) + p - 1] = parents[b * (topk * (depth - 1) + 1) + t]; its position is one more than its parent's, and its mask row is its parent's and itself |
| MaskLayout.MaskWritesInOrder | csrc/build_tree/op_kernel/build_tree_kernel.cpp:99-131 | the mask rows of the whole batch lie one behind the other: they are disjoint |
| VerifyTree.AcceptedMatches | python/sgl_kernel_npu/sgl_kernel_npu/speculative.py:180-201 | the accepted way starts at the root, each node's token equals the target at its parent, and it cannot be extended |
| VerifyTree.AcceptedIsLongest | python/sgl_kernel_npu/sgl_kernel_npu/speculative.py:180-201 | if siblings carry distinct tokens every other matching way is a beginning of the accepted one |
| VerifyTree.PathDepth | python/sgl_kernel_npu/sgl_kernel_npu/speculative.py:180-201 | the k-th node of a matching way has depth k |
| VerifyTree.VerifyRow | python/sgl_kernel_npu/sgl_kernel_npu/speculative.py:169-207 | one request: the accepted indices are the accepted way, their number is its length minus one, and the predictions on it are the targets |
| VerifyTree.VerifyTreeGreedy | python/sgl_kernel_npu/sgl_kernel_npu/speculative.py:167-208 | a whole batch, requests sharing the flat prediction array: every row as above and nothing else changed |
| VerifyTree.VerifyTwo | python/sgl_kernel_npu/sgl_kernel_npu/speculative.py:149-165 | the short cut for two tokens accepts what the general way accepts |
| BuildAndVerify.BuiltBatchOk | csrc/build_tree/op_kernel/build_tree_kernel.cpp:203-220 | whatever the outputs held before, the numbers and links that the build launch leaves are what the verifier requires of every request |
| BuildAndVerify.VerifiedOnBuiltTree | python/sgl_kernel_npu/sgl_kernel_npu/speculative.py:167-208 | greedy verification on a built tree: the accepted way matches the targets from the root, cannot be extended, and with distinct siblings begins with every matching way |
| AllocExtend.SlotCongruent | csrc/alloc_extend/op_kernel/alloc_extend_kernel.cpp:111-149 | every slot is congruent to the token's logical position modulo the page size, given that the last location is |
| AllocExtend.SlotsDistinct | csrc/alloc_extend/op_kernel/alloc_extend_kernel.cpp:111-149 | no two tokens of the batch share a slot, when free pages are distinct and none is in use |
| AllocExtend.PageIsUsed | csrc/alloc_extend/op_kernel/alloc_extend_kernel.cpp:83-108 | every free page below the total is used, by tokens of exactly one request |
| AllocExtend.OnlyThosePages | csrc/alloc_extend/op_kernel/alloc_extend_kernel.cpp:83-108 | no token uses a page behind the total: the pages used are a prefix |
| AllocExtendKernel.KernelAllocExtent.Sums | csrc/alloc_extend/op_kernel/alloc_extend_kernel.cpp:77-91 | the running sums are the starts of the request's output piece and pages |
| AllocExtendKernel.KernelAllocExtent.Compute | csrc/alloc_extend/op_kernel/alloc_extend_kernel.cpp:71-157 | the three parts - the rest of the old page, full pages, a last partial page - fill the request's slots by the per-token formula; the page total is stored exactly when the last request reaches the third part |
| AllocExtendKernel.PiecesTile | csrc/alloc_extend/op_kernel/alloc_extend_kernel.cpp:106-107 | the output pieces tile the output: every place belongs to exactly one token |
| AllocExtendKernel.KernelAllocExtent.Process | csrc/alloc_extend/op_kernel/alloc_extend_kernel.cpp:49-56 | a core serves the requests in its stride and leaves all others' pieces as they were; it stores the page total exactly when it has the last request and that reaches the third part |
| AllocExtendKernel.Launch | csrc/alloc_extend/op_kernel/alloc_extend_kernel.cpp:49-56 | on all cores every token of every request has its slot, whatever the output held before; the page total is stored exactly when the last request reaches the third part, and left as it was otherwise |
| AssignCache.LastChunk | csrc/assign_cache_op/op_kernel/assign_cache_op.cpp:94-107 | the kernel's chunk count and tail length name the last chunk of a row and its size |
| AssignCacheRing.OneFlagUp | csrc/assign_cache_op/op_kernel/assign_cache_op.cpp:117-131 | for all rows, at every moment at most one flag of the ring is up, and none counts beyond one |
| AssignCacheRing.WaiterHasTurn | csrc/assign_cache_op/op_kernel/assign_cache_op.cpp:117-122 | a row gets past its wait only when its turn in the ring has come: turns count the non-empty rows, going round the cores, each core taking its non-empty rows in order |
| AssignCacheProgress.RunsAreBounded | csrc/assign_cache_op/op_kernel/assign_cache_op.cpp:89-140 | every step uses up moves of the row it belongs to, so every run ends |
| AssignCacheProgress.NeverStuck | csrc/assign_cache_op/op_kernel/assign_cache_op.cpp:117-131 | a ring that closes never deadlocks |
| AssignCacheProgress.FinishesExactlyWhenRingCloses | csrc/assign_cache_op/op_kernel/assign_cache_op.cpp:89-131 | whatever the rows are, a launch can finish if and only if no row has anything to copy, or row 0 has, every core has as many non-empty rows as turns of the ring, and the last row, if not empty, is on the core of the last turn |
| AssignCacheProof.FinishedIsCopied | csrc/assign_cache_op/op_kernel/assign_cache_op.cpp:84-141 | in every interleaving of the cores a finished run has dst[row.dst + i] = src[row.src + i] for every row and every i below its length, and every place outside all rows as before, whichever rows are empty, when no rounded tail reaches a row that it can harm: one of several chunks whose turn is less than a round later, or one whose turn is less than a round earlier |
| AssignCacheLimits.RightExactlyWhenSpillsAreSafe | csrc/assign_cache_op/op_kernel/assign_cache_op.cpp:104-139 | of all launches that can finish, the kernel is right on every destination and in every run if and only if no rounded tail reaches a row that it can harm |
| AssignCacheLimits.WrongRun | csrc/assign_cache_op/op_kernel/assign_cache_op.cpp:104-139 | otherwise, from every destination whose first place for the later row differs from the source, there is a run in which all cores read exactly what stands there and which ends with the old value at that place |
| AssignCacheLimits.SpillGoesWrong | csrc/assign_cache_op/op_kernel/assign_cache_op.cpp:84-141 | a concrete launch that goes wrong on any two or more cores: 16-bit elements, chunks of 48 KB, destination rows of 24592 places; the first row is the last place of its destination row, the second begins behind it and is one element longer than a chunk |
| AssignCacheLimits.NoneEmptyCloses | csrc/assign_cache_op/op_kernel/assign_cache_op.cpp:89-131 | if only the last row may be empty the ring closes |
| AssignCacheLimits.SafeInRowOrder | csrc/assign_cache_op/op_kernel/assign_cache_op.cpp:89-139 | then the rows that a tail can harm are those of several chunks less than one round of rows behind |
| AssignCacheLimits.EmptyRowMustBeLast | csrc/assign_cache_op/op_kernel/assign_cache_op.cpp:95-131 | special case of one empty row: the launch can finish if and only if that row is the last or, on one core, not the first |
| AssignCacheLimits.FirstRowMustStart | csrc/assign_cache_op/op_kernel/assign_cache_op.cpp:117-122 | if row 0 is empty the ring closes only when all rows are |
| AssignCacheLimits.TwoEmptyRowsClose | csrc/assign_cache_op/op_kernel/assign_cache_op.cpp:95-131 | rows 1 and 2 of four empty on two cores: the ring closes |
| AssignCacheLimits.LaterRowGoesFirst | csrc/assign_cache_op/op_kernel/assign_cache_op.cpp:95-131 | rows 1 and 4 of five empty on two cores: row 3 is served before row 2 |
| CacheLocAssign.CacheLocAssignKernel.GetCacheIdx | csrc/cache_location_assign/op_kernel/cache_loc_assign_kernel.cpp:177-183 | the incremental sum is where the request's locations begin |
| CacheLocAssign.CacheLocAssignKernel.ProcessForTokenPoolAssign | csrc/cache_location_assign/op_kernel/cache_loc_assign_kernel.cpp:82-93 | a core's requests have their locations in the pool, and nothing outside the given ranges has changed, though five tokens are written for each request |
| CacheLocAssign.CacheLocAssignKernel.ProcessForCacheUpdate | csrc/cache_location_assign/op_kernel/cache_loc_assign_kernel.cpp:95-114 | the list holds every request's tokens, and is unchanged behind the part in use |
| CacheLocAssign.SplitTiles | csrc/cache_location_assign/op_kernel/cache_loc_assign_kernel.cpp:39-53 | the cores' shares of the requests lie one behind the other and cover the batch |
| CacheLocAssign.CacheLocAssign | csrc/cache_location_assign/op_kernel/cache_loc_assign_kernel.cpp:82-93 | assigning on any number of cores puts every location in its place and changes only the given ranges |
| CacheLocAssign.CacheLocUpdate | csrc/cache_location_assign/op_kernel/cache_loc_assign_kernel.cpp:95-114 | reading back on one core |
| CacheLocAssign.AssignedMeans | csrc/cache_location_assign/op_kernel/cache_loc_assign_kernel.cpp:139-158 | what assigning leaves: place idx[r] * rowSize + start[r] + k of the pool, for start[r] + k < end[r], holds the k-th location of request r, which stands behind those of the requests before it |
| CacheLocAssign.AssignedElsewhere | csrc/cache_location_assign/op_kernel/cache_loc_assign_kernel.cpp:154-158 | every place of a named row outside start .. end, and every row that no request names, is as before |
| CacheLocAssign.UpdatedMeans | csrc/cache_location_assign/op_kernel/cache_loc_assign_kernel.cpp:161-175 | what reading back leaves: the k-th location of request r is what place idx[r] * rowSize + start[r] + k of the pool holds |
| CacheLocAssign.RoundTrip | csrc/cache_location_assign/op_kernel/cache_loc_assign_kernel.cpp:143-175 | assigning and then reading back returns the original list on the occupied prefix, whatever the list read into held |
| SgmvReduce.ReduceInStages | csrc/lora/op_kernel/sgmv_expand_kernel.cpp:266-294 | summing a lanes at a time and then b of the sums is summing a * b lanes at a time |
| SgmvReduce.ReduceJoins | csrc/lora/op_kernel/sgmv_expand_kernel.cpp:250-295 | tiles cut at whole groups can be reduced one by one |
| SgmvExpand.Stages | csrc/lora/op_kernel/sgmv_expand_kernel.cpp:266-294 | for ranks 8, 16, 32 and 64 the block and pair reductions with the kernel's repeat counts, over full and shorter tiles and with stale lanes behind them, give the sums of the rank's lanes |
| SgmvExpand.Compute | csrc/lora/op_kernel/sgmv_expand_kernel.cpp:250-295 | a tile of weights is multiplied with the repeated x and reduced into its place of the output tile; places before it are untouched |
| SgmvExpand.ExpandIsDot | csrc/lora/op_kernel/sgmv_expand_kernel.cpp:250-295 | output k is row k of the weights times x |
| SgmvKernel.LastTiles | csrc/lora/op_kernel/sgmv_expand_kernel.cpp:147-175 | the remaining outputs, cut into full tiles and a shorter one, are complete for every width whose product with the rank is a multiple of 64 |
| SgmvKernel.ExpandToken | csrc/lora/op_kernel/sgmv_expand_kernel.cpp:115-126 | one token: its slice of y becomes what it was plus W x, and nothing else changes |
| SgmvKernel.CopyInIndex | csrc/lora/op_kernel/sgmv_expand_kernel.cpp:131-145 | the adapter of a token is its entry in the adapter list with each entry repeated by its segment length; -1 behind the last segment |
| SgmvKernel.AdapterIs | csrc/lora/op_kernel/sgmv_expand_kernel.cpp:131-145 | a token whose number lies between the tokens of the first n segments and those of the first n + 1 has entry n of the adapter list |
| SgmvKernel.Launch | csrc/lora/op_kernel/sgmv_expand_kernel.cpp:97-128 | on all cores every token with an adapter has y + W x in its slice; tokens without one, and all other columns, keep their values |
| SgmvKernel.TokenGains | csrc/lora/op_kernel/sgmv_expand_kernel.cpp:97-128 | after the launch, in terms of the flat buffers: y[i * full + offset + n] is yIn there plus the sum over l below rank of w[a * rank * hidden + n * rank + l] * x[i * rank + l], a being the adapter of token i |
| SgmvKernel.OthersStay | csrc/lora/op_kernel/sgmv_expand_kernel.cpp:97-128 | columns outside the slice, and all columns of tokens without an adapter, are as before |

## Left out

Indexer

* Score computation (matrix product, weights, the halving sum of `DoReduce`), `-inf` as a float, and the `ProcessInvalid` path: scores are a function of the key.
* Masked batches with more queries than keys and keys at all, where the unsigned difference wraps; overflow of the 32-bit block counters.
* The sequence-length tables and layouts: lengths are inputs. `kHeadNum` is 1; the host fixes the group size at 64. The split is modelled for any group size that divides 512; that the vector core's output buffer, its initialisation and the fixed offset of the sorted blocks in it (lightning_indexer_service_vector.h:121-137) only fit 64 is not modelled.
* The overlap of pipes inside a core, the workspace offsets of the partial lists, and the split of a merge between two vector cores: rows are modelled one at a time, slots by core.
- IndexerRow.IndexRow: ties between equal scores are fixed by key index, because the sort unit's own rule for ties is not documented.
- LIVector.RowLane.ProcessVec: rows that see no key (`CleanInvalidOutput`) are not modelled, because they write a constant.
- SortAll.SortAll: lengths below 32 are not modelled, because the kernel then merges memory behind the buffer.
- KeyGather.LoadKeys: loads of more than two halves are not modelled, because the caller never asks for more than 256 rows; the load without page table is a special case with one page.

Matmul

* Transposed A, bias, int8 descaling and the padding of tiles to sixteen in fractal layout: tiles are matrices.
* The host's cost functions and choice of tile sizes and swizzle count: these are inputs with their bounds.
- PpMatmulKernel.Launch: tiles are at most 1024 wide, because beyond that the kernel's k step rounds to zero, and it divides by it.
- PpMatmulTiling.End: the quotient is exact, because the source's single-precision division is not modelled.
- PpMatmulKernel.PpMatmulEinSum.Process: loads and multiplications are taken in issue order, with event pairs as tokens that cannot be set twice; overlap in time is not modelled.

MLA

* The dequantisation arithmetic, quantisation and norm steps, swizzle direction 1 (never instantiated) and the per-token path, which uses a full barrier instead of the handshake.
* Rounding of the rotary embedding, and the layout of its output row.

Draft tree

* The `QLEN_ONLY` mask, whose offset in the kernel does not use the node, and the mask of the Python version, which fills its rows with true.
* The 16-bit mask size and 32-bit mask index of the kernel.
- BuildTree.Ancestors: needs a tree in which every node comes after its parent, because the kernel's walk does not end on others; linking is modelled for any draft.
- VerifyTree.VerifyRow: the accept row is at least as long as the tree is deep, because the Python code would index past it.

Allocator and copies

* Integer widths, and the local buffers' offsets and alignment.
- AllocExtendKernel.KernelAllocExtent.Compute: the lengths and last locations are read as they are in global memory, because the offsets of their local copies are not modelled: the kernel uses a byte count as an element index there (alloc_extend_kernel.cpp:64-75), so the copies lie behind the bytes reserved for them, where the copy of the free pages may land before they are read.
* Reads of the source behind a row's end; chunk sizes that are no multiple of 32 bytes.
- AssignCacheProof.FinishedIsCopied: rows lie in the destination in increasing order, and rounded tails inside the buffer, because row r's places start at r * tokenPoolLength_ and what lies behind the buffer is not part of this model.
- CacheLocAssign.CacheLocAssignKernel.ProcessForTokenPoolAssign: the aligned read of eight tokens is modelled as the five that are used.
- CacheLocAssign.CacheLocUpdate: runs on one core, because the host launches it so.

Other

* Float rounding and casts in the LoRA expand; the shrink kernels and the BGMV variants.
* Host wrappers, operator registration, DeepEP dispatch and combine, the Catlass wrappers, the memory saver.
