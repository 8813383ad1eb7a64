# Verified models of the support code

This project models the parts of the repository in which the order of things matters: the barrier
that the multi-core benchmarks wait at, the blocked and the multi-core matrix products, the JTAG
daisy chain, the Kanata pipeline trace, the parser for gdb's values, the small C library and the
memory of the simulator. Each model follows its source statement by statement, and the properties
are proved for all inputs, all schedules and all runs.

`dafny verify dfyconfig.toml` checks everything.

## Files

- `Arithmetic.dfy`: multiples, quotients and remainders.
- `Strided.dfy`: matrices behind a pointer and a leading dimension, inner products, and the predicate
  `Adds`: a piece of memory has gained exactly the multiplications of a box of rows, columns and inner
  indices. `AddsProduct` is C += A*B; `AddsProductMeans` says in plain terms what that is.
- `RegisterBlock.dfy`, `Packing.dfy`, `CacheBlock.dfy`: `mm.c` and `rb.h`, bottom up.
- `Barrier.dfy`: the barrier as interleaved statements of its threads.
- `TransposedMatmul.dfy`: `ae_matmul.c` as a state machine on top of that barrier.
- `Team.dfy`: cores that own disjoint rows, and the whole product they add up to.
- `WrapLoop.dfy` and `WrapAround.dfy` (`ck`), `Backward.dfy` (`bh`), `KHalves.dfy` (`dc`),
  `ChunkedMatmul.dfy` (`ce`), `CopiedMatmul.dfy` (`dm`), `ReferenceMatmul.dfy` (the simple product),
  `VectorAdd.dfy`: what the loops of one core compute, and how the work is shared out.
  `Accumulators.dfy` has the eight registers that `bh` and `ce` keep.
- `CorePrograms.dfy`: a machine of cores that run lists of statements side by side, on registers of
  their own, on C, on a shared array that they fill together, and on the barrier. Its theorems are
  about every interleaving and every fair schedule.
- `Kernels.dfy`: loops and register tiles laid out as such lists, and what they add to C.
  `SharedFills.dfy`: filling, calling the barrier, then working; the fills of `ce` and `dm`.
  `CellPrograms.dfy`: programs that update one cell after the other.
- `CeProgram.dfy`, `DmProgram.dfy`, `CkProgram.dfy`, `BhProgram.dfy`, `DcProgram.dfy`,
  `ReferenceProgram.dfy`, `VectorProgram.dfy`: the statements of each kernel on that machine, from
  the first statement of every core to the last.
- `DaisyChain.dfy`, `Kanata.dfy`, `GdbValues.dfy`, `Loader.dfy`.
- `Digits.dfy`, `Formatting.dfy`, `FormatLanguage.dfy`, `ReadBack.dfy`, `MemoryWords.dfy`: `syscalls.c`.

## How the code is read

- Matrix and vector elements are exact integers, so that sums may be regrouped.
- Matrices that a kernel only reads are values; the array it updates is a Dafny array, together with
  a base and a stride. `Conforms` asks for operands that lie inside their storage and, for C, for rows
  that do not overlap.
- Shared memory is sequentially consistent, one statement at a time; the two fences of `barrier` are
  taken as giving that.
- A multi-core kernel is there twice. As methods with its loops and variables, it is proved core by
  core (`AddsInto`: exactly these rows have gained their products, nothing else changed), and that the
  rows of the cores are a partition of all rows is a lemma of its own. As the list of its reads and
  writes it runs on the machine of `CorePrograms`, in every interleaving with the other cores, fills
  and barrier calls included (`CeEveryRun`, `DmEveryRun`, `CkEveryRun`, `BhEveryRun`, `DcEveryRun`,
  `ReferenceEveryRun` and the three for the vector additions). The lemmas `...MethodIsProgram` join
  the two: alone, both leave the same C. Only `ae_matmul.c` is a state machine of its own, because
  there the cores call the barrier while they multiply.
- A step of that machine is one access to C or to the shared array, or one product added to a
  register; only `C[q] += r`, on a cell that no other core touches, is one step with its read and its
  write. Elements of A and B are values, since nobody writes them.
- A TAP of the daisy chain is any deterministic transducer whose read command has no effect on it.
- The traversal of a `std::map` is in the order of the keys.

## What the code does that its comments or documentation do not say

- `rbb_daisychain.py` says that it reads TDO before every scan; it asks for it after the scan command.
  What is proved is what the code does: the next TAP sees, as TDI of a scan, what the TAP before shows
  after the same scan.
- `print_kanata` never looks at `valid_fetch`, never records COMMIT, and when it flushes it retires
  ids that it has never introduced. A new id at fetch that is also the id at decode, execute, memory
  or writeback, be that port valid or not, is opened in the trace and forgotten in the record
  (`ForgottenIff`, `FetchedIsOpen`; `FirstCallForgets` is a first call with all ids still 0). As long
  as the ports a call acts on hold different instructions, trace and record agree after every call
  exactly when every call moves its instructions in order and fetches new ones alone
  (`EveryPrefixAgreesIff`).
- The flag `-` of `vprintfmt` is announced as padding on the right. Strings it does pad there
  (`DashPadsStrings`); numbers it pads on the left, with dashes: what is printed is the number followed
  by padding exactly when the width is at most the number of its digits (`DashPadsBehindIff`).
- `%.0s` prints the whole string, because the `0` is taken for a flag (`PointZeroPrintsAll`). A
  precision that is written out limits a string exactly when it is not 0 (`PrecisionLimits`); one taken
  from the arguments with `*` always does (`StarLimits`).
- A negative number printed with a width and spaces has its sign in front of the padding, and is one
  character longer than the width says; `atol` does not read it back. `ReadsBack` is the exact
  condition.
- `vvadd0` computes what is left over with the length of a slice instead of the number of cores. It
  covers the vector exactly when the remainder is smaller than a slice; otherwise a gap stays unwritten.
- `vvadd1` adds every element once for every length, but its cores stay inside the vector exactly when
  the length is a multiple of 8*ncores (`AllStayInsideIff`).
- The loop over ii of `ck_matmul.c` ends for every lda and every start block. Among the multiples of 8
  it covers every column once exactly when lda is a multiple of 16 or is 8 (`OnceIff`); for the others
  column 8 is added at least twice (`OddTwice`, `CkWrong`).
- The loader takes the words of a section whose size is not a multiple of 4 from beyond its end, and
  then stores the remainder once more in the word behind (`LoadSection`). All bytes of the section are
  where they belong (`SectionBytes`), but it changes no word that is not its own exactly when the size
  is a multiple of 4 (`OwnWordsIff`, `SecondCopy`).
- A quoted string with the contents `{` is a brace to the parser of gdb's values, and lists cannot hold
  lists (`AtomsReadBack`, `NoListInList`).

## Model

| member | source | states |
|---|---|---|
| Strided.AddsProductMeans | riscv-tests/benchmarks/mm/mm.c:145-152 | the predicate used for C += A*B holds if and only if every cell of the window gained its inner product and every other address is unchanged |
| Strided.DotMeans | riscv-tests/benchmarks/mm/mm.c:18-28 | the inner products in it are the sums of products of the cells in memory, one step apart in the row and a leading dimension apart in the column |
| Strided.AddsSlices | riscv-tests/mt/dc_matmul.c:36-156 | two slices of the inner index may be added in either order |
| RegisterBlock.NaiveCell | riscv-tests/benchmarks/mm/mm.c:18-28 | the four accumulators add up to the plain inner product for every p |
| RegisterBlock.MmNaive | riscv-tests/benchmarks/mm/mm.c:11-31 | C += A*B on the m x n window and no other address changes |
| RegisterBlock.TileSums | riscv-tests/benchmarks/mm/rb.h:29-180 | the twenty accumulators after the loop unrolled by six and its tail are twenty complete inner products, for every p |
| RegisterBlock.KLoop | riscv-tests/benchmarks/mm/rb.h:3-210 | the 4 x 5 tile of C gains its product, nothing else changes |
| RegisterBlock.MmRb | riscv-tests/benchmarks/mm/mm.c:33-44 | tiles, right strip and bottom strip together update every cell exactly once: the same contract as mm_naive, for all sizes and strides |
| Packing.Repack | riscv-tests/benchmarks/mm/mm.c:46-72 | copies an m x p block between two strides, by eights and with a tail, and changes nothing else |
| Packing.PackedAt | riscv-tests/benchmarks/mm/mm.c:84-94 | in a packed buffer row i, column j of the matrix is in the cell that PackedIndex names |
| Packing.PackedContents | riscv-tests/benchmarks/mm/mm.c:84-94 | and every cell of the buffer holds the row and column that PackedCell names, so that nothing else is in it |
| Packing.PackedIndexInRange | riscv-tests/benchmarks/mm/mm.c:84-94 | every cell of a matrix has an in-range cell of the packed buffer, from which it is recovered: the layout is injective |
| Packing.PackedIndexCovers | riscv-tests/benchmarks/mm/mm.c:84-94 | every cell of the packed buffer is used: the layout is onto |
| Packing.PackBlocks | riscv-tests/benchmarks/mm/mm.c:84-94 | the packing loops leave every block of the matrix in its block of the buffer |
| Packing.UnpackBlocks | riscv-tests/benchmarks/mm/mm.c:140-142 | the unpacking loops copy the whole of a packed matrix into the window, and change nothing else |
| Packing.Restored | riscv-tests/benchmarks/mm/mm.c:92-142 | unpacking what was packed from a window restores every cell of the window as it was then and leaves every other address as it is now |
| Packing.RestoredAtOnce | riscv-tests/benchmarks/mm/mm.c:92-142 | right after packing it changes nothing |
| CacheBlock.PackedProducts | riscv-tests/benchmarks/mm/mm.c:102-105 | the inner products of packed blocks are slices of the inner products of the matrices |
| CacheBlock.CbBlock | riscv-tests/benchmarks/mm/mm.c:100-113 | one packed block of c gains complete inner products, the ragged end of the inner index included |
| CacheBlock.InPlace | riscv-tests/benchmarks/mm/mm.c:115-124 | the columns right of the last block gain their products in place, in slices of the inner index |
| CacheBlock.CbBottom | riscv-tests/benchmarks/mm/mm.c:126-138 | the rows below the last block gain their products, ragged in all three dimensions |
| CacheBlock.FinishedPacked | riscv-tests/benchmarks/mm/mm.c:96-114 | the finished blocks are the packed form of c plus the product |
| CacheBlock.CopiedBackAdds | riscv-tests/benchmarks/mm/mm.c:140-142 | copying the finished blocks back is adding their products to c |
| CacheBlock.MmCb | riscv-tests/benchmarks/mm/mm.c:74-143 | the packed path: C += A*B, nothing else of c changes |
| CacheBlock.Mm | riscv-tests/benchmarks/mm/mm.c:145-152 | mm adds A*B to the window and changes no other address, on both paths, for all m, n, p and strides |
| Barrier.StepInv | riscv-tests/benchmarks/common/util.h:60-78 | every statement of every thread keeps the invariant: a round is open or exactly one thread is closing it |
| Barrier.Safety | riscv-tests/benchmarks/common/util.h:66-75 | in every interleaving and after any number of reuses, no thread has returned from its r-th call before all have entered theirs, and no two are more than a round apart |
| Barrier.CountIsArrivals | riscv-tests/benchmarks/common/util.h:62-75 | count is the number of arrivals of the round, never above ncores, and sense is the parity of the completed rounds |
| Barrier.ResetErasesNothing | riscv-tests/benchmarks/common/util.h:69-73 | when count is reset everybody has arrived and waits: no arrival of the next round is lost |
| Barrier.SomeoneMoves | riscv-tests/benchmarks/common/util.h:69-75 | in every reachable state some thread has a step other than a futile look at sense |
| Barrier.StepDecreases | riscv-tests/benchmarks/common/util.h:69-75 | every such step lowers a measure local to the round or completes the round |
| Barrier.EveryCallReturns | riscv-tests/benchmarks/common/util.h:60-78 | under a fair schedule every call returns |
| Barrier.Machine.Execute | riscv-tests/benchmarks/common/util.h:68-74 | the statements on the statics and the thread's own variable take exactly the step of the state machine |
| Barrier.Machine.ExecuteAll | riscv-tests/benchmarks/common/util.h:60-78 | any interleaving of such statements is a run of the state machine |
| TransposedMatmul.TransposeSeen | riscv-tests/mt/ae_matmul.c:38-56 | whenever a core is past the last barrier of the transposition, all of BB is the transpose of B, whoever stored it |
| TransposedMatmul.EveryRun | riscv-tests/mt/ae_matmul.c:34-110 | over every interleaving: reads of BB see the transpose, and when all cores have returned C is A*B and nothing else of C changed |
| TransposedMatmul.SameBarrierCalls | riscv-tests/mt/ae_matmul.c:43-106 | a core that returns has made lda + lda/4 * lda/ncores barrier calls, the same for all |
| TransposedMatmul.SomeoneMoves | riscv-tests/mt/ae_matmul.c:34-110 | the cores never deadlock |
| TransposedMatmul.EveryFairRun | riscv-tests/mt/ae_matmul.c:34-110 | under every fair schedule all cores return, with C equal to A*B |
| TransposedMatmul.AccessesInRange | riscv-tests/mt/ae_matmul.c:41-105 | no step of any run leaves BB or C |
| CorePrograms.ReadSees | riscv-tests/mt/dm_matmul.c:17-51 | a core about to read the shared array finds the value meant for the address, because some core stored it before an earlier barrier call and nobody stores anything else |
| CorePrograms.EveryRead | riscv-tests/mt/ce_matmul.c:38-64 | so it is in every state of every interleaving |
| CorePrograms.AsIfAlone | riscv-tests/mt/ce_matmul.c:38-156 | after any interleaving a core's registers and its cells of C are what they would be had it run alone with the shared array filled |
| CorePrograms.CallsMade | riscv-tests/mt/ce_matmul.c:39-44 | a core that is done has made exactly the barrier calls of its program, and that many rounds are complete |
| CorePrograms.InterleavedProduct | riscv-tests/mt/ce_matmul.c:38-156 | cores that alone add the product into their own rows have added the whole product when all are done, in every interleaving |
| CorePrograms.SomeoneMoves | riscv-tests/mt/ce_matmul.c:38-156 | cores with equally many barrier calls never deadlock |
| CorePrograms.RankFalls | riscv-tests/mt/ce_matmul.c:38-156 | every step that changes anything brings the end nearer |
| CorePrograms.FairProduct | riscv-tests/mt/ce_matmul.c:38-156 | under every fair schedule all cores end, and then C has gained A*B |
| CorePrograms.LostUpdate | riscv-tests/mt/cf_matmul.c:46-51 | two cores that add into one cell without a barrier can lose one of the sums: the cells have to be apart |
| Kernels.TileAdds | riscv-tests/mt/bh_matmul.c:23-57 | loading a tile into registers, summing up, and storing it adds exactly its box of multiplications |
| Kernels.FreshAdds | riscv-tests/mt/ce_matmul.c:54-153 | so does summing up from zero and adding the registers to C |
| SharedFills.FillsThenWork | riscv-tests/mt/ce_matmul.c:38-44 | programs that fill the whole array with equally many barrier calls and then work on their own cells meet the conditions of the theorems |
| SharedFills.TeamRun | riscv-tests/mt/ce_matmul.c:38-156 | a team that fills, waits, and multiplies on its own rows leaves C += A*B in every interleaving |
| SharedFills.FreeRun | riscv-tests/mt/ck_matmul.c:6-61 | so does one without a barrier, each core on its own rows |
| CeProgram.CeEveryRun | riscv-tests/mt/ce_matmul.c:38-156 | over every interleaving of the cores, from the first store into BB to the last addition to C: every read of BB finds the transpose, and when all are done C has gained A*B and nothing else changed |
| CeProgram.CeFairRun | riscv-tests/mt/ce_matmul.c:38-156 | and if no core is starved all of them end |
| CeProgram.CeMethodIsProgram | riscv-tests/mt/ce_matmul.c:46-156 | the method and the list of statements leave the same C |
| DmProgram.DmEveryRun | riscv-tests/mt/dm_matmul.c:18-191 | over every interleaving of the cores, copy, barrier and multiplication: every read of B1 finds the cell of B, and when all are done C has gained A*B and nothing else changed |
| DmProgram.DmFairRun | riscv-tests/mt/dm_matmul.c:18-191 | and if no core is starved all of them end |
| DmProgram.DmMethodIsProgram | riscv-tests/mt/dm_matmul.c:52-191 | the method and the list of statements leave the same C |
| CkProgram.CkEveryRun | riscv-tests/mt/ck_matmul.c:14-61 | over every interleaving of the cores, for every ncores and all sizes that fit: when all are done C has gained A*B and nothing else changed |
| CkProgram.CkFairRun | riscv-tests/mt/ck_matmul.c:14-61 | and if no core is starved all of them end |
| CkProgram.CkMethodIsProgram | riscv-tests/mt/ck_matmul.c:14-61 | the method and the list of statements leave the same C |
| BhProgram.BhEveryRun | riscv-tests/mt/bh_matmul.c:14-97 | the same for bh, for every ncores and every lda divisible by 8 |
| BhProgram.BhFairRun | riscv-tests/mt/bh_matmul.c:14-97 | and if no core is starved all of them end |
| BhProgram.BhMethodIsProgram | riscv-tests/mt/bh_matmul.c:14-97 | the method and the list of statements leave the same C |
| DcProgram.DcEveryRun | riscv-tests/mt/dc_matmul.c:25-168 | the same for dc, for every ncores and every lda, in both branches |
| DcProgram.DcFairRun | riscv-tests/mt/dc_matmul.c:25-168 | and if no core is starved all of them end |
| DcProgram.DcMethodIsProgram | riscv-tests/mt/dc_matmul.c:25-168 | the method and the list of statements leave the same C |
| CellPrograms.CellsRun | riscv-tests/benchmarks/mt-matmul/matmul.c:15-22 | cores that update different cells, each from its own value alone, have in every interleaving updated exactly these when all are done |
| ReferenceProgram.ReferenceEveryRun | riscv-tests/benchmarks/mt-matmul/matmul.c:9-23 | over every interleaving: when all cores are done exactly the rows below ncores*(lda/ncores) are set to those of A*B |
| ReferenceProgram.ReferenceFairRun | riscv-tests/benchmarks/mt-matmul/matmul.c:9-23 | and if no core is starved all of them end |
| ReferenceProgram.ReferenceMethodIsProgram | riscv-tests/benchmarks/mt-matmul/matmul.c:9-23 | the method and the list of statements leave the same C |
| VectorProgram.Vvadd3EveryRun | riscv-tests/mt/vvadd3.c:4-22 | over every interleaving, also when z is x or y: the indices with an owner hold the sums of the original elements, the others what they held |
| VectorProgram.Vvadd0EveryRun | riscv-tests/mt/vvadd0.c:4-14 | the same for vvadd0 |
| VectorProgram.Vvadd1EveryRun | riscv-tests/mt/vvadd1.c:4-17 | the same for vvadd1, for every length, on vectors that have the cells it touches |
| VectorProgram.VectorFairRun | riscv-tests/benchmarks/mt-vvadd/mt-vvadd.c:54-69 | if no core is starved all of them end |
| VectorProgram.VectorMethodIsProgram | riscv-tests/mt/vvadd3.c:4-22 | a method that adds the indices of a core leaves what the list of its statements leaves |
| Team.TeamAdds | riscv-tests/mt/bh_matmul.c:6-97 | methods that add the product into the rows of a partition, called one after the other in any order, add the whole product; the interleavings are in SharedFills.FreeRun |
| WrapLoop.VisitAll | riscv-tests/mt/ck_matmul.c:18-20 | the loop over ii ends for every lda and every start block below lda, after the blocks Visits lists |
| WrapLoop.OnceIff | riscv-tests/mt/ck_matmul.c:18-22 | among the multiples of 8 exactly the multiples of 16, and 8, have every column covered once, from every start block |
| WrapLoop.OddTwice | riscv-tests/mt/ck_matmul.c:18-22 | for the others column 8 is covered by the block at 0 and by the block at 8 |
| WrapAround.CkColumns | riscv-tests/mt/ck_matmul.c:18-60 | the loop over ii adds to every column its product as often as its blocks cover it |
| WrapAround.CkTile | riscv-tests/mt/ck_matmul.c:23-56 | the eight cells of a 4 x 2 tile gain complete inner products |
| WrapAround.CkMatmul | riscv-tests/mt/ck_matmul.c:6-61 | for every lda divisible by 8 and every ncores, one core adds to its blocks of rows every column's product as often as the column is covered and changes nothing else; for the sizes that fit this is C += A*B on these rows |
| WrapAround.CkWrong | riscv-tests/mt/ck_matmul.c:18-60 | for the other multiples of 8 that is not C += A*B on these rows, whenever an inner product in column 8 is not 0 |
| WrapAround.CkPartition | riscv-tests/mt/ck_matmul.c:16-17 | the strided row blocks of the cores are a partition of the rows |
| WrapAround.CkTeam | riscv-tests/mt/ck_matmul.c:6-61 | the method called for all cores, one after the other in any order: C += A*B for the sizes that fit |
| Backward.ForwardSums | riscv-tests/mt/bh_matmul.c:32-48 | the sums taken through the running indices iB0 and iB1 are the slices of the inner products |
| Backward.BackwardSums | riscv-tests/mt/bh_matmul.c:73-84 | the sums taken from the last inner index to the first are the same slices |
| Backward.BhMatmul | riscv-tests/mt/bh_matmul.c:14-97 | one core adds the product to its half of the rows, forwards or backwards; cores above 1 do nothing |
| Backward.BhPartition | riscv-tests/mt/bh_matmul.c:14-63 | the halves are a partition of the rows for every ncores |
| Backward.BhTeam | riscv-tests/mt/bh_matmul.c:6-97 | the method called for all cores, one after the other in any order: C += A*B for every lda divisible by 8 |
| KHalves.DcTile | riscv-tests/mt/dc_matmul.c:43-70 | an 8 x 2 register block gains one slice of its inner products |
| KHalves.DcFast | riscv-tests/mt/dc_matmul.c:34-157 | the halves of the inner index, in the order of the core, add up to the product on its rows |
| KHalves.DcMatmul | riscv-tests/mt/dc_matmul.c:16-168 | one core adds the product to its rows, in the fast branch as in the naive one |
| KHalves.DcPartition | riscv-tests/mt/dc_matmul.c:28-161 | the rows are shared out exactly in both branches |
| KHalves.DcTeam | riscv-tests/mt/dc_matmul.c:16-168 | the method called for all cores, one after the other in any order: C += A*B for every lda and every ncores |
| ChunkedMatmul.CeMultiply | riscv-tests/mt/ce_matmul.c:46-156 | reading the transpose, one core adds the product to its rows, chunk by chunk of the columns |
| ChunkedMatmul.CePartition | riscv-tests/mt/ce_matmul.c:53-53 | the rows are shared out exactly |
| ChunkedMatmul.CeTeam | riscv-tests/mt/ce_matmul.c:46-157 | the method called for all cores after the fill, in any order: C += A*B |
| CopiedMatmul.DmMultiply | riscv-tests/mt/dm_matmul.c:52-191 | reading B or its copy B1, one core adds the product to its rows; the last core takes all that are left |
| CopiedMatmul.DmPartition | riscv-tests/mt/dm_matmul.c:15-123 | the rows are shared out exactly, whether or not the cores divide lda |
| CopiedMatmul.DmTeam | riscv-tests/mt/dm_matmul.c:52-196 | the method called for all cores after the copy, in any order: C += A*B |
| ReferenceMatmul.Matmul | riscv-tests/benchmarks/mt-matmul/matmul.c:9-23 | one core sets its rows of C to those of A*B and changes nothing else |
| ReferenceMatmul.AllCoresSet | riscv-tests/benchmarks/mt-matmul/matmul.c:12-13 | the method called for all cores, in any order, sets exactly the rows below ncores*(lda/ncores), which is all of C exactly when ncores divides lda |
| ReferenceMatmul.AddingToZerosIsSetting | riscv-tests/benchmarks/mt-matmul/matmul.c:17-20 | on a C of zeros, a variant that adds A*B leaves exactly what the reference leaves |
| VectorAdd.Duff | riscv-tests/mt/vvadd3.c:10-20 | entered in the middle of its loop, the device writes exactly its count cells, for every count of at least 1, also when z is x or y |
| VectorAdd.Vvadd3 | riscv-tests/mt/vvadd3.c:4-22 | one core adds its slice, and nothing else |
| VectorAdd.Vvadd3Covers | riscv-tests/mt/vvadd3.c:6-9 | every element is added exactly once if and only if the cores divide the length |
| VectorAdd.Vvadd0 | riscv-tests/mt/vvadd0.c:4-14 | one core adds its slice and its turns among the left-over indices, and nothing else |
| VectorAdd.Vvadd0Owner | riscv-tests/mt/vvadd0.c:7-11 | index by index: exactly one owner, except between the slices and the left-over indices, where there is none |
| VectorAdd.Vvadd0Covers | riscv-tests/mt/vvadd0.c:7-11 | every element is added exactly once if and only if n % ncores < n / ncores |
| VectorAdd.LongVectorsAreCovered | riscv-tests/mt/vvadd0.c:7-11 | in particular when n is at least the square of ncores |
| VectorAdd.Vvadd1 | riscv-tests/mt/vvadd1.c:4-17 | one core adds its blocks of four, two per round, and nothing else, for every length, on vectors that have the cells it touches |
| VectorAdd.AllStayInsideIff | riscv-tests/mt/vvadd1.c:7-15 | no core touches anything beyond the vector if and only if 8*ncores divides its length |
| VectorAdd.Vvadd1Covers | riscv-tests/mt/vvadd1.c:7-15 | every index below n has exactly one owner, for every n |
| DaisyChain.BatchIsLockstep | riscv-tests/debug/rbb_daisychain.py:36-61 | running the whole batch through one TAP after the other gives the outputs and final states of a chain clocked in lockstep, for all TAPs and all commands |
| DaisyChain.ClockedTap | riscv-tests/debug/rbb_daisychain.py:41-46 | what each TAP of the chain takes, bit by bit: the command itself at the first TAP and when it is no scan from 0x30 to 0x37, otherwise the command with bit 0 set exactly when the TAP before shows 0x31 |
| DaisyChain.OneCommand | riscv-tests/debug/rbb_daisychain.py:48-57 | the byte 0x52 is answered by the last TAP and changes nothing; no other byte is answered |
| DaisyChain.ChainShifts | riscv-tests/debug/rbb_daisychain.py:36-61 | a chain of n one-bit registers is an n-bit shift register: whatever is clocked in comes out n pulses later, after what the registers held |
| DaisyChain.ShiftedBits | riscv-tests/debug/rbb_daisychain.py:36-61 | and the registers end with the last n bits |
| DaisyChain.FirstTapAlone | riscv-tests/debug/rbb_daisychain.py:38-57 | the first TAP run alone with reads after its scans hands the others exactly the TDI of the lockstep chain |
| DaisyChain.ChunkingDoesNotMatter | riscv-tests/debug/rbb_daisychain.py:89-105 | executing two pieces is executing their concatenation |
| DaisyChain.InStep | riscv-tests/debug/rbb_daisychain.py:41-55 | only bit 0 of scans is rewritten: anything that watches TCK and TMS sees the same in every TAP's batch |
| DaisyChain.ControllersInStep | riscv-tests/debug/rbb_daisychain.py:41-55 | the sixteen-state controllers of section 6.1 of IEEE 1149.1 of all TAPs stay in the same state |
| DaisyChain.StreamsExecuted | riscv-tests/debug/rbb_daisychain.py:57-57 | those batches are the ones the TAPs execute |
| DaisyChain.Chain.BuildBatch | riscv-tests/debug/rbb_daisychain.py:39-56 | one value is there for every scan and none is left over: the assertion never fails |
| DaisyChain.Chain.Execute | riscv-tests/debug/rbb_daisychain.py:36-61 | the method with its queues computes the lockstep run |
| DaisyChain.Chain.Serve | riscv-tests/debug/rbb_daisychain.py:89-105 | the bytes sent are those of one run over everything received, however it was cut up |
| Kanata.Tracer.Print | simulator/kanata.cpp:46-197 | one call appends exactly the lines, and leaves exactly the record, of the specification |
| Kanata.Tracer.Flush | simulator/kanata.cpp:94-129 | the flush loop prints the lines of all recorded ids in ascending order and clears the record |
| Kanata.LinesPrint | simulator/kanata.cpp:130-172 | exactly which lines a call without flush prints, for every record and all ports: ids, stages, pc and instruction of the label, and the flag 0 of a commit |
| Kanata.LinesInOrder | simulator/kanata.cpp:130-172 | in the order of the stages, and none of them twice |
| Kanata.OneCycle | simulator/kanata.cpp:66-66 | every call prints one line for the cycle, before all others |
| Kanata.RecordIs | simulator/kanata.cpp:165-195 | the record after a call without flush, id by id, for every record and all ports |
| Kanata.LinesRead | simulator/kanata.cpp:130-195 | with ports apart, a call keeps the open instructions of the trace equal to the record if and only if the instructions move in order; otherwise the trace no longer reads |
| Kanata.FlushReads | simulator/kanata.cpp:94-129 | a flush closes every open instruction with the letter of its own stage and leaves none open |
| Kanata.FlushPrints | simulator/kanata.cpp:95-126 | exactly which lines a flush prints, and with which retirement flag |
| Kanata.FlushAscends | simulator/kanata.cpp:95-126 | in the order of the ids |
| Kanata.EveryRun | simulator/kanata.cpp:34-197 | over every sequence of calls with ports apart: the trace is well bracketed if and only if every call moves instructions in order, and then the instructions it leaves open are the recorded ones, each in its stage |
| Kanata.DistinctPortsApart | simulator/kanata.cpp:46-65 | ports with six different ids are apart |
| Kanata.ForgottenIff | simulator/kanata.cpp:165-195 | a newly fetched id is lost from the record if and only if it is also the id at decode, execute, memory or writeback, valid or not |
| Kanata.FetchedIsOpen | simulator/kanata.cpp:130-163 | while the trace has opened it |
| Kanata.AgreeIff | simulator/kanata.cpp:130-195 | with the acting ports apart, trace and record agree after a call if and only if the instructions move in order and a new one is fetched alone |
| Kanata.EveryPrefixAgreesIff | simulator/kanata.cpp:34-197 | over every sequence of calls whose acting ports are apart: they agree after every call if and only if every call that does not flush moves its instructions in order and fetches new ones alone |
| Kanata.FirstCallForgets | simulator/kanata.cpp:165-195 | in a first call with all ids still 0 they come apart |
| GdbValues.Parser.Tokens | riscv-tests/debug/testlib.py:686-695 | consumes the tokens and returns or raises exactly what the specification says, errors included |
| GdbValues.Parser.Dictionary | riscv-tests/debug/testlib.py:651-663 | the same for a dict |
| GdbValues.Parser.Listing | riscv-tests/debug/testlib.py:665-677 | the same for a list with repeat counts |
| GdbValues.Parser.Rhs | riscv-tests/debug/testlib.py:697-702 | the value, or the error of the value or of what is left behind it |
| GdbValues.RoundTrip | riscv-tests/debug/testlib.py:651-695 | every spelled value is read back as what it stands for, and exactly its tokens are consumed, whatever follows |
| GdbValues.ListIs | riscv-tests/debug/testlib.py:665-677 | a list has as many items as its runs together, where a run counts once, or as often as its repeat count says if that is above 1, and at the places of each run its item |
| GdbValues.RepeatedItem | riscv-tests/debug/testlib.py:670-675 | one item with a repeat count n is a list of n of it, or of one if n is not above 1 |
| GdbValues.Truncated | riscv-tests/debug/testlib.py:651-695 | the tokens of a value cut short at any place raise an IndexError |
| GdbValues.LeftOver | riscv-tests/debug/testlib.py:697-702 | tokens behind a value are a TestLibError of parse_rhs |
| GdbValues.FirstToken | riscv-tests/debug/testlib.py:686-695 | a first token that is an exception is raised, a repeat count is a TestLibError, and none is an IndexError |
| GdbValues.WrongSeparator | riscv-tests/debug/testlib.py:670-677 | in a list anything but a comma or the closing brace behind an item fails the assertion, at every place |
| GdbValues.DictStops | riscv-tests/debug/testlib.py:655-663 | so does in a dict a key without an equals sign or anything else behind a value; a value that is an exception is raised |
| GdbValues.TreeOf | riscv-tests/debug/testlib.py:651-695 | conversely, whatever is accepted is the spelling of a value, and that value is returned |
| GdbValues.RhsAccepts | riscv-tests/debug/testlib.py:697-702 | parse_rhs succeeds if and only if its tokens spell a value |
| GdbValues.Unambiguous | riscv-tests/debug/testlib.py:651-695 | no two values have the same spelling, even followed by other tokens |
| GdbValues.LastValueWins | riscv-tests/debug/testlib.py:655-659 | a dict has the keys written, each with the value written last |
| GdbValues.AtomsReadBack | riscv-tests/debug/testlib.py:686-694 | a single token is a value if and only if it is a number or a string other than an opening brace |
| GdbValues.NoListInList | riscv-tests/debug/testlib.py:665-677 | a list or a dict in a list, at whatever place, is refused |
| Digits.DigitsBound | riscv-tests/benchmarks/common/syscalls.c:159-168 | a number below 2^n has at most n digits in any base from 2 on |
| Digits.TakeApart | riscv-tests/benchmarks/common/syscalls.c:159-168 | the digit loop never leaves its 64 cells and stores the digits backwards |
| Digits.Sink.PrintNum | riscv-tests/benchmarks/common/syscalls.c:156-175 | the padding up to the width and then the digits are written, and nothing else |
| Digits.Atol | riscv-tests/benchmarks/common/syscalls.c:464-483 | skips spaces, takes one sign, and takes in every further character as a digit |
| Digits.FoldDigits | riscv-tests/benchmarks/common/syscalls.c:477-480 | reading printed digits after a number puts the two side by side |
| Digits.PrintThenRead | riscv-tests/benchmarks/common/syscalls.c:297-305 | a number printed with a width and a padding character is read back if and only if ReadsBack holds |
| Digits.NeverExceeds | riscv-tests/benchmarks/common/syscalls.c:477-480 | while reading the digits of v the result never exceeds v, so that a number that fits in a long does not overflow |
| Formatting.ReadSpec | riscv-tests/benchmarks/common/syscalls.c:222-274 | the switch that goes back to itself reads flags, width, precision and length up to the conversion character |
| Formatting.PrintConversion | riscv-tests/benchmarks/common/syscalls.c:276-343 | every conversion writes its text and takes its argument; an unknown one writes nothing |
| Formatting.VPrintFmt | riscv-tests/benchmarks/common/syscalls.c:197-346 | the whole format is printed, unknown conversions literally |
| Formatting.Sprintf | riscv-tests/benchmarks/common/syscalls.c:359-377 | the buffer holds the text, a NUL, and beyond it what it held; the length is returned |
| FormatLanguage.ConversionRead | riscv-tests/benchmarks/common/syscalls.c:222-274 | a conversion written with any flags, width, precision (a number, 0 included, a point alone, or *) and length is read as exactly the settings these stand for |
| FormatLanguage.FormatMeans | riscv-tests/benchmarks/common/syscalls.c:197-346 | every format made of text and such conversions prints its pieces in order, each taking the next arguments |
| FormatLanguage.PrecisionLimits | riscv-tests/benchmarks/common/syscalls.c:222-294 | a written precision n keeps every string within the larger of width and n characters if and only if n > 0 |
| FormatLanguage.PointZeroPrintsAll | riscv-tests/benchmarks/common/syscalls.c:230-294 | %.0s prints every string whole |
| FormatLanguage.StarLimits | riscv-tests/benchmarks/common/syscalls.c:253-294 | a precision taken from the arguments limits every string, 0 included |
| FormatLanguage.DashPadsBehindIff | riscv-tests/benchmarks/common/syscalls.c:225-331 | with the flag - a number of any conversion is printed as the number followed by padding if and only if the width is at most the number of its digits |
| FormatLanguage.DashPadsStrings | riscv-tests/benchmarks/common/syscalls.c:225-294 | a string is printed followed by spaces up to the width |
| ReadBack.DigitsReadBack | riscv-tests/benchmarks/common/syscalls.c:159-174 | the digits of a number in a base up to 16 are digits of that base with no zero in front, and their value is the number |
| ReadBack.NumeralsDiffer | riscv-tests/benchmarks/common/syscalls.c:159-174 | which determines them |
| ReadBack.NumberReadsBack | riscv-tests/benchmarks/common/syscalls.c:222-331 | with any flags, width and length: d prints the argument as signed 32 or 64 bits in decimal, u as unsigned in decimal, o in octal, x in hexadecimal, p 64 bits in hexadecimal behind 0x; sign or 0x first, then the padding, then the digits |
| ReadBack.UnsignedReadsBack | riscv-tests/benchmarks/common/syscalls.c:307-331 | atol of what %lu prints is the argument, for all that fit in a long |
| ReadBack.IntReadsBack | riscv-tests/benchmarks/common/syscalls.c:297-331 | atol of what %d prints is the argument, for every int |
| ReadBack.PadMeans | riscv-tests/benchmarks/common/syscalls.c:225-233 | the last of the flags - and 0 decides on the padding, spaces without them |
| ReadBack.StringReads | riscv-tests/benchmarks/common/syscalls.c:282-294 | what %s with any flags and width and a precision above 0 prints, character by character |
| ReadBack.StarWidth | riscv-tests/benchmarks/common/syscalls.c:253-269 | a width taken from the arguments is the same as one that is written |
| ReadBack.UnknownIsLiteral | riscv-tests/benchmarks/common/syscalls.c:339-343 | a percent sign with a character that means nothing is printed as it stands |
| ReadBack.OthersPrint | riscv-tests/benchmarks/common/syscalls.c:276-337 | %c prints the low byte, %s the string, and (null) for a null pointer, and %% a percent sign |
| ReadBack.AtolReads | riscv-tests/benchmarks/common/syscalls.c:464-483 | atol of spaces, at most one sign, and digits is the number with this sign |
| FormatLanguage.LongReadsBack | riscv-tests/benchmarks/common/syscalls.c:297-331 | for every x with absolute value below 2^63, every width and all flags, atol of what %ld prints is x if and only if ReadsBack holds; always without a width or with the flag 0 |
| FormatLanguage.BufferReadsBack | riscv-tests/benchmarks/common/syscalls.c:359-377 | the same for the buffer that sprintf leaves |
| FormatLanguage.LengthIsWhereNulIs | riscv-tests/benchmarks/common/syscalls.c:372-376 | the length returned is the position of the first NUL if and only if no NUL was printed |
| FormatLanguage.DecimalLength | riscv-tests/benchmarks/common/syscalls.c:299-331 | the number of characters is the width or the number of digits, whichever is more, and the sign comes on top |
| MemoryWords.Memcpy | riscv-tests/benchmarks/common/syscalls.c:379-407 | on both paths and for words of 4 and 8 bytes the destination holds the source, and nothing else changes |
| MemoryWords.CopyEight | riscv-tests/benchmarks/common/syscalls.c:385-397 | the unrolled body copies eight words |
| MemoryWords.Memset | riscv-tests/benchmarks/common/syscalls.c:409-426 | on both paths the area is filled with the low byte, and nothing else changes |
| MemoryWords.FillWords | riscv-tests/benchmarks/common/syscalls.c:412-415 | every byte of the replicated word is the fill byte, at 32 and 64 bits |
| Loader.Memory.ReadMem | simulator/unified_mem.cpp:13-31 | the word at the address, or 0 outside; reading never changes what the memory holds |
| Loader.Memory.WriteMem | simulator/unified_mem.cpp:33-51 | exactly one word changes, or none outside |
| Loader.Memory.LoadSection | simulator/elf_reader.cpp:50-68 | for every size: the whole words, the last partly from beyond the data, are at their addresses, the remainder is in the word behind, and all other words are as before |
| Loader.Memory.LoadAll | simulator/elf_reader.cpp:28-68 | after all sections, every word is that of the last selected section covering it, or as before |
| Loader.LoadedBytes | simulator/elf_reader.cpp:28-68 | the word at an index has, byte by byte, what the last section reaching it put there that is named .text or .data, is not NOBITS and not empty |
| Loader.NothingLoaded | simulator/elf_reader.cpp:28-68 | where no such section reaches, it is as before |
| Loader.FourBytes | simulator/elf_reader.cpp:50-59 | the bytes 1, 2, 3, 4 at 0x1000 become the word 0x04030201 there if the section is named .text or .data |
| Loader.SectionBytes | simulator/elf_reader.cpp:50-59 | for every size each byte of the section is in its place in its word |
| Loader.OwnWordsIff | simulator/elf_reader.cpp:54-67 | inside the memory, a section changes no word that holds none of its bytes if and only if its size is a multiple of 4 |
| Loader.SecondCopy | simulator/elf_reader.cpp:61-67 | otherwise the word behind gets the bytes of the remainder and zeros |
| Loader.LoadedReadsBack | simulator/elf_reader.cpp:28-68 | where sections do not overlap, each covered address holds the word of its section and every other what it held |

## Left out

- Rounding: products and sums are over integers, since regrouping floats is not valid.
- Integer width of sizes, widths and precisions: `size_t` and `int` counters do not wrap in the model. The 64-bit and 32-bit conversions of `getint` and `getuint`, the fill words of `memset` and the addresses of the simulator's memory do.
- Weak memory: stores and loads are sequentially consistent.
- Overlap of the arrays read with the array written: matrices that are only read are values.
- TransposedMatmul.EveryRun: asks for ncores | lda and 8 | lda, the sizes the loops of the source divide evenly.
- WrapAround.CkMatmul: asks for 8 | lda, as the loop over k does that the source has unrolled by eight.
- ChunkedMatmul.CeMultiply: asks for lda = 32 and whole chunks of eight columns, which the source has written into its chunk bounds.
- CopiedMatmul.DmMultiply: asks for 4 | lda and 4 | lda/ncores: the source works in tiles of four by four and has no code for what is left over.
- CeProgram.CeEveryRun: for the sizes of CeMultiply.
- DmProgram.DmEveryRun: for the sizes of DmMultiply.
- BhProgram.BhEveryRun: for the sizes of BhMatmul.
- CkProgram.CkEveryRun: for the sizes that fit; what one core does for the others is in CkMatmul and CkWrong.
- Backward.BhMatmul: asks for 8 | lda, as the source has it: eight columns at a time and half of the rows per core.
- Team.TeamAdds: one core after the other; the interleavings are the `...EveryRun` lemmas.
- VectorAdd.Duff: asks for at least one element; entering the device with a count of 0 is not part of the model.
- MemoryWords.Memcpy: asks for areas that do not overlap, as the C standard does.
- Formatting.VPrintFmt: asks for as many arguments of the right kind as the format takes; the output goes to a buffer, printf's putchar is not part of the model.
- Digits.Atol: does not model the overflow of a long; NeverExceeds shows that printed numbers cause none.
- Loader.Memory.LoadSection: what lies behind the data of a section is three bytes that may be anything; sizes are below 2^32 - 8.
- Parsing of ELF headers, the tokenizer of gdb's values and its numbers with a point.
- Kanata's debug log and the text of its lines: lines are values of a datatype.
- Sockets, processes, gdb and OpenOCD: a TAP's answers are a function of its state.
- `cf_matmul.c` and `cm_matmul.c`: two cores add to the same rows without a barrier between them, so that the sum does not hold for all interleavings (`LostUpdate`).
- The other `*_matmul.c` and `vvadd*.c` variants, `median`, Dhrystone and the small benchmarks, CSR access, `tohost` handshakes, thread-local storage.
