# Verification of zarr-node

A Dafny model of the parts of zarr-node whose correctness is not visible from one body: the
chunked N-dimensional read, the polygon selection, and the concurrent protocols around them.

**Reading arrays.** `Vectors` and `ChunkIndexing` give row-major ranks, C and F strides, the odometer over
chunk coordinates and injective chunk keys. `ArrayModel` says in one line what a read means
(`ReadSpec`: the logical array over the selection, the fill value where a chunk is missing, as in
the Zarr storage specification version 2, section "Arrays", subsection "Chunks"), and `ArrayMeaning` says it
again from the stored bytes up. `BlockCopy`, `ChunkOverlap` and `ArrayRead` prove that the in-place recursive
copies, in whatever order chunks arrive and whether a chunk came whole or as a byte range, leave exactly that
in the output.

**Polygon selection.** `Segments`, `RayCast`, `EvenOddRegions`, `TriangleFan` and `PolygonRect` are the geometry
over the reals, with what the even-odd answer means; `AxisSearch`, `GridLayout` and `CellSelection` are the
pruned search, proved equal to testing every cell of the grid; `PolygonReader` is the validated read of a time
range.

**Protocols.** JavaScript runs each stretch between two awaits without interruption, so a protocol is a step
machine whose steps are those stretches: `Loader` (several `loadChunks` runs on one byte limiter),
`DiskTier`, `Registry` and `DecodePool`. The invariants are proved for every step and so for
every interleaving. `LoaderSafety`, `LoaderRuns`, `RegistrySafety` and `RegistryRuns` hold the proofs;
`LoaderEvents` and the later sections of the other machines say what a run comes to from its events. The
classes (`Limiter.ByteLimiter`, `LruCaches.MemoryCache`, `LruCaches.InMemoryCache`,
`DiskTier.CachedStore`, `DatasetRegistry.ZarrDatasetRegistry`, `DecodePool.WorkerPool`) carry
the source's fields, and each method equals the step function the theorems are about.

**Together.** `ArrayLoad` is one read from end to end: the loader machine takes any enabled step until its run
ends, and the array is reassembled from what it delivered. `GroupRead` does so for the arrays of a
group on one budget, and `PolygonReader` for one time step after the other through one cache.

Some things said of the code hold only under a condition:

- `maxCells` is described as a cell budget. It is met as long as the loop does not lower
  the stride, which is exactly when the least fitting stride is 1 or keeps a cell
  (`CellSelection.BudgetUnlessLowered`), and always for a cap of the whole grid's size
  (`CellSelection.AmpleCapIsMet`); `CellSelection.ResolvedExceedsCap` resolves three cells under a cap of one.
- The decode pool keeps its size exactly for errors of current workers
  (`DecodePool.ErrorKeepsSizeIff`); `DecodePool.SecondErrorGrowsPool` is a run with two errors of one worker.
- The registry has one unclosed store per id unless a build of that id has failed
  (`RegistryRuns.OneUnclosedStorePerId`); `RegistryRuns.FailedBuildLeavesStoreOpen` is a run with two.

## Model

| member | source | states |
|---|---|---|
| Vectors.UnravelRavel | src/chunk/indexing.ts:58-72 | decoding the row-major rank of an in-bounds index gives the index back, and the rank is inside the box |
| Vectors.RavelUnravel | src/chunk/indexing.ts:58-72 | every rank below the size is the rank of exactly the index it decodes to |
| ChunkIndexing.CStrides | src/chunk/indexing.ts:61-72 | the backward loop fills the C strides |
| ChunkIndexing.FStrides | src/chunk/indexing.ts:74-84 | the forward loop fills the F strides |
| ChunkIndexing.DotCStrides | src/chunk/indexing.ts:58-72 | an index times the C strides is its row-major rank |
| ChunkIndexing.DotFStrides | src/chunk/indexing.ts:71-84 | an index times the F strides is the row-major rank of the reversed index in the reversed shape |
| ChunkIndexing.ComputeChunkRanges | src/chunk/indexing.ts:6-21 | per dimension, all chunk numbers up to the least number of chunks that covers the extent |
| ChunkIndexing.CeilDivLeast | src/chunk/indexing.ts:10-14 | the ceiling division is the least count whose chunks cover the extent |
| ChunkIndexing.ComputeSliceChunkRanges | src/chunk/indexing.ts:114-127 | per dimension, the chunk numbers from the first to the last one the range meets |
| ChunkIndexing.AllChunkCoords | src/chunk/indexing.ts:34-56 | the odometer yields the whole product of the ranges in row-major order, and ends |
| ChunkIndexing.CoordsEnumerateProduct | src/chunk/indexing.ts:30-56 | that list holds exactly the tuples of the product, each once |
| ChunkIndexing.ChunkKeyRoundTrip | src/chunk/indexing.ts:23-28 | a chunk key is its indices in decimal digits, joined by the separator, and parses back to them |
| ChunkIndexing.DecimalIsCanonical | src/chunk/indexing.ts:23-28 | an index is written without leading zeros |
| ChunkIndexing.ChunkKeyInjective | src/chunk/indexing.ts:23-28 | different chunks have different keys |
| ArrayModel.TypedSlice | src/array.ts:217-233 | a typed view over a whole-element byte slice is the slice of the typed view, for any element size and byte order |
| ArrayModel.ChunkOffsetBelow | src/array.ts:571-615 | any in-chunk position lies inside the stored chunk, in C and in F order |
| ArrayModel.ReadSpecAt | src/array.ts:362-465 | the output cell of an index is the logical array element at the selection start plus that index, or the fill value |
| ArrayMeaning.LogicalIsElement | src/array.ts:217-233 | the value at an index is, from the stored bytes up, the element at the position in its chunk, by C or F order, element size and byte order, of the decoded bytes under the chunk's key, or the fill value, zero if none is set |
| ArrayMeaning.ElementIsUnique | src/array.ts:251-465 | an index has exactly one such value |
| ArrayMeaning.SpecHoldsSelection | src/chunk/indexing.ts:92-112 | the reference output holds, row-major, that value for every index the selection names: all, one, or from lo up to hi |
| ArrayMeaning.SelectionIsUnique | src/array.ts:362-465 | which leaves one possible output |
| ChunkOverlap.InBoxIsInChunk | src/array.ts:571-615 | an output cell lies in a chunk's overlap box exactly when its array index belongs to that chunk, and the copy then reads that element |
| ChunkOverlap.ComputeChunkByteRange | src/array.ts:522-568 | a range exactly when the overlap spans full trailing dimensions of an uncompressed chunk, with the offset of its first element |
| ChunkOverlap.ByteRangeInsideChunk | src/array.ts:522-568 | a computed byte range is non-empty and lies inside the stored chunk |
| ChunkOverlap.PartialSrc | src/array.ts:472-513 | position k of the packed range is position first + k of the full chunk, cell by cell |
| ArrayRead.CopyChunkToOutput | src/array.ts:327-360 | the recursive in-place copy of a full read writes the chunk's cells and no other |
| ArrayRead.CopySliceChunkToOutput | src/array.ts:571-615 | the recursive in-place copy of a slice writes the overlap's cells and no other |
| ArrayRead.CopyPartialToOutput | src/array.ts:472-513 | the same for a byte-range chunk, whose data is the overlap packed |
| ArrayRead.PartialIsFull | src/array.ts:472-615 | copying a byte range writes the same values to the same cells as copying the whole chunk |
| ArrayRead.PrefillOutput | src/array.ts:205-215 | every cell holds the fill value before the first chunk |
| ArrayRead.BuildTasks | src/array.ts:380-410 | one request per chunk the selection meets, with its byte range where one applies |
| ArrayRead.TasksAreChunksMet | src/array.ts:372-410 | the requests are for exactly the chunks that share an index with the selection, each once, under its key, with a byte range exactly for sliced, uncompressed C-order arrays on a store that reads ranges, where only the first dimension cuts the chunk |
| ArrayRead.CellHasTask | src/array.ts:362-410 | every cell of the selection is served by a chunk request |
| ArrayRead.FilledStep | src/array.ts:425-460 | delivering a genuine chunk keeps every cell logical or fill, whatever came before |
| ArrayRead.GetSlice | src/array.ts:362-465 | for every rank, order, non-empty in-bounds selection and delivery order the output holds, cell by cell, the values that the stored bytes give over the selection |
| ArrayRead.GetFull | src/array.ts:251-325 | the same for a full read, over every index of the array |
| ArrayRead.FullReadIsOpenSlice | src/array.ts:251-325 | a full read means the same as the slice that selects all of every dimension |
| Segments.SegmentsIntersectExact | src/spatial/polygon-reader.ts:165-196 | the orientation test is true exactly when the closed segments share a point |
| RayCast.PointInPolygon | src/spatial/polygon-reader.ts:136-155 | the loop computes the parity of ray crossings around the ring |
| RayCast.ClosingKeepsInside | src/spatial/polygon-reader.ts:124-155 | repeating the first vertex at the end changes no answer |
| RayCast.RotatingKeepsInside | src/spatial/polygon-reader.ts:124-155 | starting the ring at another vertex changes no answer |
| RayCast.ReversingKeepsInside | src/spatial/polygon-reader.ts:124-155 | walking the ring the other way changes no answer |
| RayCast.PolygonEnvelope | src/spatial/polygon-reader.ts:446-463 | the scan returns the least box around the vertices |
| RayCast.InsideInEnvelope | src/spatial/polygon-reader.ts:446-463 | an inside point lies in the envelope |
| TriangleFan.RectangleInside | src/spatial/polygon-reader.ts:124-155 | in a rectangle the lower and the left edge count as inside, the upper and the right edge do not |
| TriangleFan.TriangleInside | src/spatial/polygon-reader.ts:124-155 | off its edges, a triangle holds exactly the mixtures of its corners |
| TriangleFan.FanParity | src/spatial/polygon-reader.ts:124-155 | a point is inside a ring exactly if it is inside an odd number of the triangles that the ring's edges span with any one point |
| EvenOddRegions.SameSideOfRing | src/spatial/polygon-reader.ts:136-155 | the even-odd answer is the same at both ends of any segment that does not touch the ring |
| PolygonRect.PolygonOverlapsRect | src/spatial/polygon-reader.ts:208-238 | true exactly when the closed rectangle and the filled polygon share a point |
| PolygonRect.CornerOrEdge | src/spatial/polygon-reader.ts:198-238 | that is exactly when a corner is inside or a ring edge has a point in the rectangle, even with no vertex inside |
| AxisSearch.LowerBoundAsc | src/spatial/polygon-reader.ts:694-703 | the first index at or above the target on an ascending axis |
| AxisSearch.UpperBoundAsc | src/spatial/polygon-reader.ts:706-715 | the first index above the target on an ascending axis |
| AxisSearch.LowerBoundDesc | src/spatial/polygon-reader.ts:718-727 | the first index at or below the target on a descending axis |
| AxisSearch.UpperBoundDesc | src/spatial/polygon-reader.ts:730-739 | the first index below the target on a descending axis |
| AxisSearch.AxisRange | src/spatial/polygon-reader.ts:662-691 | the half-open range holds exactly the indices whose coordinate lies in the interval, ascending or descending |
| AxisSearch.SpanHoldsCenter | src/spatial/polygon-reader.ts:784-796 | a cell's span is ordered and holds its coordinate |
| AxisSearch.SpansTile | src/spatial/polygon-reader.ts:784-796 | neighbouring spans share an end: the footprints tile the axis |
| AxisSearch.SpanIsMidpoints | src/spatial/polygon-reader.ts:784-796 | the ends of a span are the midpoints to the neighbours; at either end of the axis the one midpoint is mirrored, and a cell alone is a point |
| AxisSearch.AxisFootprintRange | src/spatial/polygon-reader.ts:821-836 | the range runs from the first to the last overlapping span |
| AxisSearch.OverlapsFormOneRun | src/spatial/polygon-reader.ts:813-836 | the spans that overlap an interval are consecutive |
| GridLayout.CellBounds2d | src/spatial/polygon-reader.ts:616-660 | the least box around a curvilinear cell's center and its midpoints, mirrored at the border |
| GridLayout.FootprintHoldsCenter | src/spatial/polygon-reader.ts:616-660 | a footprint is a proper rectangle that holds the cell's center |
| GridLayout.FootprintIsDrawn | src/spatial/polygon-reader.ts:600-660 | a footprint is the pair of spans of its row and column, or the least rectangle around the center and the midpoints to the four neighbours, a missing one mirrored from the opposite side |
| GridLayout.FootprintIsUnique | src/spatial/polygon-reader.ts:600-660 | a cell has one footprint |
| GridLayout.ClampRange | src/spatial/polygon-reader.ts:513-517 | the range is ordered, inside the axis, and unchanged if it was |
| GridLayout.ScanBBox | src/spatial/polygon-reader.ts:526-598 | the least box that holds every cell whose center, or in cover mode footprint, reaches the envelope; empty if none does |
| GridLayout.BBox1d | src/spatial/polygon-reader.ts:753-758 | the box holds exactly the cells whose center lies in the envelope |
| GridLayout.CoverBBox1d | src/spatial/polygon-reader.ts:759-770 | the box holds exactly the cells whose footprint reaches the envelope |
| GridLayout.ResolveBBox | src/spatial/polygon-reader.ts:909-930 | for every layout and membership rule, the least box around what reaches the envelope, the whole axis for points |
| CellSelection.GatherCells | src/spatial/polygon-reader.ts:952-975 | the strided gather lists the kept cells of the sampled positions of the box |
| CellSelection.KeptIsReached | src/spatial/polygon-reader.ts:564-598 | a kept cell is one the box scan looks for: pruning drops nothing |
| CellSelection.BoxScanIsWholeScan | src/spatial/polygon-reader.ts:952-975 | scanning a box that holds every kept cell lists the same cells as scanning the whole grid |
| CellSelection.GridCellsMembers | src/spatial/polygon-reader.ts:952-975 | a scan holds exactly the kept cells of its box, with their positions |
| CellSelection.GridSamples | src/spatial/polygon-reader.ts:952-975 | a strided scan holds exactly the kept cells whose row and column are sampled |
| CellSelection.GridCellsOrdered | src/spatial/polygon-reader.ts:944-975 | a scan lists its cells once each in row-major order |
| CellSelection.CoverIsFootprintOverlap | src/spatial/polygon-reader.ts:944-975 | in cover mode a cell is kept exactly when its footprint meets the filled polygon |
| CellSelection.ComputeStride | src/spatial/polygon-reader.ts:887-907 | the least stride whose sampled box fits the budget |
| CellSelection.GridCellsBudget | src/spatial/polygon-reader.ts:882-907 | a strided scan lists at most one cell per sampled position |
| CellSelection.GatherSurvivors | src/spatial/polygon-reader.ts:934-942 | the stride is lowered only past strides that lose every cell, and gives up only at stride 1 |
| CellSelection.ResolveSelection | src/spatial/polygon-reader.ts:909-943 | in row-major order exactly the chosen cells of the sampled positions, each with its coordinates; chosen is, for cover on a grid, a footprint that meets the filled polygon, and otherwise a center inside; the box holds every chosen cell and is the least one, no cells means that none is chosen, and the budget is met unless the stride was lowered |
| CellSelection.ResolvedSelects | src/spatial/polygon-reader.ts:909-975 | whatever the pruned search resolves is that selection |
| CellSelection.BudgetUnlessLowered | src/spatial/polygon-reader.ts:934-942 | the stride is lowered exactly when the least fitting one is not 1 and keeps no cell, and otherwise the cap is met |
| CellSelection.StrideIsLargestSurvivor | src/spatial/polygon-reader.ts:934-942 | the stride is the largest, up to the least fitting one, that keeps a cell, or 1 |
| CellSelection.SampledBound | src/spatial/polygon-reader.ts:887-943 | lowered or not, the stride bounds the number of cells by its sampled positions |
| CellSelection.AmpleCapIsMet | src/spatial/polygon-reader.ts:887-943 | a cap of at least the grid's size is met, and loses no cell |
| CellSelection.UncappedSelection | src/spatial/polygon-reader.ts:909-975 | without a cap the selection is the row-major filter of the whole grid: exactly the chosen cells |
| CellSelection.CoverContainsCenter | src/spatial/polygon-reader.ts:909-975 | without a cap cover selects what center selects and, on a grid, every other cell whose footprint meets the filled polygon |
| CellSelection.CapCanBeExceeded | src/spatial/polygon-reader.ts:934-942 | a grid and a triangle whose least fitting stride for a cap of one keeps no cell, while the next smaller stride keeps three |
| CellSelection.ResolvedExceedsCap | src/spatial/polygon-reader.ts:909-943 | whatever the resolver may return for that grid, triangle and cap has stride 2 and three cells |
| CellSelection.ResolveOverCap | src/spatial/polygon-reader.ts:909-943 | resolving that input exceeds its cap |
| PolygonReader.ValidatePolygonReadInput | src/spatial/polygon-reader.ts:259-322 | accepts exactly three distinct vertices or more, time axis 0, an ordered time range on the axis and a positive cap |
| PolygonReader.AssertArrayRank | src/spatial/polygon-reader.ts:357-385 | accepts exactly ranks whose extra middle dimensions all have size 1, and counts them |
| PolygonReader.AssertSelectionInBounds | src/spatial/polygon-reader.ts:405-443 | accepts exactly a supplied box inside the array's own extents with all its cells inside the box |
| PolygonReader.BlockHoldsCell | src/spatial/polygon-reader.ts:1104-1121 | the block at a cell's row-major offset is the logical element at the step's time, zeros and the cell |
| PolygonReader.ReadStep | src/spatial/polygon-reader.ts:1104-1122 | a step loads its block in any interleaving through the shared cache, fails exactly when its load does, and else yields the logical elements of its cells in cell order |
| PolygonReader.ReadSteps | src/spatial/polygon-reader.ts:1104-1122 | the steps load one after the other, each through the cache the one before left; every step before the first failed load is yielded with the reference values, and its error ends the read |
| PolygonReader.ResolvePolygonCells | src/spatial/polygon-reader.ts:1005-1017 | a selection exactly for accepted inputs, and it is the one for the polygon, the membership rule and the cap of the options |
| PolygonReader.ReadPolygon | src/spatial/polygon-reader.ts:1064-1123 | an error exactly for rejected inputs; otherwise, for a non-empty selection, the steps from the start up to the end of the given time range, or of the whole time axis, ascending, each with the array's value at its time and cell, in cell order, up to the first failed load |
| PolygonReader.ReadsAgree | src/spatial/polygon-reader.ts:1096-1121 | two reads of one selection agree whatever was cached, evicted or interleaved, and are equal if neither fails |
| Limiter.PumpWakesLongestPrefix | src/chunk/limiter.ts:60-69 | a pump wakes the longest prefix of the queue that fits and charges exactly its cost |
| Limiter.RunKeepsBalance | src/chunk/limiter.ts:29-74 | over every run of matched calls the bytes available and the bytes asked for by the holders, each cut to the capacity, add up to the capacity, grants follow arrival order, and the first that waits does not fit |
| Limiter.ReachedIsBalanced | src/chunk/limiter.ts:22-74 | so every state that matched calls reach from a new limiter is balanced, on a capacity of at least one |
| Limiter.WaitingMeansHeld | src/chunk/limiter.ts:29-74 | while anyone waits someone holds bytes |
| Limiter.LastReturnGrantsHead | src/chunk/limiter.ts:47-74 | the return of the last holder grants the head, even one clamped to the whole budget |
| Limiter.ByteLimiter.Acquire | src/chunk/limiter.ts:29-44 | granted at once exactly for a non-positive cost, or on an empty queue with room for the cost, cut to the capacity, which is then taken; otherwise queued last |
| Limiter.ByteLimiter.Release | src/chunk/limiter.ts:47-54 | the bytes come back, the woken requests are the head of the queue and take theirs, and the next one does not fit |
| Limiter.ByteLimiter.PumpQueue | src/chunk/limiter.ts:60-69 | the loop is the pump |
| LoaderSafety.WakeSum | src/chunk/limiter.ts:60-69 | the bytes held by the jobs a release wakes grow by exactly what the pump charged |
| LoaderSafety.ReleaseKeepsBudget | src/chunk/loader.ts:186-191 | a job's `finally` keeps free and held bytes adding up and the queue equal to the waiting jobs |
| LoaderRuns.StepKeepsInv | src/chunk/loader.ts:112-226 | every step of every run keeps scheduler bookkeeping, logs, failure bookkeeping, the budget and cache coherence |
| LoaderRuns.RunsKeepInv | src/chunk/loader.ts:112-226 | so does every interleaving of several runs on one limiter |
| LoaderRuns.ReachedSatisfiesInv | src/chunk/loader.ts:67-226 | every state some interleaving reaches from the start satisfies the invariant |
| LoaderRuns.StepLowersMeasure | src/chunk/loader.ts:112-226 | every step lowers one measure |
| LoaderRuns.RunsEnd | src/chunk/loader.ts:112-226 | no execution is longer than the initial measure |
| LoaderRuns.UnfinishedCanStep | src/chunk/loader.ts:112-226 | every unfinished state has an enabled step: no deadlock across runs |
| LoaderRuns.RunToEnd | src/chunk/loader.ts:67-226 | taking any enabled step again and again reaches a state where every run has ended |
| LoaderRuns.ConcurrencyBound | src/chunk/loader.ts:196-218 | never more than `concurrency` jobs of a run are started and unfinished |
| LoaderRuns.FailureIsSilent | src/chunk/loader.ts:97-218 | after `failed` is set a step delivers, reports and launches nothing of that run and keeps its first error |
| LoaderRuns.FailureIsFinal | src/chunk/loader.ts:97-218 | and so does every continuation |
| LoaderRuns.FinishedHoldsNothing | src/chunk/loader.ts:186-225 | when a run ends, with its error or without, none of its jobs holds or awaits bytes, and the error is that of one of its jobs |
| LoaderRuns.AllFinishedFreesBudget | src/group.ts:137-144 | when every run has settled the whole shared budget is free |
| LoaderRuns.SuccessCountsOnce | src/chunk/loader.ts:103-191 | a successful run delivered each stored job and reported each missing one exactly once |
| LoaderRuns.SuccessIsComplete | src/chunk/loader.ts:52-226 | the deliveries of a successful run are genuine and complete, which is what an array read needs |
| LoaderRuns.TasksFit | src/array.ts:380-410 | the chunk requests of a selection meet the loader's assumption on byte ranges |
| LoaderRuns.SchedulerStretch | src/chunk/loader.ts:193-218 | the loop from its head to the next await is a run of machine steps, takes live cached chunks from the cache, and stops only at the concurrency, after the last job or on a failure |
| LoaderEvents.StepDelivers | src/chunk/loader.ts:112-191 | what each step hands to each run, a cached chunk, the bytes of a range or a decoded chunk, and what it caches |
| LoaderEvents.RangesAndCache | src/chunk/loader.ts:112-191 | in every interleaving ranges are used wherever they may be unless the chunk is cached, are never cached, and a caching run has cached every chunk it read whole |
| LoaderEvents.FailsExactly | src/chunk/loader.ts:97-226 | a finished run has failed exactly if the store or the decoder rejected one of its jobs, or a chunk is missing and the run is strict, and reports such a job |
| LoaderEvents.FailureStartsNothing | src/chunk/loader.ts:136-191 | once a run has failed no step starts a fetch or a decode for it, or caches one of its chunks |
| LoaderEvents.FailureStartsNothingLater | src/chunk/loader.ts:136-191 | nor does any continuation |
| LoaderEvents.BytesInFlight | src/chunk/loader.ts:132-191 | in every interleaving the bytes reserved by all runs, each job's byte range or the peak of a chunk cut to the budget, and the bytes free add up to the budget |
| ArrayLoad.ReadFromRun | src/array.ts:251-465 | a read fed by a successful run returns the logical array over the selection, or the whole array |
| ArrayLoad.LoadKeepsCoherent | src/chunk/loader.ts:179-185 | a load leaves the memory cache coherent with the store for the whole array |
| ArrayLoad.LoadCaches | src/chunk/loader.ts:179-185 | a successful read through a cache leaves every stored chunk it read whole in the cache |
| ArrayLoad.PeakCoversBuffers | src/array.ts:189-198 | the reserved peak is the decoded chunk, once more if it is compressed and once more if its bytes are swapped |
| ArrayLoad.Get | src/array.ts:143-187 | a read returns the values that the stored bytes give, strict only if no chunk is missing, or the first error of its load, that of a rejected or, strict, missing chunk; in every interleaving and from any coherent cache, and leaves a coherent one |
| GroupRead.ReadMultiple | src/group.ts:107-152 | the error of the first failed array, or under the names that open, and no others, the arrays' values, over a selection or whole; the budget is free either way |
| GroupRead.OpenedAreNamed | src/group.ts:113-125 | the arrays read are those of the names that open |
| GroupRead.OpenedInOrder | src/group.ts:113-125 | in the order asked |
| GroupRead.LoadAndReadMultiple | src/group.ts:107-152 | the same from the start of the loads, run to their end in any interleaving |
| LruCaches.TrimShortestPrefix | src/cache/memory.ts:50-59 | the eviction loop drops the shortest prefix that fits or leaves one entry |
| LruCaches.SetEvictsShortestPrefix | src/cache/memory.ts:37-60 | a set holds its value and evicts exactly the least recently used entries it has to |
| LruCaches.HitIsLatest | src/cache/memory.ts:27-35 | a hit is the value last set |
| LruCaches.RunKeepsSound | src/cache/memory.ts:28-84 | over every run of operations keys are unique, values current, entries in order of last use, and the cache within its byte budget or at one entry |
| LruCaches.ReachedIsSound | src/cache/memory.ts:19-84 | after any operations on a new cache a value is the one last set under its key, entries are in the order in which their keys were last asked for or set, and the bytes charged are within the budget or those of one entry |
| LruCaches.MemoryCache.Get | src/cache/memory.ts:27-35 | a hit exactly for a held key, with the value last set; it becomes the newest, and nothing is lost |
| LruCaches.MemoryCache.Set | src/cache/memory.ts:37-60 | the byte total stays the sum of the costs, and the evicted entries are a prefix of the candidates |
| LruCaches.MemoryCache.Delete | src/cache/memory.ts:62-69 | removes the entry and its cost, and no other |
| LruCaches.EvictionKeepsLeases | src/cache/memory.ts:111-115 | dropping the evicted keys' expiries keeps every expiry beside a live value |
| LruCaches.SetKeepsLeases | src/cache/memory.ts:132-139 | after a set every entry has the value and deadline last asked for |
| LruCaches.InMemoryCache.Get | src/cache/memory.ts:117-130 | never a stale or expired value; a miss leaves neither value nor expiry |
| LruCaches.InMemoryCache.Set | src/cache/memory.ts:132-139 | the key's lease is the new one, all others are as before or evicted |
| DiskTier.StepKeepsInv | src/cache/cached-store.ts:60-150 | every step of gets, fetches, writes, evictions and clears keeps the invariant |
| DiskTier.RunsKeepInv | src/cache/cached-store.ts:60-150 | so does every interleaving |
| DiskTier.OneFetchPerKey | src/cache/cached-store.ts:88-101 | at most one caching fetch per key is under way |
| DiskTier.FinallyRemovesOwnEntry | src/cache/cached-store.ts:94-101 | a `finally` removes its own in-flight entry and nobody else's |
| DiskTier.GetReturnsBackendValue | src/cache/cached-store.ts:60-101 | a get returns what the backend holds |
| DiskTier.EventsExplainRun | src/cache/cached-store.ts:60-150 | over every run a get throws only where the backend rejected its key, a fetch ends as the backend answered, what it found has been written to disk unless the store was closed, and the store is closed exactly once cleared |
| DiskTier.WriteLands | src/cache/cached-store.ts:103-111 | a stored write puts what the backend holds on disk under its key |
| DiskTier.DiskKeeps | src/cache/cached-store.ts:60-150 | where it stays until it is evicted or the directory is removed |
| DiskTier.MetadataBySuffix | src/cache/cached-store.ts:153-155 | metadata keys are those that end in one of the four metadata names |
| DiskTier.CachedStore.Get | src/cache/cached-store.ts:60-75 | a call goes past the cache exactly for a closed store, a metadata key, or caching switched off |
| DiskTier.NoWriteAfterRemoval | src/cache/cached-store.ts:143-150 | once a removal has started no write is under way, none begins, and the disk does not grow |
| DiskTier.RemovedStaysGone | src/cache/cached-store.ts:136-150 | over every continuation a removed directory stays gone |
| DiskTier.CallsAreNeverStuck | src/cache/cached-store.ts:60-150 | a waiting get or clear can go on, or its fetch can |
| DiskTier.CachedStore.AfterDisk | src/cache/cached-store.ts:76-96 | a hit returns the file, a miss joins the fetch in flight for its key or starts one |
| DiskTier.CachedStore.AfterBackend | src/cache/cached-store.ts:103-111 | the answer is written to disk if present and the store open, and ends the fetch otherwise |
| DiskTier.CachedStore.AfterFetch | src/cache/cached-store.ts:96-101 | the get returns what the backend holds, or throws if its fetch was rejected |
| DiskTier.CachedStore.ClearCache | src/cache/cached-store.ts:143-148 | closing and taking the snapshot is the machine step |
| DiskTier.CachedStore.AfterWrite | src/cache/cached-store.ts:107-111 | the end of a disk write is the machine step |
| DiskTier.CachedStore.AfterRemoval | src/cache/cached-store.ts:149-150 | the end of the removal is the machine step, and leaves an empty disk if it succeeded |
| RegistrySafety.DisposeKeeps | src/dataset/registry.ts:408-419 | disposing the oldest entry keeps the invariant: its id has no other teardown and no build |
| RegistrySafety.EvictKeeps | src/dataset/registry.ts:408-419 | eviction leaves exactly the newest entries and disposes the others |
| RegistrySafety.StepKeepsInv | src/dataset/registry.ts:297-433 | every step of opens, builds, publications, evictions, teardowns and clears keeps the invariant |
| RegistryRuns.RunsKeepInv | src/dataset/registry.ts:297-433 | so does every interleaving, and the Map never exceeds its cap |
| RegistryRuns.NoBuildDuringTeardown | src/dataset/registry.ts:308-319 | while a teardown of an id is pending no build of it runs and no handle of it is cached |
| RegistryRuns.OneTeardownPerId | src/dataset/registry.ts:421-433 | at most one teardown per id is pending, and it is the tracked one |
| RegistryRuns.OneOpenStorePerId | src/dataset/registry.ts:297-329 | at most one store per id is building or cached |
| RegistryRuns.OneUnclosedStorePerId | src/dataset/registry.ts:361-406 | counting failed builds as well, two unclosed stores of one id mean that a build of the id has failed |
| RegistryRuns.FailedBuildLeavesStoreOpen | src/dataset/registry.ts:361-406 | a failed build and a second open leave two unclosed stores of one id |
| RegistryRuns.PublishOverwritesNothing | src/dataset/registry.ts:319-323 | publishing a handle overwrites no other |
| RegistryRuns.PublishEvictsLeastRecent | src/dataset/registry.ts:319-323 | after a build the Map is within its cap, keeps the handle just opened, and lost only handles used before all that stayed |
| RegistryRuns.DisposedExactlyOnce | src/dataset/registry.ts:408-433 | a published handle is cached or has been disposed, never both, and exactly once |
| RegistryRuns.ClearTearsDownAll | src/dataset/registry.ts:331-359 | when a clear resolves, every handle cached or in flight at its call has finished its teardown |
| RegistryRuns.ClearedSinceCall | src/dataset/registry.ts:331-359 | whatever happened since a clear was called, once it has resolved every handle of the state it was called in, and of every open then in flight, is torn down |
| RegistryRuns.OpenEndsWithHandle | src/dataset/registry.ts:315-329 | an open that published a handle ends with it, and no other open does |
| RegistryRuns.OpensEndAsBuilt | src/dataset/registry.ts:297-329 | over every run an open ends with a handle only if its build succeeded, and without only if it failed |
| RegistryRuns.WorkLowersMeasure | src/dataset/registry.ts:297-433 | every step other than a new call lowers what is left to do |
| RegistryRuns.WorkEnds | src/dataset/registry.ts:297-433 | without new calls no execution is longer than the work left at its start |
| RegistryRuns.NothingIsStuck | src/dataset/registry.ts:297-433 | unless every open has ended, every disposal has settled and every clear has resolved, some step other than a new call can happen |
| DatasetRegistry.ZarrDatasetRegistry.Open | src/dataset/registry.ts:297-329 | a cached handle is handed out and becomes the newest, an open in flight is joined, and only otherwise a new one starts, behind a pending teardown of its id |
| DatasetRegistry.ZarrDatasetRegistry.AfterBuilt | src/dataset/registry.ts:319-323 | publishing and evicting is the machine step, within the cap |
| DatasetRegistry.ZarrDatasetRegistry.EvictWhileOver | src/dataset/registry.ts:408-419 | the eviction loop disposes from the oldest end |
| DatasetRegistry.ZarrDatasetRegistry.AfterOpen | src/dataset/registry.ts:324-326 | the `finally` drops the in-flight entry, and the open ends with the handle it published |
| DatasetRegistry.ZarrDatasetRegistry.Untracked | src/dataset/registry.ts:426-433 | a settled teardown drops its own tracking entry only |
| DatasetRegistry.ZarrDatasetRegistry.ClearContinues | src/dataset/registry.ts:339-355 | waits again while opens are in flight, and otherwise sweeps every entry and waits for exactly those disposals |
| DatasetRegistry.ZarrDatasetRegistry.Clear | src/dataset/registry.ts:339-346 | the stretch of a clear call is the machine step |
| DatasetRegistry.ZarrDatasetRegistry.AfterDisposals | src/dataset/registry.ts:356-358 | turning to the other tracked teardowns is the machine step |
| DatasetRegistry.ZarrDatasetRegistry.AfterTeardowns | src/dataset/registry.ts:358-359 | resolving once they have settled is the machine step |
| DecodePool.EventKeepsInv | src/codec/decode-pool.ts:105-214 | every call, reply, error and termination keeps the invariant |
| DecodePool.RunsKeepInv | src/codec/decode-pool.ts:105-214 | so does every sequence of them |
| DecodePool.RunningPoolIsFull | src/codec/decode-pool.ts:140-214 | a running pool has its size, idle workers are those without a job, and calls queue only behind busy workers |
| DecodePool.ErrorKeepsSizeIff | src/codec/decode-pool.ts:205-214 | an error keeps the size exactly when it comes from a current worker |
| DecodePool.SecondErrorGrowsPool | src/codec/decode-pool.ts:168-214 | two errors of the same worker leave a pool of one with two workers |
| DecodePool.EachCallInOnePlace | src/codec/decode-pool.ts:105-214 | each decode call is queued, on one worker or settled, in one place and once |
| DecodePool.TerminatedSettlesAll | src/codec/decode-pool.ts:122-138 | after termination every call is settled exactly once |
| DecodePool.SettlementsAreFinal | src/codec/decode-pool.ts:150-179 | no event takes a settlement back |
| DecodePool.ResolvedExactly | src/codec/decode-pool.ts:150-179 | over every run a call resolves exactly if the worker that runs it answers its message well before any error of that worker and before termination |
| DecodePool.RejectedExactly | src/codec/decode-pool.ts:105-179 | and rejects exactly if that worker answers badly or dies, the pool is terminated with the call open, or the call comes after termination |
| DecodePool.StateOfEvents | src/codec/decode-pool.ts:80-138 | the size of the pool, the number of calls, termination and dead workers, from the events of a run |
| DecodePool.RunsInOrder | src/codec/decode-pool.ts:105-203 | calls start in the order they were made |
| DecodePool.WorkerPool.Decode | src/codec/decode-pool.ts:105-119 | a call goes to an idle worker, the queue, or after termination to a rejection |
| DecodePool.WorkerPool.OnMessage | src/codec/decode-pool.ts:155-167 | a matching reply settles its call as it says and frees the worker; a stale one does nothing |
| DecodePool.WorkerPool.OnError | src/codec/decode-pool.ts:168-177 | an error fails the worker's call and replaces the worker |
| DecodePool.WorkerPool.Terminate | src/codec/decode-pool.ts:122-138 | the two loops reject everything queued and running, in order |

## Left out

- Reals stand for the coordinates: IEEE rounding, NaN and infinite coordinates, and the 32-bit `>>>` of the binary searches are not modelled.
- Array elements are opaque byte groups: conversion of the fill value and of values to numbers (`Number`, `BigInt`), and the alignment of typed views, are not modelled.
- 0-dimensional arrays, zero-extent dimensions, out-of-bounds or short selections, non-monotone axes and layouts that do not fit the array are outside the contracts.
- Codecs are total functions on bytes, or fail; worker threads are their events. A worker is taken to raise an error at most once.
- Stores are an immutable map from key to bytes that answers in any order and may fail; S3, HTTP, filesystem, Redis and kerchunk stores, retries and hashing of directory names are not modelled, and ids are taken to map to distinct directories.
- In the loader and the registry a stretch may be cut into several steps (one launch, one recheck at a time), so the machines allow more interleavings than JavaScript has; in the loader's memory cache a key may be missed at any time, which stands for eviction.
- The loader takes cached chunks to be coherent with the store at the start, and the disk cache likewise; both are then kept so.
- RegistryRuns.OneOpenStorePerId: speaks of stores that are building or cached; `OneUnclosedStorePerId` adds those that failed builds leave open, taking every failed build to have made its store.
- PolygonReader.ReadPolygon: returns its steps as a list, with the error that ended it; the laziness of the generator is not modelled.
- Which chunks are large enough to be decoded off the main thread, and `CachedStore.getRange`, which passes through or slices a whole chunk, are not modelled.
- JSON and consolidated metadata, group traversal, the metadata and coordinate caches of a dataset handle, disk eviction by age, `GridIndex.nearest`, `whenTornDown`, observability hooks, warnings and the texts of errors are not modelled.
- Rejection of 64-bit integer coordinates and of malformed vertices is in the types of the model.
