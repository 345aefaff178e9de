# Verified model of the attention-metadata layer

The engine turns each scheduled batch (query offsets, sequence lengths, block tables,
image spans) into per-token index rows, key bounds and chunk plans, and writes them into
buffers that live as long as the engine.  This project models that layer in Dafny and
proves what it is for: every token sees exactly the KV positions it may see, every token
is handled exactly once, and nothing left in a buffer by an earlier step shows through.
Two smaller algorithms of the repository are modelled beside it: the synthetic acceptance
schedule of speculative decoding and the lane layout of the trace converter.

`dafny verify dfyconfig.toml` verifies the whole project.

| component | modules |
|---|---|
| Indexer, decode | `DecodeSpec` (meaning), `DecodeBuilder` (buffers), `DecodeTheorems`, `DecodeMeaning` (entry by entry), `DecodeLimits` (where the meaning stops) |
| Indexer, prefill | `PrefillSplit`, `PrefillPlan`, `PrefillRows` |
| Context-parallel sharding | `Dcp` |
| Sliding window | `SwaPlan`, `ImageSpans`, `SwaRows`, `SwaTheorems`, `SwaDraft` |
| C128A | `C128A`, on `RowBuffer` and `PagedRows` |
| Attention layer | `SparseCache`, `ForwardSplit` |
| Across components | `Classification` |
| Secondary | `AcceptanceSchedule`, `TraceLayout` |
| Shared | `Ragged`, `GreedyPartition`, `Launch`, `Sums`, `Arith`, `PowersOfTwo`, `Options` |

How the source's notions appear:

- Integers are unbounded; `//` is floor division, which for the positive divisors used
  here is Dafny's `/`.  Floats of the acceptance schedule are reals.
- A Triton launch is its set of programs run in an arbitrary order, given as a parameter;
  a masked tile is a loop over lanes.  A PyTorch slice assignment is a `forall` statement.
- Index matrices are flat arrays with a stride (`RowBuffer.Rows`); decode metadata is
  handed out as views of the builder's arrays, so aliasing is part of the model.
- Assumed of every batch, as the engine promises: query offsets start at 0 and do not
  decrease, decodes come first, and device and host query lengths have the same total
  (they are equal when adaptive verification is off).

## Findings

Each is about the code as written.  Whether a caller reaches the case (a draft update on
metadata without decode tokens or with non-causal rows, a consumer that reads request-level
global lengths by row) is not part of this model.

- The uniform decode fast path clamps lengths at zero and the general flatten path does
  not.  Where the fast path's guard holds they agree if and only if no request is more
  than one key shorter than its row count (`DecodeTheorems.UniformEqualsGeneral`); a
  padding request with two rows and no keys is a batch on which they differ
  (`DecodeTheorems.UniformDiffersOnEmptyPadding`).
- The same clamp is missing from lengths of the general path: it hands out no negative
  length if and only if no request runs more than one row (on a sharded step: one row and
  the rank's margin) beyond its length (`DecodeLimits.GeneralPathNonNegativeIff`); a batch
  on which it hands out -1 is `DecodeLimits.GeneralPathHandsOutNegative`.  The clamping
  paths never do (`DecodeLimits.ClampingPathsNonNegative`).
- Under context parallelism the global lengths handed on are those of requests, not of
  rows, when no host query length exceeds one.  Where rows are flattened they describe the
  rows, for all sequence lengths, if and only if some host length exceeds one or the device
  runs one row for each of the first requests (`DecodeLimits.GlobalRowsDescribeIff`);
  adaptive verification breaks this (`DecodeLimits.AdaptiveGlobalRowsMismatch`).
- The native lengths assume that every request runs the batch's largest number of rows.
  The entry of a live token is its causal length if and only if its request does
  (`DecodeTheorems.GlobalRowIff`, `DecodeLimits.NativeCellIsCausalIff`);
  `DecodeLimits.NativeCellMismatch` is a valid native batch in which a cell holds 4 and the
  token's causal length is 5.  Where native kernels are used the decode split asks for
  uniform decodes (`require_uniform`, indexer.py:858-865), so whether such a batch arrives
  depends on that split, and that token j of request r is read from cell (r, j) depends on
  a packing helper; neither is part of this model.
- A draft update of sliding-window metadata returns early when there are no decode tokens
  and then keeps the sparse-index cache.  One update is safe for every index construction
  if and only if there are decode tokens, nothing is cached, or the inputs are unchanged
  (`SparseCache.DraftIsSafeIff`).  Over whole runs, cached serving equals recomputation for
  every construction if and only if every hit finds an entry computed from the current
  inputs (`SparseCache.CachedEqualsUncachedIff`);
  `SparseCache.DraftWithoutDecodesServesStale` is a run in which a layer is served a stale
  result.
- A draft update runs the causal kernel with the row width as window.  On causal rows this
  is a fresh build (`SwaDraft.DraftUpdateEqualsFreshBuild`).  On the wider rows of a
  non-causal draft block it leaves a token the row and length of a fresh build if and only
  if the token is the last of its block and its whole context is inside the window or the
  row has no spare width (`SwaDraft.RefreshOfWideRows`); in
  `SwaDraft.RefreshHidesFutureToken` the first of two draft tokens loses sight of the
  second.
- The trace converter keeps a zero-length span on its request's lane without looking.  An
  instant put inside a longer span hides that span from the next check, and two overlapping
  spans end up on one lane (`TraceLayout.BuriedInstantHidesOverlap`).  Placing a span keeps
  all lanes free of overlaps if and only if it is not a zero-length span whose request's
  lane holds a span around it (`TraceLayout.Layout.Place`).  So the whole layout has no
  overlap if and only if no span of the input meets that condition when its turn comes,
  computed from the input alone (`BuriesNone` in `TraceLayout.LayOut`).  A microsecond is
  taken off every end (convert_otel_2_perfetto.py:209), so ends may lie before starts;
  such a span counts as an instant at its start, is always checked, and never breaks this.
- Sharding compressed keys and compressing sharded keys agree on every rank and for every
  length if and only if there is one rank or no compression, which is the combination
  `indexer.py:635` admits (`Classification.ShardingCommutesIff`); otherwise rank 0 differs
  when `ratio` runs are complete (`Classification.OrdersDiffer`, and with numbers
  `Classification.ShardingAndCompressionDoNotCommute`).

## Model

| member | source | states |
|---|---|---|
| DecodeBuilder.Builder.constructor | docker/overlay-sm121-adaptive/indexer.py:581-619 | the persistent decode buffers are distinct arrays of the batch-token limit |
| DecodeBuilder.Builder.BuildDecode | docker/overlay-sm121-adaptive/indexer.py:943-1063 | the readable decode metadata (lengths, decode lengths, block-table rows, varlen ids, global lengths, padding flag) is a function of the batch alone, and the caller's sequence lengths are unchanged |
| DecodeBuilder.Builder.ExpandLens | docker/overlay-sm121-adaptive/indexer.py:726-745 | expansion through the shared length buffer gives each flat row its own causal length |
| DecodeBuilder.Builder.PrepareGlobalLens | docker/overlay-sm121-adaptive/indexer.py:794-820 | under context parallelism the global lengths are the request lengths or the per-row causal lengths with zero padding |
| DecodeBuilder.Builder.BuildVarlenIndices | docker/overlay-sm121-adaptive/indexer.py:822-842 | each row's request id, and fresh ids for padding rows |
| DecodeBuilder.Builder.CopyRow | docker/overlay-sm121-adaptive/indexer.py:90-97 | the tiled masked copy stores one block-table row and leaves every other row alone |
| DecodeBuilder.Builder.UniformProgram | docker/overlay-sm121-adaptive/indexer.py:78-100 | one program stores its row's causal length, clamped at zero, its request's block-table row and a decode length of one, and disturbs no other program's row |
| DecodeBuilder.Builder.LaunchUniform | docker/overlay-sm121-adaptive/indexer.py:702-716 | for any program order the uniform kernel leaves every row its length, block-table row and decode length |
| DecodeBuilder.Builder.Flatten | docker/overlay-sm121-adaptive/indexer.py:692-764 | both ways of flattening leave one row per token with its length and block-table row |
| DecodeBuilder.Builder.StoreFlatLens | docker/overlay-sm121-adaptive/indexer.py:736-747 | the general path stores the causal lengths and zero past the last row |
| DecodeBuilder.Builder.StoreFlatRows | docker/overlay-sm121-adaptive/indexer.py:749-760 | each row gets its request's block-table row; of padding rows only the first entry is cleared |
| DecodeBuilder.Builder.StoreNativeLens | docker/overlay-sm121-adaptive/indexer.py:776-791 | row-major native lengths, clamped at zero, within the shared buffer |
| DecodeBuilder.Builder.PrepareDecodeTensors | docker/overlay-sm121-adaptive/indexer.py:677-792 | which path is taken, what it returns, and which buffer the returned lengths live in |
| DecodeBuilder.Builder.Localize | docker/overlay-sm121-adaptive/indexer.py:657-675 | every length replaced by its rank-local length, in the builder's own buffer only |
| DecodeBuilder.Builder.Compress | docker/overlay-sm121-adaptive/indexer.py:1025-1036 | lengths divided by the ratio, in place only on the builder's buffer, else into a padded copy |
| DecodeBuilder.Builder.FinishLens | docker/overlay-sm121-adaptive/indexer.py:1015-1036 | sharding after expansion followed by compression gives the final lengths |
| DecodeSpec.UniformOnDevice | docker/overlay-sm121-adaptive/indexer.py:694-701 | the uniform guard implies uniform device lengths, also under adaptive verification |
| DecodeSpec.UniformRow | docker/overlay-sm121-adaptive/indexer.py:78-88 | row idx of a uniform batch is query idx % m of request idx / m with its causal length |
| DecodeTheorems.UniformEqualsGeneral | docker/overlay-sm121-adaptive/indexer.py:82-88 | fast and general path agree if and only if no request is more than one key short of its rows |
| DecodeTheorems.UniformDiffersOnEmptyPadding | docker/overlay-sm121-adaptive/indexer.py:82-88 | a concrete padded batch on which the two paths differ |
| DecodeTheorems.GlobalRowIff | docker/overlay-sm121-adaptive/indexer.py:691-791 | before sharding and compression a live token's entry is its causal length on the flattened paths, and on the native path if and only if its request runs the largest number of rows |
| DecodeTheorems.UniformEntry | docker/overlay-sm121-adaptive/indexer.py:776-791 | if the device runs equally many rows everywhere, native entries are flat rows |
| DecodeTheorems.RowSeesItsCausalPrefix | docker/overlay-sm121-adaptive/indexer.py:691-791 | on every path a live token's entry gets its causal prefix, sharded and compressed, and padding rows get zero |
| DecodeTheorems.EmptyRequestSeesNothing | docker/overlay-sm121-adaptive/indexer.py:82-88 | on the clamping paths the rows of a padding request without keys get length zero |
| DecodeTheorems.PositiveRowsAreFresh | docker/overlay-sm121-adaptive/indexer.py:749-760 | a row of positive length shows its own request's block-table row, never a stale one |
| DecodeTheorems.PaddingIdsAreFresh | docker/overlay-sm121-adaptive/indexer.py:837-841 | padding ids differ from request ids and from each other |
| DecodeTheorems.RunBuilds | docker/overlay-sm121-adaptive/indexer.py:844-1079 | after any run of builds the last metadata describes the last batch |
| DecodeTheorems.HistoryDoesNotMatter | docker/overlay-sm121-adaptive/indexer.py:844-1079 | two builders with any two histories and any program orders hand out equal readable metadata, global lengths included, for the same batch |
| DecodeMeaning.PathTaken | docker/overlay-sm121-adaptive/indexer.py:694-701 | the guards of the native and the uniform path, by the host query lengths |
| DecodeMeaning.PaddingFlag | docker/overlay-sm121-adaptive/indexer.py:774 | native lengths need packing exactly when the host query lengths differ |
| DecodeMeaning.FlatLength | docker/overlay-sm121-adaptive/indexer.py:726-747 | in the built metadata, the length at token j of request r is seqLen - queryLen + j + 1, clamped on the uniform path, counted on this rank and compressed |
| DecodeMeaning.FlatRowOfToken | docker/overlay-sm121-adaptive/indexer.py:749-764 | its block-table row is that of request r, entry by entry, and its decode length is one |
| DecodeMeaning.IdOfToken | docker/overlay-sm121-adaptive/indexer.py:833-837 | its id is r, in as many ids as there are tokens |
| DecodeMeaning.PaddingLength | docker/overlay-sm121-adaptive/indexer.py:747 | rows past the last token have no keys |
| DecodeMeaning.PaddingBlock | docker/overlay-sm121-adaptive/indexer.py:756-760 | and a cleared first block |
| DecodeMeaning.PaddingId | docker/overlay-sm121-adaptive/indexer.py:837-841 | and the ids that follow the request ids |
| DecodeMeaning.NativeTables | docker/overlay-sm121-adaptive/indexer.py:792 | native steps hand on the caller's block table and the device query lengths |
| DecodeMeaning.NativeLength | docker/overlay-sm121-adaptive/indexer.py:776-791 | cell (r, j) of the native lengths is seqLen - m + j + 1, clamped, for the largest host length m |
| DecodeMeaning.NativeSingle | docker/overlay-sm121-adaptive/indexer.py:1025-1036 | single-token native steps hand on the request lengths, with compression one per token and zero past the requests |
| DecodeMeaning.GlobalOfRequest | docker/overlay-sm121-adaptive/indexer.py:804-805 | the global lengths are the request lengths on the native path and when no host length exceeds one |
| DecodeMeaning.GlobalOfToken | docker/overlay-sm121-adaptive/indexer.py:807-820 | otherwise the causal length of each token, unsharded |
| DecodeMeaning.GlobalOfPadding | docker/overlay-sm121-adaptive/indexer.py:819 | and zero past the last token |
| DecodeLimits.NativeCellIsCausalIff | docker/overlay-sm121-adaptive/indexer.py:776-791 | a native cell holds its live token's causal length if and only if the request runs the largest number of rows |
| DecodeLimits.NativeCellMismatch | docker/overlay-sm121-adaptive/indexer.py:776-791 | a native batch of two row counts in which a cell does not hold its token's causal length |
| DecodeLimits.GlobalRowsDescribeIff | docker/overlay-sm121-adaptive/indexer.py:794-820 | when the global lengths handed on are those of the flattened rows, as an if-and-only-if on host and device row counts |
| DecodeLimits.AdaptiveGlobalRowsMismatch | docker/overlay-sm121-adaptive/indexer.py:804-805 | an adaptive batch in which a row is handed the length of another request |
| DecodeLimits.FlatLensBoundedIff | docker/overlay-sm121-adaptive/indexer.py:736-746 | how far below zero the flattened lengths go, as an if-and-only-if on overruns of requests |
| DecodeLimits.GeneralPathNonNegativeIff | docker/overlay-sm121-adaptive/indexer.py:736-746 | the general path hands out no negative length if and only if no request overruns its length by more than one row and the rank's margin |
| DecodeLimits.ClampingPathsNonNegative | docker/overlay-sm121-adaptive/indexer.py:82-88 | the uniform and the native path hand out no negative length |
| DecodeLimits.GeneralPathHandsOutNegative | docker/overlay-sm121-adaptive/indexer.py:736-746 | a batch on which the general path hands out -1 |
| Ragged.RepeatInterleaveByRequest | docker/overlay-sm121-adaptive/indexer.py:736-740 | repeat_interleave by the row counts puts each request's value on exactly its rows |
| Dcp.LocalLenStep | docker/overlay-sm121-adaptive/indexer.py:296-304 | one more key grows the local length by one on its owner and nowhere else |
| Dcp.LocalLenCountsOwnedKeys | docker/overlay-sm121-adaptive/indexer.py:296-304 | the local-length formula counts the keys the rank owns |
| Dcp.LocalLenMonotone | docker/overlay-sm121-adaptive/indexer.py:296-304 | the local length is monotone and grows by at most one per key |
| Dcp.LocalLenSign | docker/overlay-sm121-adaptive/indexer.py:296-304 | the local length of a length below zero is non-negative exactly within the turns of the later ranks |
| Dcp.RanksShareEveryKey | docker/overlay-sm121-adaptive/indexer.py:296-304 | over all ranks the local lengths sum to the global length |
| Dcp.LocalLenInterleaveOne | docker/overlay-sm121-adaptive/indexer.py:297-298 | the short closed form for interleave 1 |
| Dcp.LocalizeAfterExpansion | docker/overlay-sm121-adaptive/indexer.py:954-961 | localizing after expansion is exact; expanding a localized length never gives more, and gives as much if and only if the rank owns every later position |
| Dcp.ExpandingALocalLengthIsTooShort | docker/overlay-sm121-adaptive/indexer.py:956-960 | the worked example: bounds 8, 9, 10 localize to 4, 4, 5, while expansion would start at 3 |
| GreedyPartition.GreedyIsOptimal | docker/overlay-sm121-adaptive/indexer.py:125-141 | greedy grouping under a hereditary test uses the fewest groups |
| PrefillSplit.NextGroup | docker/overlay-sm121-adaptive/indexer.py:126-141 | the inner loop takes the longest admissible group, or the single oversized request |
| PrefillSplit.AppendSlices | docker/overlay-sm121-adaptive/indexer.py:144-147 | the query loop cuts a group's queries into runs of at most the row limit |
| PrefillSplit.SplitIndexerPrefillChunks | docker/overlay-sm121-adaptive/indexer.py:103-149 | the chunks are the query slices of a greedy partition into admissible groups |
| PrefillPlan.SplitUsesFewestGroups | docker/overlay-sm121-adaptive/indexer.py:120-149 | no in-order grouping into budget-respecting or single-request groups is shorter |
| PrefillPlan.SplitTilesAllTokens | docker/overlay-sm121-adaptive/indexer.py:120-149 | token ranges tile all prefill tokens in order; logits rows times keys stay within the budget or one row; only single requests are cut |
| PrefillPlan.ChunkFitsWorkspace | docker/overlay-sm121-adaptive/indexer.py:112-116 | if every request alone fits the gather workspace, every chunk does |
| PrefillPlan.BuildPrefillChunks | docker/overlay-sm121-adaptive/indexer.py:904-941 | all planned token ranges, counted from the query offsets of their requests, tile the prefill tokens behind the decode tokens; handed out are those with compressed keys, each with its range and gather flag; no token is in two, and a token whose request has compressed keys is in one |
| PrefillPlan.EveryTokenOnce | docker/overlay-sm121-adaptive/indexer.py:1166-1172 | a prefill token is in a chunk handed out unless its request has no compressed keys |
| PrefillPlan.KeptInOrder | docker/overlay-sm121-adaptive/indexer.py:1166-1172 | the ranges handed out are in order and disjoint |
| PrefillPlan.SplitGroupsAreFull | docker/overlay-sm121-adaptive/indexer.py:126-136 | with the next request a group would exceed the workspace or the logits budget |
| PrefillPlan.SplitCutsOnlyWhatItMust | docker/overlay-sm121-adaptive/indexer.py:144-147 | a group within both budgets is one chunk, and every slice of a cut request but its last has max(1, logits / keys) queries |
| PrefillPlan.DropEmptyChunks | docker/overlay-sm121-adaptive/indexer.py:1097-1099 | chunks whose requests have no compressed keys are dropped, the others get the token range of their queries |
| PrefillPlan.SkippedGatherFollows | docker/overlay-sm121-adaptive/indexer.py:933 | a kept chunk that skips the KV gather directly continues the kept chunk before it |
| PrefillPlan.GatherIsStillThere | docker/overlay-sm121-adaptive/indexer.py:1166-1172 | the same requests were gathered earlier and only their chunks lie in between |
| PrefillPlan.DroppedChunksHaveNoKeys | docker/overlay-sm121-adaptive/indexer.py:1097-1099 | a chunk is dropped if and only if its group has no compressed keys, and it is then the whole group |
| PrefillRows.RowOutputs.LaneBounds | docker/overlay-sm121-adaptive/indexer.py:277-309 | one lane computes the key bounds of its query, sharding included |
| PrefillRows.RowOutputs.StoreBounds | docker/overlay-sm121-adaptive/indexer.py:279-309 | a program's tiled masked loop stores the bounds of its own queries in the slice, once each |
| PrefillRows.RowOutputs.StoreOwners | docker/overlay-sm121-adaptive/indexer.py:311-315 | a program marks exactly its own segment of gathered keys |
| PrefillRows.RowOutputs.Program | docker/overlay-sm121-adaptive/indexer.py:260-315 | a program touches its own request's slots and no others |
| PrefillRows.RowOutputs.Launch | docker/overlay-sm121-adaptive/indexer.py:384-418 | for any program order every bound slot is stored exactly once with its query's bounds, and every key gets its request |
| PrefillRows.DeviceKeysFit | docker/overlay-sm121-adaptive/indexer.py:1097-1103 | arrays sized from host upper bounds hold all device keys |
| PrefillRows.LaunchOwners | docker/overlay-sm121-adaptive/indexer.py:311-315 | after a launch in any order the place of key k of request b, behind seqLens[c] / ratio keys of each earlier request c, names b |
| PrefillRows.SingleRankStarts | docker/overlay-sm121-adaptive/indexer.py:1110 | without sharding the row bounds count from the key segments themselves |
| PrefillRows.BoundsOfQuery | docker/overlay-sm121-adaptive/indexer.py:277-309 | the bounds of query j of request b: behind the rank's keys of the earlier requests, as many as it owns of the (seqLen - queryLen + j + 1) / ratio completed ones |
| PrefillRows.BoundsInOwnSegment | docker/overlay-sm121-adaptive/indexer.py:1105-1127 | a query's bounds lie in its own request's segment, global or rank-local |
| PrefillRows.BoundsCountOwnedKeys | docker/overlay-sm121-adaptive/indexer.py:294-309 | the bounds span the rank's share of the completed compressed keys, and the ranks' spans add up to all of them |
| PrefillRows.SlicedRunEqualsWhole | docker/overlay-sm121-adaptive/indexer.py:1136-1164 | the planned query slices concatenate to the unsliced run |
| PrefillRows.LaunchSlice | docker/overlay-sm121-adaptive/indexer.py:384-418 | one launch on fresh outputs yields the bounds of its slice, for any program order |
| PrefillRows.LaunchChunks | docker/overlay-sm121-adaptive/indexer.py:1136-1164 | launching one slice after the other yields the concatenated bounds |
| PrefillRows.SlicedLaunchEqualsWhole | docker/overlay-sm121-adaptive/indexer.py:1136-1164 | launching each planned slice and concatenating equals one launch over the whole group, for any program orders |
| Classification.PrefillAndDecodeAgreeIff | docker/overlay-sm121-adaptive/indexer.py:294-304 | a token gets the same key bound as prefill query and as decode row on every decode path if and only if sharding and compression commute on its causal length |
| Classification.PrefillAndDecodeAgree | docker/overlay-sm121-adaptive/indexer.py:294-304 | under the combinations the builder admits it always does |
| Classification.ShardingCommutesIff | docker/overlay-sm121-adaptive/indexer.py:635-639 | sharding and compression commute on every rank and length if and only if the builder's guard admits the combination |
| Classification.OrdersDiffer | docker/overlay-sm121-adaptive/indexer.py:635-639 | for every refused combination a length on which rank 0 differs |
| Classification.C128AAgrees | docker/overlay-sm121-adaptive/sparse_mla.py:391-394 | the C128A count equals the prefill bound of the same token |
| Classification.ShardingAndCompressionDoNotCommute | docker/overlay-sm121-adaptive/indexer.py:635-639 | the smallest case in numbers |
| SwaPlan.GrowChunk | docker/overlay-sm121-adaptive/sparse_swa.py:249-269 | the inner loop takes the longest chunk whose area fits, with its exact maxima |
| SwaPlan.GetPrefillChunkPlan | docker/overlay-sm121-adaptive/sparse_swa.py:209-280 | the plan lists a greedy partition of all prefills, in order, with exact widths |
| SwaPlan.PlanUsesFewestChunks | docker/overlay-sm121-adaptive/sparse_swa.py:246-280 | no in-order plan within the area (or of single requests) has fewer chunks |
| SwaPlan.PlanStaysInWorkspace | docker/overlay-sm121-adaptive/sparse_swa.py:218-230 | under the engine's limits every chunk fits the workspace area and every chunk but the last has at least the chunk size |
| SwaPlan.PlanWidthsAreMaxima | docker/overlay-sm121-adaptive/sparse_swa.py:231-244 | a chunk's widths are the exact maxima of compressed length and of queries plus clamped prefix over its requests |
| SwaPlan.PlanChunkIsFull | docker/overlay-sm121-adaptive/sparse_swa.py:253-265 | with the next request a chunk would exceed the configured area |
| SwaPlan.GatherHoldsWindows | docker/overlay-sm121-adaptive/sparse_swa.py:304-321 | the gather length reaches back exactly to the first key of the first query's window |
| SwaPlan.ComputeGatherLens | docker/overlay-sm121-adaptive/sparse_swa.py:304-321 | the one-program kernel stores every prefill's gather length and never addresses outside its inputs |
| SwaPlan.PlanCoversDeviceLengths | docker/overlay-sm121-adaptive/sparse_swa.py:232-244 | rows planned from host upper bounds hold the device's compressed and gathered lengths, for any device lengths up to the host's |
| PowersOfTwo.NextPow2IsLeast | docker/sgl-src/python/sglang/_platform_stubs.py:103-105 | the result is the least power of two not below the argument |
| ImageSpans.SpanBuffers.CollectSpans | docker/overlay-sm121-adaptive/sparse_swa.py:753-761 | the CSR offsets and the flattened spans |
| ImageSpans.SpanBuffers.Upload | docker/overlay-sm121-adaptive/sparse_swa.py:762-766 | the uploaded buffers hold the CSR form whatever they held before |
| ImageSpans.SpanBuffers.ScanSpans | docker/overlay-sm121-adaptive/sparse_swa.py:931-942 | scanning the uploaded segment computes the visibility of the token's own request |
| ImageSpans.SpanBuffers.VisibilityProgram | docker/overlay-sm121-adaptive/sparse_swa.py:922-944 | one program stores its token's counts and no others |
| ImageSpans.SpanBuffers.BuildVisibility | docker/overlay-sm121-adaptive/sparse_swa.py:738-780 | for any program order every prefill token gets its visibility counts |
| ImageSpans.VisibleReachesSpanEnds | docker/overlay-sm121-adaptive/sparse_swa.py:915-921 | for disjoint spans within the limit the counts reach exactly to the ends of the token's own span |
| ImageSpans.NothingVisibleOutside | docker/overlay-sm121-adaptive/sparse_swa.py:915-921 | tokens outside every span get no extra visibility |
| ImageSpans.VisibleIsLastSpan | docker/overlay-sm121-adaptive/sparse_swa.py:931-942 | for any spans the last one that holds the token decides, up to the limits |
| ImageSpans.VisibleOfRequest | docker/overlay-sm121-adaptive/sparse_swa.py:753-761 | the counts by the entry of the token's request in the batch's image ranges, none without an entry |
| PagedRows.SlotInverts | docker/overlay-sm121-adaptive/sparse_swa.py:1011-1018 | a slot gives back its block and its place in the block |
| PagedRows.SlotInjective | docker/overlay-sm121-adaptive/sparse_swa.py:1011-1018 | with distinct blocks a slot stands for one position |
| PagedRows.PagedRowIsExact | docker/overlay-sm121-adaptive/sparse_swa.py:1005-1025 | a wide enough row holds exactly its positions' slots, in order, distinct and non-negative, then only -1 |
| PagedRows.PagedRowMembers | docker/overlay-sm121-adaptive/sparse_swa.py:1005-1025 | a mapped position's slot is listed if and only if the position is in range |
| RowBuffer.RowsDisjoint | docker/overlay-sm121-adaptive/sparse_mla.py:414-418 | rows of distinct tokens never overlap in the flat buffer |
| RowBuffer.Rows.StoreRow | docker/overlay-sm121-adaptive/sparse_swa.py:1005-1025 | the tiled masked store sets the row prefix and leaves every other entry alone |
| SwaRows.SwaProgram | docker/overlay-sm121-adaptive/sparse_swa.py:967-1025 | one program stores its token's row and length and disturbs no other row |
| SwaRows.LaunchSwa | docker/overlay-sm121-adaptive/sparse_swa.py:661-679 | for any order and any previous contents every launched row is its token's row, and rows of padding tokens hold only -1 with length 0 |
| SwaRows.PaddingIsBlank | docker/overlay-sm121-adaptive/sparse_swa.py:970-981 | the row of an invalid token holds only -1 and its length is 0 |
| SwaRows.StoredEntry | docker/overlay-sm121-adaptive/sparse_swa.py:1002-1025 | entry o of a valid row is the block and place of the o-th position of its range, and -1 from the stored length on |
| SwaRows.RangeOf | docker/overlay-sm121-adaptive/sparse_swa.py:984-1003 | the causal and the non-causal range of token j of request r in numbers |
| SwaRows.RangeIsProper | docker/overlay-sm121-adaptive/sparse_swa.py:991-1003 | the row's range starts at or before the token and ends past it |
| SwaTheorems.DecodeRowIsTheWindow | docker/overlay-sm121-adaptive/sparse_swa.py:991-1006 | a decode row lists exactly the causal window and fits |
| SwaTheorems.PrefillRowIsWindowPlusImage | docker/overlay-sm121-adaptive/sparse_swa.py:991-1006 | a prefill row lists exactly the causal window united with the token's own image, within the widened row |
| SwaTheorems.DraftRowIsWindowPlusBlock | docker/overlay-sm121-adaptive/sparse_swa.py:1075-1080 | a draft row lists the trailing context window and the whole draft block |
| SwaTheorems.RowsOfDisjointRequests | docker/overlay-sm121-adaptive/sparse_swa.py:1011-1018 | requests with disjoint blocks share no slot |
| SwaTheorems.BuildPrefillRows | docker/overlay-sm121-adaptive/sparse_swa.py:632-679 | upload, visibility and row launches compose: every prefill row carries its token's visibility |
| SwaDraft.BuildDecodeRows | docker/overlay-sm121-adaptive/sparse_swa.py:575-630 | the decode rows of a fresh build, causal or for a non-causal draft block, padding rows blank, with lengths past the launch cleared |
| SwaDraft.UpdateDraftRows | docker/overlay-sm121-adaptive/sparse_swa.py:782-813 | the refresh stores causal rows with the row width as window |
| SwaDraft.DraftUpdateEqualsFreshBuild | docker/overlay-sm121-adaptive/sparse_swa.py:782-818 | a causal draft update leaves the rows and lengths of a fresh build |
| SwaDraft.RefreshRange | docker/overlay-sm121-adaptive/sparse_swa.py:795-800 | on wide rows the refreshed and the fresh position range agree if and only if the token is its block's last and the wider window makes no difference |
| SwaDraft.EqualRowsEqualRanges | docker/overlay-sm121-adaptive/sparse_swa.py:1005-1025 | two rows of one token agree in contents and length if and only if their position ranges do |
| SwaDraft.RefreshOfWideRows | docker/overlay-sm121-adaptive/sparse_swa.py:782-818 | the same if-and-only-if on stored rows and lengths, refreshed against built afresh |
| SwaDraft.RefreshHidesFutureToken | docker/overlay-sm121-adaptive/sparse_swa.py:795-800 | a draft block of two tokens whose refreshed first row lacks the second token |
| C128A.WidthChecksHold | docker/overlay-sm121-adaptive/sparse_mla.py:256-264 | both runtime checks hold for every admitted length and the width is part of the buffer row |
| C128A.WidthsAreTight | docker/overlay-sm121-adaptive/sparse_mla.py:256-264 | the buffer row is the least aligned width, and a step's width at most twice what it needs |
| C128A.ClipLosesNothing | docker/overlay-sm121-adaptive/sparse_mla.py:391-394 | the clip to the step's width never loses a key of a live token |
| C128A.CountLanes | docker/overlay-sm121-adaptive/sparse_mla.py:401-419 | the tile-wise lane count is the number of keys |
| C128A.Builder.constructor | docker/overlay-sm121-adaptive/sparse_mla.py:162-186 | separate decode and prefill buffers of the aligned maximal width |
| C128A.Builder.DecodeProgram | docker/overlay-sm121-adaptive/sparse_mla.py:397-424 | one decode program stores its slots, then -1, and its length, and disturbs no other row |
| C128A.Builder.Program | docker/overlay-sm121-adaptive/sparse_mla.py:390-436 | decode or prefill row of one token; all other rows keep what they hold |
| C128A.Builder.Build | docker/overlay-sm121-adaptive/sparse_mla.py:232-279 | for any program order every token's row is stored at the step's width |
| C128A.Builder.ViewsAgree | docker/overlay-sm121-adaptive/sparse_mla.py:280-293 | read through the stored lengths, the full-width and the narrow view both give the token's slot list |
| C128A.RunBuilds | docker/overlay-sm121-adaptive/sparse_mla.py:280-293 | so they do after any run of builds with changing widths and stale columns |
| C128A.SlotListEntries | docker/overlay-sm121-adaptive/sparse_mla.py:391-424 | the slot list of a decode token has one slot per completed 128 tokens, in order, and none for a padding token |
| C128A.PrefillEntries | docker/overlay-sm121-adaptive/sparse_mla.py:426-436 | a live prefill row holds the indices of the completed keys and then -1 |
| SparseCache.Metadata.Serve | docker/overlay-sm121-adaptive/flashinfer_sparse.py:380-422 | ratio 128 and ratio at most 1 are served their own shared result and leave it cached; any other ratio is built from its own top-k rows and leaves the cache alone; a coherent cache stays coherent |
| SparseCache.Metadata.UpdateDraft | docker/overlay-sm121-adaptive/sparse_swa.py:782-818 | the cache after a draft update, and exactly when it is still coherent |
| SparseCache.DraftIsSafeIff | docker/overlay-sm121-adaptive/sparse_swa.py:786-787 | a draft update is safe for every index construction if and only if there are decode tokens, nothing is cached, or nothing changed |
| SparseCache.CachedEqualsUncachedIff | docker/overlay-sm121-adaptive/flashinfer_sparse.py:380-422 | over every run of builds, draft updates and layers, cached serving equals recomputing for every construction if and only if every hit finds an entry computed from the current inputs |
| SparseCache.CurrentHitsServeFresh | docker/overlay-sm121-adaptive/flashinfer_sparse.py:380-422 | a run whose hits are all current is served what recomputation gives, from any cache state |
| SparseCache.StaleHitShows | docker/overlay-sm121-adaptive/flashinfer_sparse.py:380-422 | a hit on an outdated entry shows for some construction |
| SparseCache.SafeDraftsKeepHitsCurrent | docker/overlay-sm121-adaptive/sparse_swa.py:786-818 | if every draft update is safe when it happens, all hits of the run are current |
| SparseCache.PlainRunsAreCurrent | docker/overlay-sm121-adaptive/sparse_swa.py:786-818 | in runs that always have decode tokens, and in runs without drafts, all hits are current |
| SparseCache.LastLayer | docker/overlay-sm121-adaptive/flashinfer_sparse.py:380-422 | after any run a further C4A layer is served from its own top-k rows and the inputs in force, and other layers their shared result if hits are current |
| SparseCache.RunEvents | docker/overlay-sm121-adaptive/flashinfer_sparse.py:380-422 | the objects serve any run of events as the cache specification says, and as recomputation would if the drafts are safe |
| SparseCache.DraftWithoutDecodesServesStale | docker/overlay-sm121-adaptive/sparse_swa.py:786-787 | a concrete run in which a stale result is served |
| ForwardSplit.Forward.ForwardPrefill | docker/overlay-sm121-adaptive/flashinfer_sparse.py:869-914 | call k covers the tokens of the k-th run of chunk-size requests, the calls tile the prefill tokens, and every output row comes from its own query and index row |
| ForwardSplit.Forward.ForwardSparse | docker/overlay-sm121-adaptive/flashinfer_sparse.py:614-642 | decode and prefill calls together write every scheduled row and leave padding rows alone |
| AcceptanceSchedule.DerivedScheduleIsValid | docker/overlay-54631/vllm/config/speculative.py:543-550 | the derived schedule has one rate per draft, lies in [0, 1], is non-increasing, sums to the mean, and resolves to itself |
| AcceptanceSchedule.ResolveAcceptsExactlyValid | docker/overlay-54631/vllm/config/speculative.py:553-585 | a request is accepted if and only if exactly one valid form is given, and the result is a valid schedule |
| AcceptanceSchedule.VarianceFormula | docker/overlay-54631/vllm/config/speculative.py:543-550 | the variance of the accepted count in terms of the rates |
| AcceptanceSchedule.DerivedScheduleHasLeastVariance | docker/overlay-54631/vllm/config/speculative.py:543-550 | of all valid schedules with the same mean the derived one has the least variance, and it alone |
| AcceptanceSchedule.ResolvesTo | docker/overlay-54631/vllm/config/speculative.py:553-585 | an accepted list is returned as it is, a length gives rates that sum to one less with least variance |
| TraceLayout.BisectLeft | docker/sgl-src/scripts/convert_otel_2_perfetto.py:58-73 | the bisection splits the intervals at the tuple order |
| TraceLayout.CheckOverlap | docker/sgl-src/scripts/convert_otel_2_perfetto.py:58-70 | the verdict of the two neighbours of the bisection point |
| TraceLayout.CheckIsExact | docker/sgl-src/scripts/convert_otel_2_perfetto.py:58-70 | on a lane whose intervals are apart the verdict is overlap with any interval, or an instant at the span's start |
| TraceLayout.InsertSpan | docker/sgl-src/scripts/convert_otel_2_perfetto.py:72-73 | insertion keeps the tuple order and adds exactly the span |
| TraceLayout.InsertedIsSeparatedIff | docker/sgl-src/scripts/convert_otel_2_perfetto.py:72-73 | insertion keeps the intervals apart if and only if the new one overlaps none |
| TraceLayout.FirstFree | docker/sgl-src/scripts/convert_otel_2_perfetto.py:111-114 | the first lane the check finds free, every earlier one taken |
| TraceLayout.LineIsFirstFree | docker/sgl-src/scripts/convert_otel_2_perfetto.py:111-120 | a lane chosen anew is the first free one, or new when all are taken |
| TraceLayout.StaysWhereFree | docker/sgl-src/scripts/convert_otel_2_perfetto.py:96-102 | a request stays on its lane if nothing there overlaps the span or is an instant at its start, and leaves it for a proper span that overlaps something |
| TraceLayout.Layout.AddLane | docker/sgl-src/scripts/convert_otel_2_perfetto.py:104-120 | the next lane number without a gap, with one metadata entry |
| TraceLayout.Layout.StaysOnLane | docker/sgl-src/scripts/convert_otel_2_perfetto.py:96-102 | the request keeps its lane without looking for a zero-length span, else if the check finds it free |
| TraceLayout.Layout.FindLine | docker/sgl-src/scripts/convert_otel_2_perfetto.py:95-120 | the request's own lane if it is kept, else the first free lane, new only if every existing one is taken |
| TraceLayout.Layout.Store | docker/sgl-src/scripts/convert_otel_2_perfetto.py:290-292 | the span is inserted on its lane and nothing else changes |
| TraceLayout.ChosenLane | docker/sgl-src/scripts/convert_otel_2_perfetto.py:95-120 | on a chosen lane whose intervals are apart the span overlaps one of them if and only if it is an instant kept without looking |
| TraceLayout.Layout.Place | docker/sgl-src/scripts/convert_otel_2_perfetto.py:281-292 | lanes free of overlaps stay so if and only if the span is not a zero-length span whose request's lane holds a span around it |
| TraceLayout.StepSound | docker/sgl-src/scripts/convert_otel_2_perfetto.py:281-292 | one placement keeps lanes and log in step, and adds a clash if and only if it buries an instant |
| TraceLayout.Layout.PlaceRoot | docker/sgl-src/scripts/convert_otel_2_perfetto.py:280-293 | all spans of a request are placed in order, and clashes are added if and only if one of them is buried when its turn comes |
| TraceLayout.LayOut | docker/sgl-src/scripts/convert_otel_2_perfetto.py:269-309 | every span is placed, and no two spans of one lane overlap if and only if no input span is buried when its turn comes; none is if no instant lies inside another span of its process |
| TraceLayout.BuriedInstantHidesOverlap | docker/sgl-src/scripts/convert_otel_2_perfetto.py:95-102 | three spans of one request of which two overlapping ones share a lane |

## Left out

- Attention, GEMM, DeepGEMM schedule metadata, scales and workspaces: foreign or floating-point code; `ForwardSplit` takes attention as a row-wise function and `SparseCache` takes index construction as a function of its inputs.
- Which layers share a cache entry: two layers of the same type are taken to have caches of the same packing, so that the cached result does not depend on the layer.
- Compressed slot mapping, top-k translation and non-causal row width helpers are not part of this model; a non-causal row is required to be wide enough for window and block.
- The decode/prefill classification itself: its result, decodes first with matching totals, is assumed.
- Prefill context parallelism, graph-support flags, warm-up keys and tile-scheduler holders: communication and configuration.
- DecodeTheorems.RowSeesItsCausalPrefix: on the native path for requests with the largest number of rows, which by `DecodeTheorems.GlobalRowIff` is where it holds; an entry cut off when compressed request lengths are copied to fewer tokens is excluded.
- DecodeLimits.NativeCellIsCausalIff: takes token j of request r to be read from cell (r, j); the packing helper that arranges this is not part of this model.
- TraceLayout.LayOut: lanes are values in a map, so sharing of a lane object between two places is not captured; the initial sorting by start time, JSON and event conversion are left out.
- AcceptanceSchedule.DerivedScheduleHasLeastVariance: over the reals, without floating-point rounding.
- The rest of the speculative-decoding configuration, the benchmark scripts and the image-patching scripts: branch lists and plumbing.
