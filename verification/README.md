# Batch layer of the aggregate-function framework

This project models the batch layer that every aggregate function inherits
from `IAggregateFunctionHelper` and `IAggregateFunctionDataHelper`
(`src/AggregateFunctions/IAggregateFunction.h`). The batch layer drives an
accumulator over blocks of rows. Apart from one method that reuses two batch
methods (`addBatchSparseSinglePlace`, below), it only calls the accumulator's
single-row and single-state primitives:

- `create`, `destroy` and `destroyUpToState`;
- `add` and `merge`;
- `serialize` and `deserialize`;
- `insertResultInto`.

It applies them to caller-owned places: rows of a hash table, or an arena.

- **Accumulator** (`Contract`): a value of `AggregateFunction<S, V, R>`.
  - `S` is the state, `V` one row's arguments, `R` one result.
  - Its primitives are function fields.
  - It also carries `allocatesMemoryInArena` and the layout facts of its
    state type: `sizeof(Data)`, `sizeOfData()`, `alignOfData()` and
    `hasTrivialDestructor()`.
  - `AggregateFunctionProperties` and its defaults are `Properties` and
    `DefaultProperties`.
  - The laws that the order-insensitive results rely on are ghost predicates:
    - `AddCommutes`: adds commute;
    - `MergeIsFold`: merging a state built from some values is adding
      those values;
    - `RoundTrip`: a serialized state reads back.
  - `MaxExample` is one accumulator that satisfies all of them.
- **Caller-owned memory** (`StateMemory.Memory`): a class.
  - `states: map<nat, S>` holds the live states by address.
  - A ghost log records every primitive applied.
  - `states == Replay(log)` from the states on entry.
  - A place in a `places` array is `Ptr` (null or an address). Its state
    lives at `addr + place_offset`.
- **Batch methods** (`AggregateFunctionHelper`): one method per batch
  operation of `IAggregateFunctionHelper`, each with the source's loop.
  - Each is proved to append exactly a specified sequence of events to the
    log: which primitive, on which place, with which row, in which order.
  - Separate lemmas say what that sequence does to the states. Examples:
    - each place ends as its old state with the values of its rows added in
      row order;
    - sparse columns act as their dense expansion;
    - every place is destroyed exactly once;
    - a serialized batch deserializes back.
- **`addBatchLookupTable8`.** There are two versions.
  - **The helper's generic version** (`AggregateFunctionHelper.AddBatchLookupTable8`):
    - works in blocks of eight rows;
    - is proved equal to a value-level run (`LookupRun.Run`) over a ghost
      record `bases` of the blocks the arena handed out to `init`;
    - `LookupRun.RunMeaning` and `LookupRun.LookupFolds` give each key the
      fold of its rows in row order.
  - **The data helper's version** (`DataHelper.AddBatchLookupTable8`):
    - falls back to the generic one when the fast path does not apply
      (`FastLookupPathApplies`);
    - otherwise runs the fast path (`DataHelper.AddBatchLookupTable8Fast`):
      - 4 × 256 scratch states in an `array<S>`, with their flags in an
        `array<bool>`;
      - an unrolled fill loop, then a merge loop over keys and lanes, then
        the tail rows added directly.
    - The fast path is proved equal to `FastLookupRun.FastRun`.
    - `LookupEquivalence` shows the fast path gives each key a permutation
      of its rows. So, when adds commute and merge is a fold, both paths
      leave each key in the same state.

Both unrolled loops compare the absolute row number `i` with
`size_unrolled = (row_end - row_begin) / UNROLL_COUNT * UNROLL_COUNT`, which
is a length. The model keeps this comparison (`LookupSpec.UnrolledEnd`,
`DataHelper.UnrolledRows`). The loop therefore takes
`(row_end - row_begin) / UNROLL_COUNT - row_begin / UNROLL_COUNT` blocks, or
none when that is negative. That is `row_begin / UNROLL_COUNT` blocks fewer
than the range holds. So only when `row_begin >= UNROLL_COUNT` (8 on the
generic path, 4 on the fast path) do some rows that fit into blocks go
through the tail instead. The result is the same, and no row is read out of
range.

`serializeBatch` loops `for (i = start; i < size; ++i)`, so its `size`
parameter is an end index, not a count. The model follows the code.

## Model

| member | source | states |
|---|---|---|
| Contract.DefaultProperties | src/AggregateFunctions/IAggregateFunction.h:847-862 | `returns_default_when_only_null`, `is_order_dependent` and `is_window_function` are all off by default |
| Contract.FoldPermutation | src/AggregateFunctions/IAggregateFunction.h:855-858 | with commuting adds, the state reached depends only on the multiset of values added; order matters only for an order-dependent function |
| StateMemory.Memory.Create | src/AggregateFunctions/IAggregateFunction.h:742-745 | create constructs an empty state at a place that held none and logs it; no other state changes |
| StateMemory.Memory.Destroy | src/AggregateFunctions/IAggregateFunction.h:747-750 | destroy ends the state at a live place and logs it; no other state changes |
| StateMemory.Memory.DestroyUpToState | src/AggregateFunctions/IAggregateFunction.h:113-116 | by default destroyUpToState is destroy: the place stops being live, logged as its own event |
| StateMemory.Memory.Add | src/AggregateFunctions/IAggregateFunction.h:132 | add folds one row's value into the state at a live place and logs place, row and value |
| StateMemory.Memory.Merge | src/AggregateFunctions/IAggregateFunction.h:146 | merge combines a state into the state at a live place and logs it |
| StateMemory.ReplayAppend | src/AggregateFunctions/IAggregateFunction.h:404-712 | replaying two runs of primitives one after another is replaying their concatenation |
| AggregateFunctionHelper.AddManyDefaults | src/AggregateFunctions/IAggregateFunction.h:418-426 | adds row 0 to the place `length` times, and nothing else |
| SparseSpec.ReplayDefaults | src/AggregateFunctions/IAggregateFunction.h:418-426 | after addManyDefaults the place holds its old state with `length` copies of row 0 added |
| AggregateFunctionHelper.AddBatch | src/AggregateFunctions/IAggregateFunction.h:428-452 | adds each row of `[row_begin, row_end)` to its place, in row order, skipping null places and rows whose filter flag is clear |
| BatchSpec.RowAddsExactly | src/AggregateFunctions/IAggregateFunction.h:428-452 | an add is logged if and only if its row is in range, its place is the row's target and its value is the row's |
| BatchSpec.RowAddsAscending | src/AggregateFunctions/IAggregateFunction.h:440-450 | the adds follow strictly ascending rows |
| BatchSpec.ReplayRowAdds | src/AggregateFunctions/IAggregateFunction.h:428-452 | no place is created or lost; each place ends as its old state with the values of the rows routed to it added in row order |
| AggregateFunctionHelper.AddBatchSinglePlace | src/AggregateFunctions/IAggregateFunction.h:543-565 | adds every row of the range, or every row whose filter flag is set, to the one place, in row order |
| BatchSpec.SinglePlaceRoutesAll | src/AggregateFunctions/IAggregateFunction.h:543-565 | without a filter the place receives exactly `col[row_begin..row_end]` |
| BatchSpec.SinglePlaceAddCount | src/AggregateFunctions/IAggregateFunction.h:543-565 | without a filter exactly `row_end - row_begin` adds are made |
| AggregateFunctionHelper.AddBatchSinglePlaceNotNull | src/AggregateFunctions/IAggregateFunction.h:588-610 | adds to the one place only the rows whose null flag is clear and, with a filter, whose filter flag is set |
| AggregateFunctionHelper.LowerBoundSearch | src/AggregateFunctions/IAggregateFunction.h:578-579 | the binary search gives the first offset not below the row, as `std::lower_bound` does |
| AggregateFunctionHelper.AddBatchSparse | src/AggregateFunctions/IAggregateFunction.h:491-506 | walks the sparse offsets with an iterator from the lower bound of `row_begin` and adds to each row's place the value at its value index |
| SparseSpec.SparseAddsAsDense | src/AggregateFunctions/IAggregateFunction.h:491-506 | every place ends in the state that adding the dense expansion of the column would give it |
| AggregateFunctionHelper.AddBatchSparseSinglePlace | src/AggregateFunctions/IAggregateFunction.h:567-586 | adds the explicit values of the range, then `addManyDefaults` for the remaining rows, to the one place |
| SparseSpec.SparseRunMultiset | src/AggregateFunctions/IAggregateFunction.h:575-583 | the explicit values plus `num_defaults` copies of the default are the dense range as a multiset |
| SparseSpec.SparseSinglePlaceAddCount | src/AggregateFunctions/IAggregateFunction.h:575-583 | exactly `row_end - row_begin` values are added |
| SparseSpec.SparseSinglePlaceAsDense | src/AggregateFunctions/IAggregateFunction.h:567-586 | with commuting adds, the place ends as the dense range added in row order |
| AggregateFunctionHelper.AddBatchArray | src/AggregateFunctions/IAggregateFunction.h:612-631 | adds the elements `[offsets[i-1], offsets[i])` of each row to its non-null place, row by row and element by element |
| BatchSpec.ArrayAddsFlatten | src/AggregateFunctions/IAggregateFunction.h:612-631 | the array rows act as dense rows over the flattened elements, each routed to its array's place |
| AggregateFunctionHelper.MergeBatch | src/AggregateFunctions/IAggregateFunction.h:508-528 | merges each `rhs[i]` into its non-null place, in row order |
| BatchSpec.ReplayRowMerges | src/AggregateFunctions/IAggregateFunction.h:508-528 | each place ends as its old state with the states routed to it merged in row order |
| AggregateFunctionHelper.MergeAndDestroyBatch | src/AggregateFunctions/IAggregateFunction.h:530-541 | for each `i`, merges `src[i] + offset` into `dst[i] + offset`, then destroys `src[i] + offset` |
| BatchSpec.ReplayMergeDestroy | src/AggregateFunctions/IAggregateFunction.h:530-541 | the sources are no longer live; each other place ends as its old state with the sources paired with it merged in |
| AggregateFunctionHelper.DestroyBatch | src/AggregateFunctions/IAggregateFunction.h:702-712 | destroys every place of the range, in order, and no other |
| BatchSpec.DestroyAllCount | src/AggregateFunctions/IAggregateFunction.h:702-712 | destroyBatch destroys each place as often as it occurs in the range |
| AggregateFunctionHelper.InsertResultIntoBatch | src/AggregateFunctions/IAggregateFunction.h:673-700 | finalizes the places in order; each is released with destroyUpToState after its insert; on the first failure that place and all later ones are destroyed; the results are those before the failure, and `ok` says whether none failed |
| BatchSpec.DestroyedExactlyOnce | src/AggregateFunctions/IAggregateFunction.h:673-700 | whether or not an insert fails, every place of the range is released or destroyed exactly once |
| AggregateFunctionHelper.SerializeBatch | src/AggregateFunctions/IAggregateFunction.h:454-458 | the buffer receives the serialized states of `data[start..size]`, in order |
| AggregateFunctionHelper.CreateAndDeserializeBatch | src/AggregateFunctions/IAggregateFunction.h:460-489 | for a positive `total_size_of_state`, creates and reads state after state at `place`, `place + total_size_of_state`, …, up to `limit` of them or the end of the buffer, appending each place to `data`; a failed read destroys the place just created and stops |
| SerdeSpec.SerializeDeserializeRoundTrip | src/AggregateFunctions/IAggregateFunction.h:454-489 | with states that read back, the bytes serializeBatch writes deserialize to the same states, consuming exactly those bytes |
| SerdeSpec.ReplayRestoreEvents | src/AggregateFunctions/IAggregateFunction.h:460-489 | the strided places hold the states read, and every other state is unchanged |
| SerdeSpec.StridedDistinct | src/AggregateFunctions/IAggregateFunction.h:486-487 | with a positive state size the places deserialized into are pairwise distinct |
| AggregateFunctionHelper.AddBatchLookupTable8 | src/AggregateFunctions/IAggregateFunction.h:633-671 | the table, states and log are those of the run of blocks of eight (eight lookups with `init` on a null entry, then eight adds) followed by the tail rows one by one |
| LookupRun.RunMeaning | src/AggregateFunctions/IAggregateFunction.h:633-671 | after the run, set entries keep their place, new entries are fresh live places created once each, only keys of the rows were initialized, and the states are the rows' adds in row order |
| LookupRun.LookupFolds | src/AggregateFunctions/IAggregateFunction.h:633-671 | each key's state is its old state, or a new empty one when its entry was null, with its rows' values added in row order |
| LookupSpec.RoutedToKey | src/AggregateFunctions/IAggregateFunction.h:653-669 | the values routed to a key's place are exactly the values of the rows with that key |
| DataHelper.AddBatchLookupTable8 | src/AggregateFunctions/IAggregateFunction.h:767-842 | falls back to the helper's version unless the function uses no arena, `sizeof(Data) <= 16` and `sizeOfData() == sizeof(Data)`; otherwise runs the fast path; when adds commute and merge is a fold, either way every key ends with its rows added in row order |
| DataHelper.AddBatchLookupTable8Fast | src/AggregateFunctions/IAggregateFunction.h:787-841 | the table, states and log are those of the fast run; when merge is a fold, each key has received its lanes' values and then its tail rows |
| DataHelper.FillScratch | src/AggregateFunctions/IAggregateFunction.h:798-811 | the unrolled loop stops where the fast run does and leaves the scratch arrays equal to `FillBlocks` of its blocks |
| DataHelper.FillBlock | src/AggregateFunctions/IAggregateFunction.h:801-810 | row `i + j` goes into scratch state `j * 256 + key[i + j]` |
| DataHelper.FillSlot | src/AggregateFunctions/IAggregateFunction.h:803-809 | a scratch state is constructed and flagged on its first row, then receives the row |
| DataHelper.MergeScratch | src/AggregateFunctions/IAggregateFunction.h:815-829 | every flagged scratch state is merged into its key's entry, key by key and lane by lane, initializing a null entry first |
| DataHelper.MergeLane | src/AggregateFunctions/IAggregateFunction.h:819-827 | one lane of one key: merged only when flagged |
| ScratchSpec.FillBlocksHold | src/AggregateFunctions/IAggregateFunction.h:798-811 | after `n` blocks, each scratch state is flagged if and only if its lane has rows with its key, and it holds exactly those rows' values |
| FastLookupRun.FastTailMeaning | src/AggregateFunctions/IAggregateFunction.h:833-841 | the tail adds each remaining row to its key's entry, initializing a null one |
| FastLookupRun.FastMergeMeaning | src/AggregateFunctions/IAggregateFunction.h:815-829 | with merge a fold, after the merge loop each key has received the values of all its lanes |
| FastLookupRun.FastRunMeaning | src/AggregateFunctions/IAggregateFunction.h:787-841 | with merge a fold, the fast run leaves each key with its lane values and then its tail values |
| LookupEquivalence.AllLanesPermutation | src/AggregateFunctions/IAggregateFunction.h:798-829 | the lanes of the first `n` blocks give each key exactly the multiset of its rows in those blocks: no row is lost or duplicated |
| LookupEquivalence.FastValsPermutation | src/AggregateFunctions/IAggregateFunction.h:787-841 | the fast path gives each key a permutation of the values of its rows |
| LookupEquivalence.FastMatchesGeneric | src/AggregateFunctions/IAggregateFunction.h:781-785 | with commuting adds, the fast run's keys are where their rows, added in row order, bring them |
| LookupEquivalence.GenericReachesRowVals | src/AggregateFunctions/IAggregateFunction.h:633-671 | the generic run's keys are where their rows, added in row order, bring them; a null entry stays null only for a key with no rows |
| MaxExample.FoldIsMax | src/AggregateFunctions/IAggregateFunction.h:132 | adding values to a max state gives the larger of the state and their maximum |
| MaxExample.MaxAddCommutes | src/AggregateFunctions/IAggregateFunction.h:855-858 | max's adds commute, so max is not order dependent |
| MaxExample.MaxMergeIsFold | src/AggregateFunctions/IAggregateFunction.h:146 | merging a max state built from values is adding those values |
| MaxExample.MaxRoundTrip | src/AggregateFunctions/IAggregateFunction.h:168-174 | a serialized max state deserializes back, whatever follows it |
| MaxExample.MaxFunction | src/AggregateFunctions/IAggregateFunction.h:781 | max's state uses no arena and is two bytes, so the fast lookup path applies to it |

## Left out

- AggregateFunctionHelper.MergeBatch: requires that no target place `places[i] + place_offset` is one of the `rhs` places. The source does not check this; merging a state into itself is not modelled.
- AggregateFunctionHelper.MergeAndDestroyBatch: requires the sources to be pairwise distinct and no destination to be a source. The source does not check this; a state destroyed twice, or merged after its destruction, is undefined behaviour there.
- AggregateFunctionHelper.MergeAndDestroyBatch: the thread pool and the cancellation flag are not modelled; the loop is the sequential one.
- AggregateFunctionHelper.DestroyBatch: requires the shifted places of the range to be pairwise distinct. Destroying one state twice is undefined behaviour in the source.
- AggregateFunctionHelper.InsertResultIntoBatch: requires pairwise distinct places, as for DestroyBatch.
- AggregateFunctionHelper.AddBatchLookupTable8: requires the table's set entries to be pairwise distinct (`Injective`). The source accepts two keys sharing one place; their rows then go into the same state. This is not modelled. The same holds for DataHelper.AddBatchLookupTable8 and DataHelper.AddBatchLookupTable8Fast.
- AggregateFunctionHelper.AddBatchSparse: requires every place of the range to be non-null. The source dereferences `places[i]` without a null check, so a null place there is undefined behaviour.
- AggregateFunctionHelper.CreateAndDeserializeBatch: requires every address from `place` upward to be free, so that the strided places it creates hold no live state.
- AggregateFunctionHelper.CreateAndDeserializeBatch: requires a positive `total_size_of_state` (`0 < stride`); the same holds for its helpers LoadStates, LoadStart and LoadInv. The source accepts 0, which a zero-size state gives: every state is then created at `place` itself, over the state read before it, and `place` is pushed onto `data` once per state. The model's `create` requires a place that holds no live state, so re-creating a live state and `data` naming one place several times are not modelled.
- AggregateFunctionHelper.FindOrInit: the caller's `init` callback is fixed to "take the arena's next block, above every live state, and create an empty state at its offset". An `init` that does anything else, or leaves the entry null, is not modelled. So "each key is initialized at most once" holds by construction.
- StateMemory.Memory.DestroyUpToState: modelled as a full destroy. This is the default at source lines 113-116; the -State combinator's partial destroy is not modelled.
- DataHelper.ScratchPhase: the scratch states are `new Data[256 * 4]`, default-constructed. The model takes a default-constructed state to be the accumulator's empty state. The array's destruction by `std::unique_ptr` (`delete[]`) is not modelled.
- The arena is not modelled, apart from the blocks that `init` takes from it: the ghost record `bases`. `Arena *` arguments are dropped, and `allocatesMemoryInArena` is only a flag.
- Integer widths: `size_t` row numbers, offsets and places, and the `UInt64` sparse offsets, are `nat`. Wrap-around is not modelled. Key bytes are `UInt8`, as in the source.
- Filter and null-map columns are `seq<bool>`; the source reads any non-zero byte as true.
- Columns (`const IColumn **`) are `seq<V>`: one value per row, or one element per array element. The column classes are not part of this model.
- `addFree`, the JIT compilation hooks, `predictValues`, parallel merge (`merge` with a thread pool, `isAbleToParallelizeMerge`) and the window-function hooks are not modelled.
- The `static_assert` in the data helper's constructor, that `destroy` and `hasTrivialDestructor` are overridden together, is a compile-time check. It is not modelled.
- `sizeOfData`, `alignOfData` and `hasTrivialDestructor` are fields of `Layout` given with the accumulator. The model does not compute them from a type.
- The optional `version` argument of `serialize`, `deserialize`, `serializeBatch` and `createAndDeserializeBatch` is dropped. The batch methods only pass it through unchanged, so an `AggregateFunction` value stands for one accumulator at one serialization version: `fn.serialize` and `fn.deserialize` are that version's encoding.
- AggregateFunctionHelper.AddBatchSparseSinglePlace: the source calls `addBatchSinglePlace` and `addManyDefaults` through the derived class, which a concrete function may override. The model calls the helper's own AddBatchSinglePlace and AddManyDefaults. It assumes that every override adds the same values to the place as the helper's versions.
- AggregateFunctionHelper.CreateAndDeserializeBatch: a failed read is taken to consume no bytes. The buffer is left at the start of the state that failed, and the same holds for CreateAndDeserialize. In the source, the catch block destroys the place and rethrows without rewinding the buffer, so the position after a failure is wherever the throwing `deserialize` stopped. A failing `fn.deserialize` returns `None`, which carries no byte count.
- Exceptions: a failing `deserialize` or `insertResultInto` is an `Option.None` result. Only the two catch blocks of the source are modelled: createAndDeserializeBatch and insertResultIntoBatch.
