# CUDALM verification model

A Dafny model, with proofs, of the logic around CUDALM's CUDA kernels: who owns which
memory, what one generation request does, how a token is drawn, and the two offline
formats whose writer and reader are both in the repository.

`dafny verify dfyconfig.toml` checks the whole project.

## What is modelled

**Sequence state.** Many sequences share one page pool and one slot pool, and each must
behave as if it owned private contiguous storage. Every layer of the stack is a class over
the source's own state, proved equal, method by method, to a function on values:

| file | source component |
|---|---|
| `FixedIdPool.dfy` | the live bitmap and last-in first-out free list |
| `PageLayout.dfy` | flat (ordinal, page, head, offset, dim) addressing and the write kernel's stores |
| `KvPagePool.dfy`, `DeltaStatePool.dfy` | the two storage pools, zero-on-release |
| `KvBlockTable.dfy` | the logical-to-physical page map, transactional growth and roll-back |
| `StateManager.dfy` | the sequence records and their lifecycle |
| `ModelForward.dfy` | the single and the batched forward driving the manager |
| `KvCache.dfy`, `Config.dfy` | the contiguous cache, the layer schedule and byte sizes |

`ManagerModel.dfy` holds the state as a value with its ownership invariant,
`SequenceView.dfy` what one sequence sees of it, `Forward.dfy` one forward, `Runs.dfy` the
step relation and the theorems over all runs, `Conservation.dfy` that no page, slot or byte
is lost on any of them, `Isolation.dfy` the fresh-manager reference, `Batch.dfy` the batched
forward against the serial one. `Execution.dfy` closes the circle: it builds a manager
object, carries out any list of operations on it by method calls, and ends in the run's state
with the run's outcomes.

**Layers.** `Network.dfy` takes the decoder as a chain of layers, each an arbitrary function
of the hidden vector, of the sequence's own storage of that layer and of the position. A batch
walks the chain once, with all rows inside each layer. `LayerOrder.dfy` shows that order to
store what the rows one after another store, and `LayerWalk.dfy` that each layer of each row
reads there what it would have read alone; `ModelForward.dfy` runs that loop on the pools. The
run theorems hold for any function from a token and the sequence's own view to the rows,
states and logits it produces, of which the chain is one.

**Sampling and generation.** `Greedy.dfy`, `Ranking.dfy`, `Mass.dfy`, `Sampling.dfy`,
`Softmax.dfy`, `SampleToken.dfy` and `SplitMix64.dfy` model the sampler over real logits;
of the exponential only positivity and strict growth are used (`ExpLike`), and in
`Softmax.dfy` that it turns sums into products. The generator works on 64-bit words with
wrap-around. `Generator.dfy` is the request loop over any deterministic language model.

**Offline tools.** `Quantizer.dfy` is the group-wise 4-bit quantiser with its packing and
error bounds, `HalfScale.dfy` the scales in half precision and the verifier's group check;
`Artifact.dfy` the framing of the tokenizer artifact, writer and reader, for
any checksum function.

Where the code and its documentation differ, the code is followed:

- The sampler's header speaks of the survivors in "ascending probability" order; the code
  sorts them by value descending, ties to the lower id.
- A config that passes `valid()` need not have a full-attention layer; `Configs.ShallowIsValid`
  gives one, and `Configs.ScheduleCounts` states exactly when there is one. The page pool's
  constructor wants at least one, which is the `KvReady` precondition.
- The ingestion verifier promises an error of at most 0.51 of the stored scale. Where scales are
  stored as half-precision subnormals this can fail (`HalfScales.CoarseScaleMisses`);
  `HalfScales.AcceptedExact` gives the exact condition, and `AcceptedAlways` the weights for
  which it always holds. Its comment puts the underflow limit strictly below 7 * 2^-25; a tie
  rounds to zero as well, and the code's own test allows it (`HalfScales.UnderflowExact`). Its
  header speaks of a zero original group where the scale is zero; small weights underflow too.

## Model

| member | source | states |
|---|---|---|
| Runs.InterleavingParity | src/runtime/qwen35_state_manager.cpp:26-104 | After any finite list of operations on any number of sequences, failed ones included, every live sequence's logical K/V rows, DeltaNet state, block count and length are those of replaying only its own successful operations on private contiguous storage. |
| Runs.LogitsParity | include/cudalm/qwen35_model.h:116-141 | Every successful forward in such a run returns the logits the layers compute from that private replay, whatever the other sequences did. |
| Isolation.IsolatedReference | tests/cuda/test_qwen35_state_interleave.cpp:20-48 | The reference runs: a sequence's state after an interleaved run equals that of the first sequence of a fresh manager that ran only that sequence's history, where no operation fails. The steps' outcomes are IsolatedOutcome. |
| Runs.SuccessIsLocal | src/runtime/qwen35_state_manager.cpp:26-104 | Whether an operation on a live sequence succeeds depends only on that sequence's own view and on the number of free pages covering the pages it wants. |
| Runs.AfterInv | include/cudalm/qwen35_state_manager.h:19-56 | Every successful operation keeps the ownership partition, exact free lists, all-zero free storage and the bounds on lengths and tables, so they hold in every reachable state. |
| Runs.AfterOwn | src/runtime/qwen35_state_manager.cpp:45-104 | An operation changes its own sequence's view exactly as the private step does. |
| Runs.AfterOther | src/runtime/qwen35_state_manager.cpp:26-104 | No operation on one sequence changes the view of another. |
| Runs.AfterIds | src/runtime/qwen35_state_manager.cpp:26-43 | The issued-id counter moves only on create; the live ids gain exactly the new id on create and lose exactly the retired one on retire. |
| Runs.RetiredForever | include/cudalm/qwen35_state_manager.h:47-54 | An id that was issued and is not live is absent in every later state of every continuation. |
| Runs.IssuedOnce | include/cudalm/qwen35_state_manager.h:124-128 | Ids issued at different moments of a run are strictly increasing, so none is issued twice. |
| Runs.TwoLive | src/runtime/qwen35_state_manager.cpp:26-43 | The run theorems are about real runs: with two slots, two creates leave ids 1 and 2 live, and retiring the first leaves the second. |
| Executions.ExecuteAll | include/cudalm/qwen35_state_manager.h:19-56 | A manager built for any configuration its constructor accepts, any capacities and any loaded decoder, and driven through any list of operations by method calls ends in exactly the run's state, and every call came to what the run says. |
| Executions.Execute | include/cudalm/qwen35_state_manager.h:111-116 | One operation carried out by the method of its name is one step of the run, state and outcome, on any manager in a valid state. |
| Executions.ExecuteBatch | include/cudalm/qwen35_model.h:149-173 | The batch method carried out at any point of a run: when there is a row, the ids are distinct and the rows' single forwards all succeed one after another, the state is the run continued by those forwards and the logits are their outcomes; otherwise the run is where it was. |
| Conservation.IdsConserved | include/cudalm/fixed_id_pool.h:94-100 | In every state any run reaches, used pages are exactly those in the live sequences' tables, used slots are as many as there are live sequences, and used plus free is the pool's capacity, for pages and for slots. |
| Conservation.BytesConserved | include/cudalm/qwen35_state_manager.h:141-148 | The same in bytes: in every reachable state each pool's used and free bytes add up to its total, and so do the manager's. |
| Conservation.StepMoves | src/runtime/qwen35_state_manager.cpp:26-104 | Every successful operation, create and retire included, keeps both capacities and moves pages and slots only between the free lists and the one sequence it acts on; all other sequences keep what they hold. |
| Isolation.IsolatedOutcome | tests/cuda/test_qwen35_state_interleave.cpp:20-48 | The reference, step by step: every successful step of a sequence stands at its place in the private run and comes to the same there, a forward to the same logits. |
| Isolation.AloneStep | tests/cuda/test_qwen35_state_interleave.cpp:20-28 | One step of the reference: alone in a pool big enough for a full sequence, an operation the private replay accepts succeeds and leaves the private step's state. |
| ManagerModel.FreshMgrInv | src/runtime/qwen35_state_manager.cpp:9-19 | A new manager satisfies the invariant for any capacities. |
| ManagerModel.CreatedInv | src/runtime/qwen35_state_manager.cpp:26-43 | Create takes a zeroed slot, an empty table and length 0 and keeps the invariant. |
| ManagerModel.EnsuredInv | src/runtime/qwen35_state_manager.cpp:45-49 | Growing a table keeps the partition of live pages among tables. |
| ManagerModel.BlocksBound | include/cudalm/kv_block_table.h:59-61 | Growing to an in-range position never exceeds the table's maximum number of blocks. |
| ManagerModel.BlocksCeiling | include/cudalm/kv_block_table.h:59-61 | That maximum is the least number of blocks that holds max_seq_len tokens. |
| ManagerModel.WasResetInv | src/runtime/qwen35_state_manager.cpp:77-89 | Reset on any live id is possible and keeps the invariant. |
| ManagerModel.RetiredInv | src/runtime/qwen35_state_manager.cpp:91-99 | Retire on any live id is possible and keeps the invariant. |
| ManagerModel.ReleaseNeverFails | src/runtime/qwen35_state_manager.cpp:77-99 | From any state with the invariant, reset and retire on a live id run every release step in the code's order without an error, and return exactly the sequence's pages, retire also its slot. |
| ManagerModel.ResetComposes | src/runtime/qwen35_state_manager.cpp:77-89 | The reset outcome is decided step by step: clear first, then the slot check, then zero and length 0; a failing step leaves exactly the earlier ones' effect. |
| ManagerModel.RetireComposes | src/runtime/qwen35_state_manager.cpp:91-99 | The same for retire: a failing clear or release leaves the record in place. |
| ManagerModel.RowWrittenInv | src/kernels/paged_kv.cu:53-73 | Writing a K/V row at a covered position keeps the invariant. |
| ManagerModel.SlotWrittenInv | src/runtime/qwen35_delta_state_pool.cpp:116-130 | Writing a layer's conv and recurrent state keeps the invariant. |
| SequenceViews.CreatedView | include/cudalm/qwen35_state_manager.h:21-28 | A created sequence's view is the fresh one: all-zero rows and state, no blocks, length 0. |
| SequenceViews.EnsuredView | include/cudalm/qwen35_state_manager.h:30-34 | Growing changes a sequence's view in its block count only: the new pages read as zeros, exactly as untouched contiguous storage. |
| SequenceViews.EnsuredOther | include/cudalm/qwen35_state_manager.h:30-34 | Growing one sequence leaves every other view as it was. |
| SequenceViews.WasResetView | include/cudalm/qwen35_state_manager.h:42-46 | After a reset the view is that of a freshly created sequence, whatever was written before. |
| SequenceViews.WasResetOther | include/cudalm/qwen35_state_manager.h:42-46 | A reset leaves every other view as it was. |
| SequenceViews.RetiredOther | include/cudalm/qwen35_state_manager.h:48-51 | A retire leaves every other view as it was. |
| SequenceViews.RowWrittenView | src/kernels/paged_kv.cu:53-73 | A row written through the block table is exactly one row written in the private contiguous cache. |
| SequenceViews.RowWrittenOther | src/kernels/paged_kv.cu:53-73 | A row written for one sequence changes no other sequence's view. |
| SequenceViews.SlotWrittenView | src/runtime/qwen35_delta_state_pool.cpp:116-130 | A slot write changes exactly the writer's layer state and nobody else's. |
| SequenceViews.GatherWrite | src/kernels/paged_kv.cu:30-48 | Through any duplicate-free table, storing a row at logical position t changes the gathered cache at t only, as the contiguous write does. |
| SequenceViews.NoAlias | include/cudalm/qwen35_state_manager.h:19-56 | Tables of two live sequences share no page and their slots differ. |
| SequenceViews.LengthSetView | src/runtime/qwen35_state_manager.cpp:51-75 | A length update changes its own sequence's length and nothing else in any view. |
| Forwards.ForwardedView | include/cudalm/qwen35_model.h:116-124 | One forward is: position = length, ensure, store the token's rows in every full layer and its state in every linear layer, length + 1, as seen on the private storage. |
| Forwards.ForwardedOther | include/cudalm/qwen35_model.h:116-124 | One forward leaves every other sequence's view as it was. |
| Forwards.TokenStoredStep | src/runtime/qwen35_model.cpp:262-282 | Storing layer by layer composes: each full or linear layer adds exactly its own rows or state to what the layers below stored. |
| Batches.AggregateExact | include/cudalm/qwen35_model.h:168-173 | For distinct live sequences, growing row by row goes through if and only if the summed new-page need is at most the free pages. |
| Batches.NeedAnyOrder | include/cudalm/qwen35_model.h:168-173 | The summed need is the same for every order of the rows, so with AggregateExact growth goes through in any order or in none. |
| Batches.GrowthExact | include/cudalm/qwen35_model.h:168-173 | Growing all rows takes exactly the summed need from the free pages. |
| Batches.GrowthAnyOrder | include/cudalm/qwen35_model.h:168-173 | For every reordering of the rows growth goes through exactly when it does in the given order, and takes the same number of pages. |
| Batches.PreflightExact | src/runtime/qwen35_model.cpp:336-389 | The preflight passes if and only if there is at least one row, the ids are distinct, and the rows' single forwards all succeed one after another: it refuses no batch that serial forwarding would get through. |
| Batches.BatchIsSerial | include/cudalm/qwen35_model.h:149-158 | Row parity: after the preflight, growing all rows, storing every row and then advancing every row leaves the state and logits of running the single forward row by row. That the layer-by-layer walk stores just that is LayerWalks.PlanEnds. |
| Batches.SerialIsRun | src/runtime/qwen35_model.cpp:311-514 | The state after a batch's rows have been forwarded, from any point of a run, is that of the run continued by those forwards. |
| Batches.SerialAnswers | src/runtime/qwen35_model.cpp:311-514 | So are its answers: the rows' logits are, in order, the outcomes of those forwards in the continued run, so what holds of every run's outcomes holds of a batch's. |
| Batches.BatchParity | include/cudalm/qwen35_model.h:149-158 | A batch that passes the preflight anywhere in a run returns, for each row, the logits that row's sequence computes alone from its own history before the batch. |
| Batches.StoreThenAdvance | src/runtime/qwen35_model.cpp:504-513 | Committing the lengths only after every row is stored is the same as committing row by row. |
| Batches.GrowAllCommitCommute | src/runtime/qwen35_model.cpp:405-412 | Growing the later rows before the first row is stored gives the state of storing it first. |
| Networks.TraverseAt | src/runtime/qwen35_model.cpp:262-282 | What one token's walk stores at a layer's ordinal is what that layer computed from its own hidden vector and its own part of the sequence's storage. |
| Networks.SetupOk | src/runtime/qwen35_model.cpp:184-298 | A chain of layers whose outputs have the pools' sizes is a setup the run theorems apply to. |
| Networks.ForwardExact | src/runtime/qwen35_model.cpp:184-232 | A forward is possible exactly for a token of the vocabulary, a live sequence below the maximum length, and as many free pages as its table lacks to hold the position, position / page size + 1 blocks in all. |
| LayerOrders.PutFullCommutes | src/runtime/qwen35_model.cpp:469-490 | A full layer's store of one row commutes with everything another sequence's row has stored: they share no page. |
| LayerOrders.FullTurn | src/runtime/qwen35_model.cpp:469-490 | With the rows below b one layer ahead, row b's store of a full layer gives the state with the rows up to b one layer ahead. |
| LayerOrders.LinearTurn | src/runtime/qwen35_model.cpp:469-490 | The same for a linear layer and the row's slot. |
| LayerOrders.TurnReads | src/runtime/qwen35_model.cpp:469-490 | In the middle of a layer, row b still reads at this layer and all above it what it read before the batch began, whatever the other rows have stored. |
| LayerOrders.AllStored | src/runtime/qwen35_model.cpp:469-490 | Once every layer has run for every row, the storage is that of storing the rows one after another. |
| LayerWalks.WalkLink | src/runtime/qwen35_model.cpp:469-490 | Each layer, taken through all rows in order on the real storage, leads from the state between layers to the next, every row's hidden vector being the one it would have alone. |
| LayerWalks.PlanEnds | src/runtime/qwen35_model.cpp:469-490 | The layer-major walk over all rows ends in the state of storing the rows one after another, and in every row's own last hidden vector. |
| LayerWalks.HeadsAreLogits | src/runtime/qwen35_model.cpp:492-502 | The head on those vectors gives each row the logits of its own forward. |
| LayerWalks.StepIs | src/runtime/qwen35_model.cpp:235-298 | A forward is growth, the layers on one row, then the length: the same walk with one row. |
| ModelForwards.ForwardTokenWithState | src/runtime/qwen35_model.cpp:184-298 | With the gates passed, the method over the manager's objects is the forward step: it fails, changing nothing, exactly on a bad token, an unknown id, a full sequence or missing pages; otherwise state and logits are the step's. With an unloaded model, another configuration or another stream it fails and changes nothing. |
| ModelForwards.ForwardBatchWithState | src/runtime/qwen35_model.cpp:311-514 | The batch method, walking layer by layer with all rows inside each layer, yields logits exactly when the decoder is loaded, configuration and stream match, there is at least one row, ids are distinct, and the rows' single forwards would all succeed one after another; then state and logits are those of the serial forwards, else nothing changes. |
| ModelForwards.WalkLayers | src/runtime/qwen35_model.cpp:469-490 | The loop over the layers carries every row from one state between layers to the next, reading and writing the pools as it goes. |
| ModelForwards.CheckBatch | src/runtime/qwen35_model.cpp:336-389 | The preflight loop's verdict is: at least one row, all rows ready, ids distinct, summed need within the free pages; by Batches.PreflightExact that is when serial forwarding gets through. |
| ModelForwards.SumNeeds | src/runtime/qwen35_model.cpp:365-389 | The accumulated need equals the sum over rows of the blocks missing for the row's next position. |
| ModelForwards.CheckRows | src/runtime/qwen35_model.cpp:336-364 | The per-row checks accept exactly the rows with a token in the vocabulary, a live id and room for one more position. |
| StateManagers.StateManager.constructor | src/runtime/qwen35_state_manager.cpp:9-19 | A new manager's state is the fresh one for its pool capacities, on the given stream, and all its objects are new; its eight sizes are the given page size and the stated products of the configuration's fields. |
| StateManagers.StateManager.CreateSequence | src/runtime/qwen35_state_manager.cpp:26-43 | Succeeds exactly when a slot is free; then the state is the created one and the id the next one, else nothing changes and no id is used. Only new objects join the manager's. |
| StateManagers.StateManager.EnsureKvCapacity | src/runtime/qwen35_state_manager.cpp:45-49 | Succeeds exactly for a live id, a position in [0, max_seq_len) and at least position / page size + 1 minus the held blocks free pages; on failure the whole state, free-list order included, is the old one. The records stay the same objects. |
| StateManagers.StateManager.SetLength | src/runtime/qwen35_state_manager.cpp:51-60 | Accepts exactly a live id and a length in [0, max_seq_len]; changes only that length. The records stay the same objects. |
| StateManagers.StateManager.Advance | src/runtime/qwen35_state_manager.cpp:62-75 | Accepts exactly a live id, n >= 0 and length + n <= max_seq_len; changes only that length. The records stay the same objects. |
| StateManagers.StateManager.ResetSequence | src/runtime/qwen35_state_manager.cpp:77-89 | Succeeds exactly for a live id and leaves the reset state. The records stay the same objects. |
| StateManagers.StateManager.RetireSequence | src/runtime/qwen35_state_manager.cpp:91-99 | Succeeds exactly for a live id and leaves the retired state. No object joins the manager's. |
| StateManagers.StateManager.Lookup | src/runtime/qwen35_state_manager.cpp:101-104 | Finds exactly the live ids, and the record found holds that sequence's slot, pages and length. |
| StateManagers.StateManager.TotalStateBytes | include/cudalm/qwen35_state_manager.h:141-145 | The total is both capacities times their byte formulas, and is the size of all buffers the manager holds. |
| StateManagers.StateManager.UsedStateBytes | include/cudalm/qwen35_state_manager.h:146-148 | Used bytes are the live pages and slots times their byte sizes. |
| KvBlockTables.KvBlockTable.EnsureCapacity | include/cudalm/kv_block_table.h:98-126 | Succeeds if and only if the position is in range and position / page size + 1 minus the held blocks is at most the free pages; then the table gains the freshly taken pages, else table and pool are exactly as before. |
| KvBlockTables.KvBlockTable.AcquireTail | include/cudalm/kv_block_table.h:106-122 | The acquiring loop either takes the asked number of pages or undoes its own acquisitions and leaves the pool as it was. |
| KvBlockTables.KvBlockTable.RollBack | include/cudalm/kv_block_table.h:112-116 | Freeing this call's pages in reverse restores the pool exactly: bitmap, free-list order and zeroed storage. |
| KvBlockTables.KvBlockTable.Clear | include/cudalm/kv_block_table.h:129-137 | Empties the table and frees its pages in order, carrying on past a failing free and reporting it. |
| KvBlockTables.EnsuredCovers | include/cudalm/kv_block_table.h:104-106 | After growth the table reaches the position's block, and it had to grow by exactly that many. |
| KvBlockTables.FreeEachOwned | include/cudalm/kv_block_table.h:129-137 | When the table's pages are live and distinct no free in the clearing loop fails, and all of them are freed. |
| KvBlockTables.FreeEachValid | include/cudalm/kv_block_table.h:129-137 | Whatever pages a table lists, duplicates and dead ones included, the clearing loop leaves a valid pool. |
| KvPagePools.AllocateFreeUndo | include/cudalm/kv_block_table.h:111-116 | Freeing the last of n just-allocated pages gives back the pool after n - 1 allocations, free-list order and contents included; RollBack undoes all n. |
| KvPagePools.KvPagePool.constructor | src/runtime/qwen35_kv_page_pool.cpp:9-41 | For any configuration with a full layer and positive KV sizes, valid or not, both buffers have layers / interval times pages times KV heads times the given page size times head_dim elements, all pages are free and all rows zero. |
| KvPagePools.KvPagePool.AllocatePage | src/runtime/qwen35_kv_page_pool.cpp:43-45 | Takes the top of the free list, or fails with nothing changed when it is empty. |
| KvPagePools.KvPagePool.FreePage | src/runtime/qwen35_kv_page_pool.cpp:47-57 | Fails with nothing changed unless the page is live; otherwise zeroes it in every layer and pushes it on the free list. |
| KvPagePools.KvPagePool.ZeroPage | src/runtime/qwen35_kv_page_pool.cpp:65-77 | Zeroes exactly the page's slices of both buffers, every layer, and nothing else. |
| KvPagePools.KvPagePool.Reset | src/runtime/qwen35_kv_page_pool.cpp:59-63 | Zeroes and returns every live page. |
| KvPagePools.KvPagePool.WriteRow | src/kernels/paged_kv.cu:53-73 | Writing one token's K and V rows into a live page changes those rows and nothing else. |
| KvPagePools.KvPagePool.FullLayerOrdinal | src/runtime/qwen35_kv_page_pool.cpp:79-84 | The counting loop returns the layer's place among the full-attention layers, or -1 for any other index. |
| KvPagePools.KvPagePool.LayerOfFullOrdinal | src/runtime/qwen35_kv_page_pool.cpp:86-90 | The inverse map: the o-th full-attention layer, or -1 out of range. |
| KvPagePools.KvPagePool.UsedBytes | include/cudalm/qwen35_kv_page_pool.h:97-105 | Used bytes are the live pages times the bytes of a page. |
| KvPagePools.KvPagePool.BytesAllocated | include/cudalm/qwen35_state_layout.h:44-51 | Capacity times the byte formula of a page is the byte size of the two buffers the pool holds. |
| KvPagePools.KvPagePool.TotalBytes | include/cudalm/qwen35_kv_page_pool.h:100-102 | Total bytes are that size. |
| KvPagePools.FreedValid | src/runtime/qwen35_kv_page_pool.cpp:47-57 | Freeing a live page keeps free pages all zero and the free list exact. |
| DeltaStatePools.DeltaStatePool.constructor | src/runtime/qwen35_delta_state_pool.cpp:9-44 | For any configuration with a linear layer and positive DeltaNet sizes, one conv and one recurrent buffer per linear layer, of capacity times the configuration's sizes, all zero, all slots free. |
| DeltaStatePools.DeltaStatePool.AcquireSlot | src/runtime/qwen35_delta_state_pool.cpp:46-48 | Takes the top free slot, or fails with nothing changed. |
| DeltaStatePools.DeltaStatePool.ReleaseSlot | src/runtime/qwen35_delta_state_pool.cpp:50-60 | Fails with nothing changed unless the slot is live; otherwise zeroes it in every linear layer and frees it. |
| DeltaStatePools.DeltaStatePool.ResetSlot | src/runtime/qwen35_delta_state_pool.cpp:62-72 | Fails with nothing changed unless the slot is live; otherwise zeroes it in place, keeping it. |
| DeltaStatePools.DeltaStatePool.ZeroSlotStorage | src/runtime/qwen35_delta_state_pool.cpp:80-94 | Zeroes exactly the slot's slices in every layer's two buffers. |
| DeltaStatePools.DeltaStatePool.WriteSlot | src/runtime/qwen35_delta_state_pool.cpp:116-130 | Writing one layer's conv and recurrent state changes that layer of that slot only. |
| DeltaStatePools.DeltaStatePool.LinearLayerOrdinal | src/runtime/qwen35_delta_state_pool.cpp:96-102 | The layer's place among the linear layers, or -1, for any interval. |
| DeltaStatePools.DeltaStatePool.UsedBytes | include/cudalm/qwen35_state_layout.h:62-73 | Used bytes are the live slots times the bytes of a slot. |
| DeltaStatePools.DeltaStatePool.BytesAllocated | include/cudalm/qwen35_state_layout.h:62-73 | Capacity times the byte formula of a slot is the summed byte size of every layer's conv and recurrent buffers. |
| DeltaStatePools.DeltaStatePool.TotalBytes | include/cudalm/qwen35_delta_state_pool.h:95-97 | Total bytes are that size. |
| DeltaStatePools.SpliceSlots | src/runtime/qwen35_delta_state_pool.cpp:116-130 | A write at slot * elems in one layer's flat buffer changes that layer of that slot in the structured view and no other. |
| FixedIdPools.FreshIdsValid | include/cudalm/fixed_id_pool.h:38-43 | In a new pool nothing is live, every id is free once, and ids are handed out in the order 0, 1, 2, ... |
| FixedIdPools.AcquireValid | include/cudalm/fixed_id_pool.h:47-58 | Acquire hands out a non-live id, marks it live and keeps the free list exactly the non-live ids, once each. |
| FixedIdPools.ReleaseValid | include/cudalm/fixed_id_pool.h:64-75 | Release of a live id makes it non-live and keeps the free list exact. |
| FixedIdPools.AcquireReleaseUndo | include/cudalm/fixed_id_pool.h:47-75 | Acquire then release, and release then acquire, each restore bitmap and free-list order. |
| FixedIdPools.Accounting | include/cudalm/fixed_id_pool.h:94-100 | Used plus free is the capacity in every valid state. |
| FixedIdPools.BytesExact | include/cudalm/qwen35_kv_page_pool.h:97-105 | Used bytes plus free bytes are the total bytes, for any bytes per id. |
| FixedIdPools.EmptiedValid | include/cudalm/fixed_id_pool.h:83-90 | Reset leaves a valid pool with nothing live and every id free. |
| FixedIdPools.EmptiedOrder | include/cudalm/fixed_id_pool.h:83-90 | The ids reset hands back stand in ascending order behind the ids that were free, so the highest is acquired next. |
| FixedIdPools.LiveIdsComplete | include/cudalm/fixed_id_pool.h:103-108 | The live listing is ascending and holds exactly the live ids. |
| FixedIdPools.FixedIdPool.Acquire | include/cudalm/fixed_id_pool.h:47-58 | The method pops the free list's last id, or fails unchanged when it is empty. |
| FixedIdPools.FixedIdPool.Release | include/cudalm/fixed_id_pool.h:64-75 | The method accepts exactly live ids (range and double release are errors) and pushes the id. |
| FixedIdPools.FixedIdPool.Reset | include/cudalm/fixed_id_pool.h:83-90 | The loop returns every live id in ascending order. |
| FixedIdPools.FixedIdPool.Used | include/cudalm/fixed_id_pool.h:94-99 | The counting loop gives the number of live ids. |
| PageLayout.AddrDecodes | src/runtime/qwen35_kv_page_pool.cpp:92-106 | (ordinal, page, head, offset, dim) to flat index is in bounds and decodes back, hence injective. |
| PageLayout.DecodeCovers | include/cudalm/qwen35_kv_page_pool.h:11-15 | Every flat index of the buffer is the address of an in-range cell, so the layout tiles it. |
| PageLayout.SliceIsPage | src/runtime/qwen35_kv_page_pool.cpp:65-77 | A page's slice in one layer is exactly the cells of that page in that layer. |
| PageLayout.ClearedView | src/runtime/qwen35_kv_page_pool.cpp:65-77 | Zeroing the slices layer by layer zeroes that page in the structured view and no other. |
| PageLayout.StoredView | src/kernels/paged_kv.cu:53-73 | The write kernel's destinations change one row per head in the structured view and nothing else. |
| PageLayout.StoreRow | src/kernels/paged_kv.cu:53-73 | The copy loop over all heads and dims produces that stored buffer. |
| KvCaches.KvCache.Write | src/runtime/qwen35_kv_cache.cpp:24-32 | The contiguous write stores the token's row in every head and leaves every other row. |
| KvCaches.Contiguous | include/cudalm/qwen35_kv_cache.h:63-65 | Row offset (n * max_seq + t) * head_dim is where the paged address falls when one page holds every position. |
| KvCaches.PagedMatchesContiguous | src/kernels/paged_kv.cu:3-7 | Through a duplicate-free table, writing one position's rows in all layers changes each layer's gathered rows exactly as the contiguous write does. |
| Configs.CountFullLayers | include/cudalm/qwen35_state_layout.h:25-30 | The counting loop gives the number of full-attention layers of the schedule. |
| Configs.CountLinearLayers | include/cudalm/qwen35_state_layout.h:34-36 | Layers minus full layers is the number of linear layers; a negative layer count comes back as it is. |
| Configs.FullScheduleClosedForm | include/cudalm/qwen35_config.h:79-88 | There are layers / interval full-attention layers, the o-th being (o + 1) * interval - 1. |
| Configs.LinearScheduleClosedForm | include/cudalm/qwen35_config.h:79-88 | The o-th linear layer is o + o / (interval - 1), and there are n - n / interval of them. |
| Configs.FullOrdinalOf | src/runtime/qwen35_kv_page_pool.cpp:79-90 | The ordinal (i + 1) / interval - 1 is the one and only place of layer i among the full layers. |
| Configs.LinearOrdinal | src/runtime/qwen35_delta_state_pool.cpp:96-102 | The ordinal i - i / interval is the one and only place of layer i among the linear layers. |
| Configs.LayersPartition | include/cudalm/qwen35_config.h:79-88 | Full and linear layers together are all layers. |
| Configs.ScheduleCounts | include/cudalm/qwen35_config.h:90-116 | For a valid config the counts add up, there is a linear layer, and there is a full layer if and only if there are at least interval layers. |
| Configs.PageBytesTile | include/cudalm/qwen35_state_layout.h:44-51 | Capacity times bytes per page, in elements of two buffers of every layer's pages; the pool's BytesAllocated ties it to the arrays. |
| Configs.SlotBytesTile | include/cudalm/qwen35_state_layout.h:62-73 | Capacity times bytes per slot, layer by layer. |
| Configs.DimsExact | include/cudalm/qwen35_state_layout.h:25-73 | For a valid config all eight pool sizes, the page size among them, are the stated products of the configuration's fields. |
| Configs.BytesExactly | include/cudalm/qwen35_state_layout.h:44-73 | Bytes per page and per slot for a valid config, in its fields and the page size: two bytes for each K, V and conv element, four for each recurrent one. |
| Configs.SlotsReady | src/runtime/qwen35_delta_state_pool.cpp:20-24 | Every valid config has a linear layer and the positive sizes the slot pool demands. |
| Configs.FullRank | src/runtime/qwen35_kv_page_pool.cpp:79-84 | For any interval, layer i stands among the full layers at the number of full layers before it, and nowhere else. |
| Configs.LinearRank | src/runtime/qwen35_delta_state_pool.cpp:96-102 | The same for the linear layers. |
| Configs.RotaryExact | include/cudalm/qwen35_config.h:63-65 | The rotary width is head_dim times the factor rounded to the nearest integer, halves up, for products from -1/2 on; below, the conversion truncates towards zero. |
| Configs.ShallowIsValid | include/cudalm/qwen35_config.h:90-116 | A valid config can have no full-attention layer at all, and then no page pool can be built: three layers with interval four. |
| Sampling.SurvivorsArePrefix | include/cudalm/sampling.h:150-190 | The survivors are a non-empty prefix of the (value descending, id ascending) ranking, headed by the greedy pick: of the first k ranks, or of all when top_k is 0 or not below the vocabulary, the shortest prefix reaching the share top_p of their mass (all of them when top_p is 1). |
| Sampling.NucleusIsShortest | include/cudalm/sampling.h:171-190 | For any ordered listing the top-p stage keeps the shortest prefix that reaches the share. |
| Sampling.ScaledArgmax | include/cudalm/sampling.h:136-149 | Dividing by a positive temperature keeps the greedy pick, ties included. |
| Sampling.ValidateSamplingConfig | include/cudalm/sampling.h:76-94 | Accepts exactly top_k >= 0 and 0 < top_p <= 1. |
| Sampling.ScaleLogits | include/cudalm/sampling.h:136-149 | The loop fills the scaled logits and finds their maximum. |
| Sampling.TopKFilter | include/cudalm/sampling.h:158-166 | After the loop the flags are those of the first k ranks, however the partial sort left the rest: an id is kept exactly when top-k is off or fewer than k ids have a larger value or the same value at a lower id. |
| Sampling.TopPFilter | include/cudalm/sampling.h:167-190 | Collecting, sorting, summing and cutting leaves the flags of the nucleus of the flagged ids. |
| Sampling.FindCut | include/cudalm/sampling.h:178-187 | The cumulative loop stops at the first prefix whose mass reaches the target. |
| Sampling.Normalize | include/cudalm/sampling.h:191-202 | The two loops give every flagged id its weight over the flagged mass, and zero elsewhere. |
| Sampling.EffectiveProbabilities | include/cudalm/sampling.h:131-202 | The whole pipeline over arrays computes the distribution; one-hot at the greedy pick in greedy mode, empty for an empty vocabulary. Sampling.EffectiveExact says what the distribution is. |
| Sampling.EffectiveExact | include/cudalm/sampling.h:131-202 | The distribution id by id, from the logits: with f[i] = logits[i] / temperature (Sampling.ScaledAt) and weights e(f[i] - max f) (Sampling.WeightAt), top-k keeps the ids that fewer than k ids beat (all when top_k is 0), top-p those of them before which less than top_p of that set's mass stands; a kept id has its weight over the kept mass, any other zero. |
| Sampling.GreedyExact | include/cudalm/sampling.h:131-149 | In greedy mode the first largest logit has probability 1 and every other id 0. |
| Rankings.RankOf | include/cudalm/sampling.h:150-156 | The rank of an id is the number of ids with a larger value, or the same value and a lower id. |
| Rankings.OrderedUnique | include/cudalm/sampling.h:150-156 | Two ordered listings of the same ids are equal, so every correct sort gives the same order. |
| Rankings.PartialIsRanking | include/cudalm/sampling.h:158-166 | Whatever a partial sort does with the rest, its first k places are the first k ranks. |
| Rankings.RankingComplete | include/cudalm/sampling.h:150-156 | The ranking lists every id, in order. |
| Rankings.RankingHead | include/cudalm/sampling.h:150-156 | The head of the ranking is the greedy pick. |
| Softmax.ShiftIsHarmless | include/cudalm/sampling.h:24-26 | Subtracting the maximum changes neither the survivors nor any probability, for every exponential that turns sums into products. |
| SampleTokens.EffectiveIsDistribution | include/cudalm/sampling.h:191-202 | The probabilities sum to 1, are non-negative, and are positive exactly on the drawable tokens, of which the greedy pick is one. |
| SampleTokens.LargerLogitLikelier | include/cudalm/sampling.h:191-202 | Of two drawable tokens the one with the larger logit has the larger probability. |
| SampleTokens.DrawIsInverseCdf | include/cudalm/sampling.h:215-230 | For every u in [0, 1) the walk returns i if and only if cum(i) <= u < cum(i) + p[i]. |
| SampleTokens.WalkIsInverse | include/cudalm/sampling.h:219-230 | The same for any non-negative vector and any u below its sum. |
| SampleTokens.WalkBeyond | include/cudalm/sampling.h:231-233 | For any u at or above the sum the walk returns the fallback. |
| SampleTokens.FallbackExact | include/cudalm/sampling.h:219-233 | The fallback is the last id with a positive share, and the greedy pick exactly when no id has one. |
| SampleTokens.WalkCumulative | include/cudalm/sampling.h:219-233 | The loop over drawable tokens, both fallbacks included, computes that walk: the last drawable token, or the greedy pick when no token has a share. |
| SampleTokens.DrawInRange | include/cudalm/sampling.h:207-214 | Over a non-empty vocabulary every draw is a drawable token; neither the fallback nor -1 occurs. |
| SampleTokens.TopOneIsGreedy | include/cudalm/sampling.h:158-166 | With top_k = 1 every generator state draws the greedy pick. |
| SampleTokens.SampleToken | include/cudalm/sampling.h:215-234 | One call, whatever the logits: -1 and no draw on an empty vocabulary; the first largest logit and no draw in greedy mode; otherwise exactly one draw, and the token in whose stretch of the cumulative distribution the generator's next number falls. |
| SampleTokens.DrawExact | include/cudalm/sampling.h:207-234 | Token and next generator state are the specified ones if and only if they are: -1 and the same state on no logits; the first largest logit and the same state in greedy mode; otherwise the next state, and the token i with cum(i) <= u < cum(i) + p[i] for the number u of that state's output. |
| SampleTokens.Sampler.Sample | include/cudalm/sampling.h:240-256 | The per-request sampler draws with its own config and its own generator, seeded from the request: the same three cases. |
| Greedy.ArgmaxBf16 | include/cudalm/greedy.h:28-39 | The loop returns the lowest index of a largest value. |
| Greedy.ArgmaxUnique | include/cudalm/greedy.h:19-27 | That index is unique. |
| SplitMix.MixIsPermutation | include/cudalm/sampling.h:100-109 | The output mix has a two-sided inverse, so it is a permutation of the 64-bit words. |
| SplitMix.NoRepeat | include/cudalm/sampling.h:100-109 | Within one period no two states and no two outputs are equal. |
| SplitMix.EveryWordReached | include/cudalm/sampling.h:100-109 | Every word is reached as a state and as an output within 2^64 draws, from any seed. |
| SplitMix.Period | include/cudalm/sampling.h:100-109 | After 2^64 draws the state is the seed again. |
| SplitMix.SplitMix64.NextU64 | include/cudalm/sampling.h:104-109 | One step adds the increment and returns the mix of the new state. |
| SplitMix.SplitMix64.NextDouble | include/cudalm/sampling.h:111-113 | The top 53 bits of that output as a number in [0, 1). |
| SplitMix.Uniform | include/cudalm/sampling.h:110-113 | The number is in [0, 1) for every output; which one is SplitMix.UniformExact. |
| SplitMix.UniformExact | include/cudalm/sampling.h:110-113 | The number drawn is the output word over 2^64 cut down to a multiple of 2^-53: word / 2048 in whole numbers, over 2^53, off by less than 2^-53 (which number a word is: SplitMix.WordIsNumber). |
| SplitMix.KnownOutputs | include/cudalm/sampling.h:100-109 | From seed 0 the first three outputs are 0xE220A8397B1DCDAF, 0x6E789E6AA1B965F4 and 0x06C45D188009454F, which fixes increment, shifts and multipliers. |
| Generators.Generate | src/runtime/qwen35_generator.cpp:38-154 | A request is accepted exactly under the input contract; a rejected one forwards nothing and leaves the model as it was; an accepted one meets the closed form and has forwarded exactly its tokens, whatever the model had been fed before. |
| Generators.Decode | src/runtime/qwen35_generator.cpp:125-153 | The decode loop ends in one of its three returns with the closed form met; the range check and the code after the loop are never reached. |
| Generators.Prefill | src/runtime/qwen35_generator.cpp:104-111 | After the reset the prompt is forwarded once, in order, from position 0. |
| Generators.CheckRequest | src/runtime/qwen35_generator.cpp:52-68 | The checks accept exactly a valid sampling config, a loaded model, a non-empty prompt within vocabulary and capacity, max_new >= 0 and an end token in the vocabulary. |
| Generators.OutcomeUnique | src/runtime/qwen35_generator.cpp:112-153 | The closed form determines the result completely, so a request's output depends on nothing else. |
| Generators.StopsAtFirstEos | include/cudalm/greedy.h:59-78 | With the first end token at candidate k, min(k + 1, max_new, max_seq - N) tokens come out, and the stop is Eos exactly when k is below the budget. |
| Generators.StopsAtBudget | include/cudalm/greedy.h:59-78 | With no end token in the budget the whole budget comes out; the stop is MaxNewTokens when max_new fits, MaxSeqLen otherwise. |
| Generators.StopExact | src/runtime/qwen35_generator.cpp:125-153 | At most max_new tokens, never past max_seq, none but the last an end token; Eos exactly when the last is one, otherwise MaxNewTokens exactly at max_new tokens and MaxSeqLen exactly when the sequence is full before that. |
| Generators.ForwardDiscipline | include/cudalm/qwen35_generator.h:20-31 | Forwards hit positions 0, 1, ... once each, below the capacity, with the tokens of prompt and output in order; their number is N + m - 1, or N + m when the sequence is full or nothing was generated. |
| Generators.GreedyStream | include/cudalm/qwen35_generator.h:96-101 | Greedy candidates are the argmax chain for every seed and exponential, and the generator is never drawn from. |
| Generators.OneDrawEach | include/cudalm/sampling.h:205-207 | Sampling takes exactly one draw per candidate. |
| Generators.SampledStream | src/runtime/qwen35_generator.cpp:82-153 | When sampling, candidate i is the token in whose stretch of the distribution, over the logits after the prompt and the candidates before it, the number of the seed's draw i + 1 falls. |
| Generators.TopOneIsGreedyRequest | include/cudalm/sampling.h:13-14 | A request with top_k = 1 yields exactly what the greedy request yields, at any temperature and seed. |
| Generators.ReadLogits | src/runtime/qwen35_generator.cpp:82-102 | Each read draws from the current logits with the request's generator; the token is always in the vocabulary. |
| Generators.GenerateGreedy | src/runtime/qwen35_generator.cpp:22-30 | The greedy entry point is the request with the greedy config: acceptance, rejection without a forward, closed form and what the observer sees. |
| Quantizers.ClampNeverBites | tools/convert_weights.py:95-96 | For weights the group's scale bounds, the code is the rounded quotient itself, within [-7, 7]. |
| Quantizers.RoundEvenIff | tools/convert_weights.py:95 | Rounding gives the integer within one half, and at a tie the even one of the two. |
| Quantizers.CodeExact | tools/convert_weights.py:90-96 | A weight's code is the integer whose multiple of the scale is within half a step of it, and at a tie the even one of the two. |
| Quantizers.HalfStep | tools/convert_weights.py:90-96 | Decoding with the computed scale misses each weight by at most half a step, in all-zero groups too. |
| Quantizers.StoredStep | tools/verify_qwen35_ingestion.py:229-241 | Decoding with any stored scale within relative error 2^-11 misses each weight by at most 0.51 of the stored scale. |
| Quantizers.CloseScaleExact | tools/verify_qwen35_ingestion.py:227-241 | Every weight of a computed scale decodes within 0.51 of the stored scale if and only if the stored scale is off by at most a 650th of itself. |
| Quantizers.GroupCloseExact | tools/verify_qwen35_ingestion.py:227-241 | The same for groups: the largest error over a group is within the bound for every group of 128 weights with that scale if and only if the stored scale is so close. |
| HalfScales.HalfIsHalf | tools/convert_weights.py:106 | A finite scale is stored as a half-precision number. |
| HalfScales.HalfNearest | tools/convert_weights.py:106 | No half-precision number is nearer to the scale than the stored one, subnormals included; at a tie see HalfScales.HalfTie. |
| HalfScales.HalfTie | tools/convert_weights.py:106 | When another half-precision number is as near to the scale as the stored one, the two are neighbours and the stored one is the even multiple of their distance. |
| HalfScales.HalfNear | tools/verify_qwen35_ingestion.py:10-13 | From 2^-14 on a scale is stored within relative error 2^-11. |
| HalfScales.HalfClose | tools/verify_qwen35_ingestion.py:227-241 | Every scale above 324.5 * 2^-24 is stored closely enough for the 0.51 bound. |
| HalfScales.HalfNotClose | tools/verify_qwen35_ingestion.py:227-241 | At 324.5 * 2^-24 it is not: the threshold is sharp. |
| HalfScales.AcceptedExact | tools/verify_qwen35_ingestion.py:227-241 | All groups of 128 weights with a given computed scale that is not stored as zero pass the group check if and only if the stored scale is off by at most a 650th of itself. |
| HalfScales.AcceptedAlways | tools/verify_qwen35_ingestion.py:227-259 | The group check passes whenever the largest weight is at most 7 * 2^-25 or above 7 * 324.5 * 2^-24. |
| HalfScales.UnderflowExact | tools/verify_qwen35_ingestion.py:242-259 | A group's scale is stored as zero if and only if its largest weight is at most 7 * 2^-25, and then every weight is off by at most that, so the zero-scale branch never reports an error. |
| HalfScales.StoredRowsClose | tools/verify_qwen35_ingestion.py:227-241 | A quantised, packed and unpacked row whose scales are each zero or above 324.5 * 2^-24 is close to the original at every place, with the scales narrowed to half precision. |
| HalfScales.CoarseScaleMisses | tools/verify_qwen35_ingestion.py:227-241 | Where the check fails: 128 weights, one of 10 * 2^-24 and the rest zero, whose scale is narrowed to 2^-24. |
| Quantizers.GroupScale | tools/convert_weights.py:90-94 | A group's scale bounds its weights by seven steps, and is zero exactly for an all-zero group. |
| Quantizers.FullRange | tools/convert_weights.py:90-96 | Every group with a non-zero weight uses code 7 or -7. |
| Quantizers.QuantiseTwice | tools/convert_weights.py:90-98 | Decoding a quantised group and quantising it again gives the same codes and scale. |
| Quantizers.UnpackPack | tools/convert_weights.py:101-117 | Unpacking a packed row gives back every code in [-8, 7]. |
| Quantizers.PackUnpack | tools/convert_weights.py:101-117 | Packing an unpacked byte string gives it back, so the packing is a bijection on bytes. |
| Quantizers.QuantizeW | tools/convert_weights.py:85-107 | A matrix is refused exactly when its row length is not a multiple of 128; otherwise the packed bytes unpack to the codes, every code decodes with its group's scale to within half a step of its weight, and the stored scales are the narrowed ones. |
| Quantizers.QuantizedExact | tools/convert_weights.py:85-107 | Every output place by place: the scale is a seventh of the largest magnitude among the 128 weights of its group; the code is the multiple of it within half a step, ties to even, and zero when the scale is; byte j holds code 2j in its low and code 2j + 1 in its high four bits; the stored scale is the narrowed one. |
| Quantizers.StoredCodes | tools/verify_qwen35_ingestion.py:224-226 | What the unpacker reads of a quantised row is what the quantiser decided, within [-7, 7]. |
| Quantizers.DequantizeError | tools/verify_qwen35_ingestion.py:227-241 | For every row and column of the whole path, quantise, pack, unpack, decode: within half the computed scale, and within 0.51 of any stored scale that is close to it. |
| Quantizers.QuantizedRowsClose | tools/verify_qwen35_ingestion.py:227-241 | If every stored scale of a row is close to the computed one, the unpacked row is close to the original at every place. |
| Quantizers.DotProductError | tools/verify_qwen35_ingestion.py:227-241 | A dot product against a close row is off by at most the sum of |x[i]| times 0.51 of the group's stored scale. |
| Quantizers.QuantizedDotError | tools/verify_qwen35_ingestion.py:227-241 | The same from end to end, quantised, packed, unpacked and decoded, when the row's stored scales are close to the computed ones. |
| Artifacts.ReadWritten | tools/convert_qwen35_tokenizer.py:356-407 | Reading a written artifact gives back its metadata and all ten sections, for every checksum function. |
| Artifacts.WrittenRead | tools/convert_qwen35_tokenizer.py:376-407 | Data that reads as an artifact is byte for byte what the writer produces for it. |
| Artifacts.PrefixRejected | tools/convert_qwen35_tokenizer.py:376-407 | Every strict prefix of a readable artifact is rejected, whatever the checksum function. |
| Artifacts.ExtensionRejected | tools/convert_qwen35_tokenizer.py:376-407 | Every strict extension is rejected, with a checksum mismatch or trailing garbage. |
| Artifacts.PrefixError | tools/convert_qwen35_tokenizer.py:380-407 | A cut inside the header is a bad magic; a later cut is a checksum mismatch or, if the checksums agree, a truncation. |
| Artifacts.ReadArtifact | tools/convert_qwen35_tokenizer.py:376-407 | The reader with its moving offset computes the specified result; Artifacts.HeaderErrors and Artifacts.BodyErrors say exactly when it is which error. |
| Artifacts.TakeSections | tools/convert_qwen35_tokenizer.py:392-405 | The section loop reads the specified sections and ends where they end, or reports a truncation. |
| Artifacts.BuildArtifact | tools/convert_qwen35_tokenizer.py:356-369 | The writer's loop produces header, metadata and framed sections, or an error when a number does not fit its 32-bit word; Artifacts.HeaderLayout and Artifacts.WrittenLayout say which byte is what. |
| Artifacts.HeaderErrors | tools/convert_qwen35_tokenizer.py:376-391 | In the code's order and exactly: BadMagic without 20 bytes starting with CUDLMTK1, UnsupportedVersion unless the version word is 1, ReservedNotZero unless the next is 0, CrcMismatch unless the body's checksum and the stored word are equal mod 2^32; past these the body decides, and a readable artifact is past them. |
| Artifacts.BodyErrors | tools/convert_qwen35_tokenizer.py:392-407 | A body is truncated exactly when no written body starts it, has trailing garbage exactly when one starts it and is not all of it, and reads exactly when it is one. |
| Artifacts.HeaderLayout | tools/convert_qwen35_tokenizer.py:366-369 | A written artifact starts with CUDLMTK1, the words 1 and 0, and a word equal to the body's checksum mod 2^32, and to the checksum itself when that lies in [0, 2^32). |
| Artifacts.WrittenLayout | tools/convert_qwen35_tokenizer.py:356-369 | After the header: the fifteen metadata words at offsets 20, 24, ..., then the ten sections from offset 80, each its length word and its bytes, and nothing after them. |
| Artifacts.LittleEndian | tools/convert_qwen35_tokenizer.py:281-284 | A word's number is its bytes times 1, 256, 65536 and 16777216, first byte lowest. |
| Artifacts.ReadFrames | tools/convert_qwen35_tokenizer.py:281-284 | Framed sections read back from any position, and reading stops right after them. |
| Artifacts.SectionsAreFrames | tools/convert_qwen35_tokenizer.py:402-405 | The bytes a successful section loop consumed are exactly the frames of what it read. |
| Artifacts.EncodeDecode | tools/convert_qwen35_tokenizer.py:281-284 | Every four bytes are the little-endian word of the number they decode to. |

## Left out

- SequenceId: ids are unbounded numbers; the 64-bit wrap-around after 2^64 creations is not modelled.
- Integer widths: `int` and `size_t` overflow in sizes, positions and counters is not modelled.
- CUDA streams, events, copies, device buffers and aborts: storage is plain arrays written synchronously, and a stream is only its identity.
- Floating point: bf16, fp16 and double arithmetic are real arithmetic (a scale's narrowing to half precision apart), so NaN and infinite temperatures or probabilities do not occur, and the running maximum starts at the first logit instead of minus infinity.
- Layer mathematics: attention, DeltaNet, projections, the embedding and the head are arbitrary functions; a layer is one step that reads its storage and then writes it, and within a layer the rows of a batch take their turns in order (by LayerOrders.PutFullCommutes their stores commute).
- Kernel scratch: the block table, slot and position arrays copied to the device for each forward are read from the records directly.
- Raw row writes outside a sequence's covered prefix: the kernels would index past the table, so they are not steps of a run.
- Library calls: sorts are used through what they promise, the checksum is any function of the bytes, and packing of fixed-width numbers is written out.
- Artifact payloads: what the ten sections contain, the Unicode tables and the C++ loader are not modelled, only the framing.
- Half-precision overflow: scales from 65520 on, which are stored as infinity, are outside HalfScales.Half; groups of half-precision weights never get there (HalfScales.HalfWeightsFit).
- Quantizers.QuantizeW: the refusals of a wrong rank, element type, memory layout or a non-finite weight are not modelled.
- Sampling.ValidateSamplingConfig: temperature and top_p are real numbers, so the rejections of non-finite values cannot occur.
- Scheduler, serving controller, session manager, C++ tokenizer, weight and golden-file loaders: their implementations are not part of this model.
- Error message texts: only success or failure is kept; the artifact reader's errors are kept apart by kind.
