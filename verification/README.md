# Verified model of HyperParallel's generation, graph and distribution logic

A Dafny model of the parts of HyperParallel whose correctness is not visible from any one function: the generation
engine with its caches and its context-parallel run, the joint-graph tracer and gradient accumulation, the surgery on
module graphs, expert-parallel dispatch, rank meshes and stage dicts, and the step and replay accounting of training.
`dafny verify dfyconfig.toml` checks all of it.

**Generation.** A tensor is a sequence of rows; heads and features are collapsed into opaque values. The network is any
number of layers of an arbitrary function of a position's own hidden value and the ordered visible keys
(`Network.dfy`). Its reference semantics (`RefLogits`) recomputes everything from the valid tokens alone: no padding,
no masks, no cache, no batch. `Masks.dfy` builds the masks and position ids step by step as the source does and proves
what they show. `Generation.dfy` is the prefill and decode loop as functions, `GenerateLoop.dfy` the same as methods
over a mutable context; `GenerationMeaning.dfy` and `GenerationTheorems.dfy` prove that every mode of every call returns
what the reference emits row by row. `CacheStore.dfy` is the cache classes, `CacheGather.dfy` the exchange of shards,
`ContextParallel.dfy` the run of several ranks and `LockStep.dfy` the proof of when it is the single-process run. Once a
row has finished, its cached position freezes while the uncached one advances; the theorems show that this never reaches
the output.

**Graphs and gradients.** `GraphTracer.dfy` is the worklist search that splits forward from backward, `Compiler.dfy` the
accumulation of positional gradients into parameter objects on the heap, tied weights included.

**Module graphs.** `ModuleGraph.dfy` and `Rebinding.dfy` are shared modules on the heap, their paths, and what
re-pointing registrations does to paths, `FirstOccurrence.dfy` the order of first occurrence. `Replacement.dfy`,
`ReplacementPlan.dfy` and `ReplacementInstall.dfy` compile and install replacement plans; `AttentionSwap.dfy` wraps
attention modules with rollback.

**Distribution.** `TokenExchange.dfy` and `ExpertParallel.dfy` are the all-to-all exchanges and permutations of expert
parallelism, `Mesh.dfy` the rank meshes, `PipelineState.dfy` the stage split of a state dict.

**Training.** `Trainer.dfy` is the step accounting, `SelectiveCheckpoint.dfy` the replay decisions of selective
checkpointing, `Sampler.dfy` greedy choice, repetition penalty and nucleus on exact numbers.

Where the code turned out not to have a property in general, the exact condition is proved:

- `_finalize_sequences` drops as many tokens of a row as its mask has holes after the first valid token
  (`ReturnedDropsHoles`); rows come back whole exactly for left-padded masks (`ReturnedWholeIff`).
- The gather of a context-parallel cache sorts tuples of a start and two tensors. Two ranks without rows start alike, so
  the sort compares their empty tensors and raises (`TwoRowsFourRanks`). Context-parallel generation is the
  single-process one exactly while the first gather sees at most one empty shard (`CpMatchesSingleProcess`); the
  repository's own check has a prefix of two positions and raises on four ranks (`TwoPrefixPositionsFourRanks`).
- `merge_local` checks growth on layer 0 only (`MergeLocalLengths`, `UnevenMergeAccepted`), and it deals tokens round
  robin onto what a rank stores instead of keeping contiguous slices (`DealtIsSliceIff`).
- Prefix-shifted position ids differ from the concatenated ones on padding before the first valid suffix token
  (`PrefixPositionsAgreeIff`); no valid query is affected.
- With a repetition penalty, pad tokens count as seen, so left padding is invisible to greedy generation exactly for
  penalty 1 (`PaddingInvisibleIff`).
- A traced graph may output one tensor for two parameters. Accumulation adds up exactly when a tensor that becomes a
  gradient is bound once and not read again after an addition to it (`SharesSafelyIff`, `TwoParametersOneTensor`).
- `named_children` lists a module once per parent. So a `self_attn` registered also under an earlier name of the same
  parent is not found (`AttentionMissed`), and neither is one below a module that its parent registers as `self_attn`
  first and under another name later (`AttentionBelowMissed`). All are found exactly when names other than these lead to
  every parent and each is its module's first name (`AllFoundIff`).
- `extract_stage_state_dict` would copy a rotary table in the state dict to every middle stage and drop it for two
  stages (`ExactlyOneStage`); the demo model keeps the table out of its state dict.
- The docstring of `_iter_node_args` speaks of nested lists; the code unwraps one level, and so does the model.

## Model

| member | source | states |
|---|---|---|
| `SequenceShard.GetSequenceShardInfo` | hyper_parallel/infer/kv_cache.py:62-84 | a shard is computed exactly for a non-negative length, a positive world size and a rank within it; everything else is an error |
| `SequenceShard.ShardsAdjoin` | hyper_parallel/infer/kv_cache.py:76-84 | consecutive ranks own adjacent ranges from 0 to n whose lengths are n / world or one more |
| `SequenceShard.SlicesTile` | hyper_parallel/infer/kv_cache.py:76-84 | the slices of the first k ranks, concatenated, are the part of the sequence before rank k |
| `SequenceShard.SlicesRebuild` | hyper_parallel/infer/kv_cache.py:76-84 | the slices of all ranks, in rank order, rebuild the sequence |
| `SequenceShard.GrowthOwner` | hyper_parallel/infer/kv_cache.py:76-84 | growing the sequence by one lengthens exactly the range of rank n mod world |
| `SequenceShard.GrowthStart` | hyper_parallel/infer/kv_cache.py:76-84 | and moves up by one exactly the ranges behind it |
| `CacheStore.KVCache.Update` | hyper_parallel/infer/kv_cache.py:131-139 | a malformed entry raises and leaves the cache alone; otherwise the cache is replaced, or cleared by nothing |
| `CacheStore.UpdateStores` | hyper_parallel/infer/kv_cache.py:131-139 | an accepted update stores the argument itself, and an empty one empties the cache |
| `CacheStore.KVCache.Merge` | hyper_parallel/infer/kv_cache.py:141-168 | the loop over layer pairs stores every old layer followed by its new one; a layer count or shape mismatch raises and leaves the cache alone |
| `CacheStore.MergeAppends` | hyper_parallel/infer/kv_cache.py:141-168 | an accepted merge keeps every stored row and appends the new ones, and a first merge stores the new layers as they are |
| `CacheStore.MergeAcceptsIff` | hyper_parallel/infer/kv_cache.py:141-168 | a merge is accepted exactly when every entry is a well-shaped pair and, unless one side has no layers, the layers agree in number and in everything but length |
| `CacheStore.ShardPastKeyValues` | hyper_parallel/infer/kv_cache.py:87-111 | a successful cut gives every layer the length its metadata says |
| `CacheStore.CutIsSlice` | hyper_parallel/infer/kv_cache.py:87-111 | the cut takes exactly the rank's slice of every layer of a full cache |
| `CacheStore.ContextParallelKVCache.UpdateFull` | hyper_parallel/infer/kv_cache.py:198-208 | shards a full cache; on an error neither cache nor metadata changes |
| `CacheStore.ContextParallelKVCache.UpdateLocal` | hyper_parallel/infer/kv_cache.py:210-222 | accepts a shard only with matching rank, world size and length; on an error neither cache nor metadata changes |
| `CacheStore.UpdateLocalAcceptsIff` | hyper_parallel/infer/kv_cache.py:210-222 | a local shard is accepted exactly for this rank and world and when every layer is as long as its range |
| `CacheStore.ContextParallelKVCache.MergeLocal` | hyper_parallel/infer/kv_cache.py:224-268 | the whole branch structure of a local merge, with its checks in order; on an error neither cache nor metadata changes |
| `CacheStore.MergeLocalAcceptsIff` | hyper_parallel/infer/kv_cache.py:224-268 | with a given global length: exactly when the rows make up what the rank's range has grown by, all rows into an empty cache, those of layer 0 onto a filled one |
| `CacheStore.MergeInfersLength` | hyper_parallel/infer/kv_cache.py:224-268 | without a given length the merge infers the grown sequence from the rows it gets |
| `CacheStore.MergeLocalLengths` | hyper_parallel/infer/kv_cache.py:250-268 | the growth check reads layer 0 only: stored lengths stay right exactly when all merged layers have the first one's length |
| `CacheStore.UnevenMergeAccepted` | hyper_parallel/infer/kv_cache.py:250-268 | two stored layers and a new row for the first only: the merge is accepted and leaves layers of different length |
| `CacheStore.CallKeepsLengths` | hyper_parallel/infer/kv_cache.py:198-283 | each call with uniform layers keeps every stored length equal to the metadata's local length |
| `CacheStore.RunKeepsLengths` | hyper_parallel/infer/kv_cache.py:198-283 | so does every sequence of update_full, update_local, merge_local and clear calls, raising or not |
| `CacheStore.MergeAcceptsOwner` | hyper_parallel/infer/kv_cache.py:224-268 | whatever a rank stores for n positions, growing to n + 1 it accepts exactly one new row if it is rank n mod world and none otherwise, and then stores every layer extended, under the new metadata |
| `CacheStore.MergeDeals` | hyper_parallel/infer/kv_cache.py:224-268 | from any such state one lock-step merge deals the token to rank n mod world and to no other |
| `CacheStore.MergesDealRoundRobin` | hyper_parallel/infer/kv_cache.py:224-268 | from any such state, after update_full in particular, any number of lock-step merges succeed on every rank and deal the tokens round robin onto what it stores |
| `CacheStore.FullStandsFor` | hyper_parallel/infer/kv_cache.py:198-208 | update_full leaves every rank standing for all positions of the full cache, with its slice of every layer |
| `CacheStore.ClearedStandsForNone` | hyper_parallel/infer/kv_cache.py:270-273 | a cleared rank stands for no position |
| `CacheStore.DealtStandsFor` | hyper_parallel/infer/kv_cache.py:224-268 | after the merges each rank has the metadata of the grown sequence and every layer its canonical length |
| `CacheStore.MergesConserve` | hyper_parallel/infer/kv_cache.py:224-268 | together a group of ranks holds of every layer what it held before the merges and each merged row once |
| `CacheStore.PrefillAndMergesConserve` | hyper_parallel/infer/kv_cache.py:198-268 | after update_full and any number of merges the ranks together hold exactly the prefilled and the merged rows of every layer |
| `CacheStore.MergedRowsAt` | tests/torch/generate/test_kv_cache.py:395-408 | and each rank holds, of every layer, the rows at its held positions: its slice of the prefill, then its share of the merged tokens |
| `CacheStore.DealtIsSliceIff` | hyper_parallel/infer/kv_cache.py:76-84 | with n sharded and m merged positions every rank's held positions are its contiguous slice exactly when nothing was merged, there is one rank, n + m is at most the number of ranks, or one token was merged and belongs to the last rank |
| `Network.ForwardRefines` | examples/generate/cp_generate_check.py:67-97 | a forward call whose masks and positions are causal gives every valid query the logits of recomputing its valid tokens alone, and returns a cache faithful to the same reference |
| `Network.HiddenRefines` | examples/generate/cp_generate_check.py:67-97 | through any number of layers, over a faithful cache, every valid query has the reference hidden value |
| `Network.VisibleKeys` | examples/generate/cp_generate_check.py:89-97 | a valid query attends over exactly the reference keys of the valid tokens up to itself |
| `Network.FullCallRefines` | examples/generate/cp_generate_check.py:67-87 | the same for a call without cached keys |
| `Masks.CausalEntry` | hyper_parallel/infer/utils.py:241-265 | entry by entry, the constructed causal mask lets a valid query see the valid keys up to itself and a padded query everything |
| `Masks.PrefillEntry` | hyper_parallel/infer/generation.py:273-314 | the same for the prefill mask, prefix columns included |
| `Masks.PrefillIsSuffixOfCausal` | hyper_parallel/infer/generation.py:273-314 | the prefill mask under a prefix is the causal mask of the concatenated sequence restricted to the suffix rows |
| `Masks.PrefixPositionsAgreeIff` | hyper_parallel/infer/generation.py:317-327 | prefix-shifted positions equal the concatenated ones exactly from the first valid suffix token on, or everywhere when the prefix has no valid token |
| `Masks.PrefillIsCausal` | hyper_parallel/infer/generation.py:452-479 | the prefill call shows every valid query its rank and exactly the valid keys up to itself |
| `Masks.DecodeIsCausal` | hyper_parallel/infer/generation.py:240-259 | so does a one-token decode at the rank of the new token |
| `Masks.ValidOutputsIgnorePaddingAndFuture` | hyper_parallel/infer/utils.py:241-265 | outputs at a valid position depend only on the valid tokens at or before it: padding and later tokens never change them |
| `Masks.PrefillLogitsMeaning` | hyper_parallel/infer/generation.py:302-314 | through all layers a valid position of a prefill call computes the reference value of its valid tokens |
| `Batch.ForwardRow` | hyper_parallel/infer/generation.py:46-80 | a batched call refines the reference row by row, whatever the other rows hold |
| `Generation.AppendedShaped` | hyper_parallel/infer/generation.py:505-525 | appending keeps ids, mask, counts and flags of one shape, one column wider |
| `Generation.LoopShape` | hyper_parallel/infer/generation.py:542-594 | the loop's state keeps its shape through every step |
| `GenerationMeaning.EmitStopsAtEos` | hyper_parallel/infer/generation.py:505-539 | an emission holds EOS at most once and only last, and stops short of the limit only because of it |
| `GenerationMeaning.DecodeRow` | hyper_parallel/infer/generation.py:542-594 | one iteration of an unfinished row, cached or not, ends with the reference scores of all its real tokens |
| `GenerationMeaning.LoopRow` | hyper_parallel/infer/generation.py:505-594 | whatever the other rows do, the loop makes a row emit what recomputation from scratch emits, with matching count and unfinished flag |
| `GenerationMeaning.PrefillRow` | hyper_parallel/infer/generation.py:452-479 | prefill leaves every row ready for the loop |
| `GenerationMeaning.RunRow` | hyper_parallel/infer/generation.py:405-594 | over a whole run every row gets its own emission, then pads; counts lie between 1 and the limit |
| `GenerationTheorems.GenerateMeaning` | hyper_parallel/infer/generation.py:597-646 | for every batch, mask, EOS setting, limit and mode the returned matrix is each row's stripped prompt and own emission, entry by entry its tokens and then the pad token; the prefix mask used is the configured one, all ones when none is given and absent only for length 0 |
| `GenerationTheorems.PaddedOnTheRight` | hyper_parallel/infer/generation.py:366-369 | entry by entry a padded matrix holds each row's tokens and then the pad token |
| `GenerationTheorems.PrefixMaskAsConfigured` | hyper_parallel/infer/generation.py:136-184 | an accepted configuration uses the given prefix mask as it is, ones of the resolved length when none is given, and none only for length 0 |
| `GenerationTheorems.PrefixAcceptedIff` | hyper_parallel/infer/generation.py:136-184 | which prefix masks and lengths are accepted |
| `GenerationTheorems.FinalizedRaisesIff` | hyper_parallel/infer/generation.py:342-369 | finalizing raises exactly when some row has no valid token |
| `GenerationTheorems.CacheNeverMatters` | hyper_parallel/infer/generation.py:505-593 | generation with the cache returns exactly the token matrix, or the error, of generation without it |
| `GenerationTheorems.EmissionIsAlone` | hyper_parallel/infer/generation.py:505-594 | a row whose last prompt position is real emits what its real tokens emit alone, when the sampler ignores the row's padding |
| `GenerationTheorems.SameRealTokensEmitTheSame` | hyper_parallel/infer/generation.py:505-594 | two rows of any two calls with the same real tokens emit the same |
| `GenerationTheorems.ComputedPrefixHolds` | hyper_parallel/infer/generation.py:187-203 | a prefix cache computed by the model is faithful to the prefix tokens |
| `GenerationTheorems.PrefixIsConcatenation` | hyper_parallel/infer/generation.py:187-203 | generating from a prefix cache emits what generating from the concatenated prompt emits |
| `GenerationTheorems.ReturnedDropsHoles` | hyper_parallel/infer/generation.py:342-369 | a returned row loses as many tokens as its mask has holes after the first valid token |
| `GenerationTheorems.ReturnedWholeIff` | hyper_parallel/infer/generation.py:342-369 | nothing is lost exactly for left-padded masks |
| `GenerationTheorems.ReturnedLeftPadded` | hyper_parallel/infer/generation.py:330-369 | a left-padded row returns its valid prompt tokens followed by its emission |
| `GenerationTheorems.ReturnedUnmasked` | hyper_parallel/infer/generation.py:330-369 | without a mask the row returns whole |
| `GenerateLoop.GenerationContext.AppendNextToken` | hyper_parallel/infer/generation.py:505-525 | the in-place update appends one column to ids and mask, counts unfinished rows and lowers flags at EOS; nothing else changes |
| `GenerateLoop.GenerationContext.UpdateCache` | hyper_parallel/infer/generation.py:206-223 | a returned cache is stored, a missing one leaves the stored one |
| `GenerateLoop.CutRow` | hyper_parallel/infer/generation.py:342-369 | a row from its first valid token on; a row without one is refused |
| `GenerateLoop.FinalizeSequences` | hyper_parallel/infer/generation.py:342-369 | the row loop and the padding loop compute the specified matrix or raise on an all-padding row |
| `GenerateLoop.Prefill` | hyper_parallel/infer/generation.py:452-479 | the prefill call on the context |
| `GenerateLoop.RunLoop` | hyper_parallel/infer/generation.py:542-594 | prefill and the decode loop over the mutable context reach the specified final state |
| `GenerateLoop.Generate` | hyper_parallel/infer/generation.py:597-646 | the imperative generate call returns what the theorems above are about |
| `CacheGather.PadSequenceShard` | examples/generate/cp_generate_check.py:176-183 | padding keeps the rows and fills up to the common length |
| `CacheGather.SortIsUnique` | examples/generate/cp_generate_check.py:32-43 | without equal starts any permutation of the pieces sorted by start is the one computed here, so the sorting algorithm does not matter |
| `CacheGather.SortCacheShards` | examples/generate/cp_generate_check.py:32-43 | cutting the padding off and sorting gives the pieces in start order, or raises as soon as two starts are equal, where the tuples compare their tensors |
| `CacheGather.GatherFullCache` | examples/generate/cp_generate_check.py:145-173 | the whole exchange on one rank concatenates the shards in start order, or raises on equal starts |
| `CacheGather.TiesIff` | examples/generate/cp_generate_check.py:32-43 | the slices of n positions have two equal starts exactly when there are two ranks more than positions |
| `CacheGather.TiedAreEmpty` | examples/generate/cp_generate_check.py:32-43 | ranks with equal starts hold nothing: the tensors compared have no elements |
| `CacheGather.GatherRebuilds` | examples/generate/cp_generate_check.py:145-173 | gathering every rank's slice rebuilds the full sequence exactly when at most one slice is empty, and raises otherwise |
| `CacheGather.TwoRowsFourRanks` | examples/generate/cp_generate_check.py:233-259 | two cached positions on four ranks: the gather raises |
| `ContextParallel.SharedLogits` | hyper_parallel/infer/utils.py:140-167 | when all ranks hold the same scores, any accepted owner hands every rank those scores |
| `ContextParallel.OwnerSelects` | hyper_parallel/infer/utils.py:140-167 | for arbitrary differing scores: an accepted rank hands over exactly its scores, accepted per-row ranks each their row, and which owners are accepted |
| `LockStep.RebuildsCache` | examples/generate/cp_generate_check.py:145-173 | ranks in step rebuild the full cache by gathering exactly when no two of their shards are empty, and all raise otherwise |
| `LockStep.RankForwardInStep` | examples/generate/cp_generate_check.py:107-143 | one rank's forward call gives the single-process scores and its slice of the single-process cache |
| `LockStep.ExchangeInStep` | examples/generate/cp_generate_check.py:107-143 | in a collective call the length check passes on every rank and all stay in step |
| `LockStep.StepsInStep` | hyper_parallel/infer/generation.py:505-539 | every rank takes the single-process step |
| `LockStep.LoopInStep` | hyper_parallel/infer/generation.py:560-594 | through the loop no rank waits forever or fails a check and all end in step with the single process, if the loop ends with its next token or its first gather sees at most one empty shard; otherwise every rank raises there |
| `LockStep.RunInStep` | hyper_parallel/infer/generation.py:405-594 | the same for a whole run on any number of ranks, with the first gather in prefill if there is a prefix and in the first decode call if not |
| `LockStep.CpMatchesSingleProcess` | examples/generate/cp_generate_check.py:201-290 | the context-parallel call returns on every rank exactly the single-process matrix or error, exactly as long as the first gather sees at most one empty shard: the prefix length, or without a prefix the prompt width if a decode call follows, exceeds the number of ranks less two; with more ranks it raises |
| `LockStep.TwoPrefixPositionsFourRanks` | examples/generate/cp_generate_check.py:233-259 | a shared prefix of two positions on four ranks: every rank raises |
| `GraphTracer.VisitProducers` | hyper_parallel/compile/tracer/graph_tracer.py:227-238 | one search step finds the non-placeholder arguments and queues exactly the new ones |
| `GraphTracer.IterNodeArgsIff` | hyper_parallel/compile/tracer/graph_tracer.py:200-208 | a node is found exactly when some argument is that node or a list with it as an item |
| `GraphTracer.IterNodeArgsAppend` | hyper_parallel/compile/tracer/graph_tracer.py:200-208 | arguments are unwrapped in order |
| `GraphTracer.ProducersIff` | hyper_parallel/compile/tracer/graph_tracer.py:227-238 | the producers of a node are exactly the non-placeholders it is computed from in some number of steps |
| `GraphTracer.AncestorsOf` | hyper_parallel/compile/tracer/graph_tracer.py:227-238 | the worklist terminates with exactly the transitive producers |
| `GraphTracer.SeedBackward` | hyper_parallel/compile/tracer/graph_tracer.py:278-300 | the gradient outputs that qualify start the search, each queued |
| `GraphTracer.VisitBackward` | hyper_parallel/compile/tracer/graph_tracer.py:300-314 | one backward step finds the arguments that are no placeholders, have no module stack and do not feed the loss |
| `GraphTracer.SearchBackward` | hyper_parallel/compile/tracer/graph_tracer.py:278-314 | the worklist terminates with the least closed set |
| `GraphTracer.AnnotateAutogradBackward` | hyper_parallel/compile/tracer/graph_tracer.py:251-317 | in place, exactly the backward nodes are tagged and every other tag is kept |
| `GraphTracer.LeastIsUnique` | hyper_parallel/compile/tracer/graph_tracer.py:227-238 | a closed set all of whose nodes are reached is the only one, so the order of the worklist does not matter |
| `GraphTracer.BackwardIsLeast` | hyper_parallel/compile/tracer/graph_tracer.py:278-317 | the tagged nodes are that least set for the gradient outputs |
| `GraphTracer.LossNeverConsumesBackward` | hyper_parallel/compile/tracer/graph_tracer.py:265-317 | neither the loss nor any of its producers is tagged or consumes a tagged node |
| `GraphTracer.LossSourcesUntagged` | hyper_parallel/compile/tracer/graph_tracer.py:265-317 | the first output and whatever it is computed from stay untagged, even when listed again as a gradient |
| `GraphTracer.OutputsOfList` | hyper_parallel/compile/tracer/graph_tracer.py:211-224 | an output node with one list of nodes has these outputs in order, the first being the loss |
| `GraphTracer.GradientsTagged` | hyper_parallel/compile/tracer/graph_tracer.py:278-300 | every other listed output is tagged exactly when it is computed, belongs to no module and does not feed the loss |
| `Compiler.TrainableParamsInStateOrder` | hyper_parallel/compile/compiler.py:279-301 | the loop lists the live trainable parameters in state order |
| `Compiler.EmissionMatchesPairing` | hyper_parallel/compile/tracer/graph_tracer.py:483-500 | position i of the emitted gradients belongs to parameter i of that list, with or without flags |
| `Compiler.TrainableAt` | hyper_parallel/compile/compiler.py:279-301 | in positions: those whose flag, if there are flags, marks a parameter and whose name is a live trainable one, in order |
| `Compiler.EmittedAt` | hyper_parallel/compile/tracer/graph_tracer.py:483-500 | tracing emits exactly the state names of trainable parameters, in state order |
| `Compiler.EmittedAsOften` | hyper_parallel/compile/tracer/graph_tracer.py:483-500 | each as often as it occurs in the state |
| `Compiler.EmittedSum` | hyper_parallel/compile/tracer/graph_tracer.py:483-500 | summing over what is emitted is summing over the state names of a trainable parameter |
| `Compiler.SharesSafelyIff` | hyper_parallel/compile/compiler.py:273-277 | whatever the emitted tensors hold and however they are shared, every parameter gains its sum and no two hold one tensor afterwards exactly when a tensor that a parameter comes to hold is bound to no other and not read again after something was added to it |
| `Compiler.TwoParametersOneTensor` | hyper_parallel/compile/compiler.py:273-277 | two parameters bound to one emitted tensor: the next call adds both of its gradients to both |
| `Compiler.GainedSafely` | hyper_parallel/compile/compiler.py:273-277 | with such sharing, after any number of positions every parameter has gained its sum over them, tied parameters included |
| `Compiler.GraphCompiler.AddGrad` | hyper_parallel/compile/compiler.py:273-277 | a missing gradient is set, an existing one is added to in place |
| `Compiler.GraphCompiler.AccumulateGrads` | hyper_parallel/compile/compiler.py:243-277 | a count mismatch raises before any write; otherwise the additions are made position by position, for any sharing of tensors |
| `Compiler.GraphCompiler.ForwardBackward` | hyper_parallel/compile/compiler.py:133-155 | one call compiles on first use, runs and accumulates, or raises with nothing written; sums are right if the graph's shared outputs are shareable in the state before the call |
| `Compiler.GraphCompiler.TracedPairs` | hyper_parallel/compile/tracer/graph_tracer.py:483-500 | with unchanged trainable flags the counts match and pairing by position sums by name |
| `Compiler.GraphCompiler.TracedStep` | hyper_parallel/compile/compiler.py:133-155 | with unchanged flags a call never raises, every trainable parameter gains the gradients of all its state names, and after it any sharing is shareable |
| `Compiler.GraphCompiler.MicroBatches` | hyper_parallel/compile/compiler.py:133-155 | no call raises, and if the first call's shared outputs are shareable every trainable parameter gains over all calls the gradients of all its state names, and no other gains anything |
| `Compiler.GraphCompiler.FrozenUntouched` | hyper_parallel/compile/compiler.py:243-277 | a frozen parameter keeps its tensor and value through all of them |
| `Compiler.PositionsSumByName` | hyper_parallel/compile/compiler.py:243-277 | the sum over positions is the sum over names |
| `Compiler.UncarriedTotal` | hyper_parallel/compile/compiler.py:243-277 | a parameter with none of the emitted names gains nothing |
| `TokenExchange.ExchangeAndBack` | examples/torch/pp_overlap/pp_overlap_moe_example.py:157-192 | exchanging with one set of splits and back with its transpose returns every row |
| `TokenExchange.BlockPositionsAreRanges` | hyper_parallel/core/expert_parallel/expert_parallel.py:148-169 | the vectorised index arithmetic yields the blocks' ranges in order |
| `TokenExchange.PermuteIsExpertMajor` | hyper_parallel/core/expert_parallel/expert_parallel.py:101-169 | the indices put received blocks in expert-major order and miss no row |
| `TokenExchange.GroupedByExpert` | hyper_parallel/core/expert_parallel/expert_parallel.py:134-155 | expert-major order groups every rank's entries by expert |
| `TokenExchange.ScatterOfGather` | hyper_parallel/core/expert_parallel/expert_parallel.py:205-227 | scattering gathered rows restores every gathered position |
| `ExpertParallel.SplitsAreTransposed` | examples/torch/pp_overlap/pp_overlap_moe_example.py:139-151 | the splits that ranks derive from the exchanged counts are transposes across every pair of ranks |
| `ExpertParallel.TokensReceived` | examples/torch/pp_overlap/pp_overlap_moe_example.py:157-160 | the token exchange delivers exactly the blocks routed to the rank, with the exchanged counts as lengths |
| `ExpertParallel.LocalRoundTrip` | hyper_parallel/core/expert_parallel/expert_parallel.py:172-227 | permuting, running the local experts and undoing the permutation answers every received row in place |
| `ExpertParallel.AnswersReturn` | examples/torch/pp_overlap/pp_overlap_moe_example.py:181-194 | combining with swapped splits brings every answer back to its rank |
| `ExpertParallel.AnswerRow` | examples/torch/pp_overlap/pp_overlap_moe_example.py:113-194 | each combined row stands where it was sent from and carries its own expert's result |
| `ExpertParallel.EveryRowIsRouted` | examples/torch/pp_overlap/pp_overlap_moe_example.py:113-194 | every row is one of the rows routed to some expert |
| `ExpertParallel.OverlapExpertParallel.Unpermute` | hyper_parallel/core/expert_parallel/expert_parallel.py:205-227 | the scatter loop fills a blank buffer from the remembered permutation |
| `ExpertParallel.DispatchAll` | examples/torch/pp_overlap/pp_overlap_moe_example.py:113-166 | counts exchange, splits, token exchange and permutation on all ranks |
| `ExpertParallel.CombineAll` | examples/torch/pp_overlap/pp_overlap_moe_example.py:168-194 | un-permutation and the exchange back from the remembered splits on all ranks |
| `ExpertParallel.Forward` | examples/torch/pp_overlap/pp_overlap_moe_example.py:113-194 | dispatch then combine is the identity on placement: every rank gets its own rows back, each through the expert it was routed to |
| `ModuleGraph.NamedIsResolved` | hyper_parallel/models/replacement.py:99-111 | the enumeration without deduplication lists a module under a path exactly when the path leads to it |
| `ModuleGraph.NamedInOrder` | hyper_parallel/models/replacement.py:99-111 | the enumeration lists a path before the paths that go on from it and, where two part, the earlier registered child first |
| `Replacement.SplitOfDotted` | hyper_parallel/models/replacement.py:99-111 | splitting a dotted name at its dots gives back the components of the path |
| `Replacement.EnumerateModules` | hyper_parallel/models/replacement.py:99-111 | the recursive walk over shared modules computes that enumeration |
| `Replacement.AllModuleAliases` | hyper_parallel/models/replacement.py:99-111 | every module below the root once, in the order in which the enumeration meets them, with all its names sorted |
| `Replacement.AtMostIff` | hyper_parallel/models/replacement.py:108-111 | names are compared by their first differing character, a prefix first |
| `Replacement.SortedPairs` | hyper_parallel/models/replacement.py:108-111 | sorted names rise from any place to any later one |
| `Replacement.SortPaths` | hyper_parallel/models/replacement.py:108-111 | sorting keeps the names and orders their dotted forms |
| `Replacement.SelectSpec` | hyper_parallel/models/replacement.py:135-162 | a rule is refused exactly for a wrong type, a module of another rule or an unmatched pattern; otherwise its matches join |
| `ReplacementPlan.ValidateNonNested` | hyper_parallel/models/replacement.py:165-174 | rejects exactly the plans with a target below another |
| `ReplacementPlan.CompatibleByNames` | hyper_parallel/models/replacement.py:135-162 | acceptance in terms of names alone |
| `ReplacementPlan.CompileModuleReplacements` | hyper_parallel/models/replacement.py:177-194 | compilation succeeds exactly for compatible non-nested rules, the plan has one target per matched module with all its names, targets of an earlier rule come first and those of one rule in the order in which the enumeration meets them, and an error names a real fault |
| `ReplacementPlan.PlanCarriesRules` | hyper_parallel/models/replacement.py:135-162 | written out over patterns and dotted names: every name that some pattern of a rule matches leads to the source of a target with that rule, and every target has such a name |
| `ReplacementPlan.FactoryNameIsLeast` | hyper_parallel/models/replacement.py:407-412 | the name handed to a factory is a name of its source, and no other name of it sorts before |
| `Rebinding.AliasPathNow` | hyper_parallel/models/replacement.py:197-213 | in the middle of an installation an alias path leads to what its own entry holds |
| `ReplacementInstall.ValidateTargetBinding` | hyper_parallel/models/replacement.py:207-213 | passes exactly when every alias is still bound to the source |
| `ReplacementInstall.BindingHolds` | hyper_parallel/models/replacement.py:425-435 | before each target the binding check holds, whatever was installed before |
| `ReplacementInstall.Reparent` | hyper_parallel/models/replacement.py:430-435 | re-points every alias entry and nothing else |
| `ReplacementInstall.InstallTarget` | hyper_parallel/models/replacement.py:407-436 | one target is installed completely or, if its factory fails, not at all |
| `ReplacementInstall.ApplyModuleReplacements` | hyper_parallel/models/replacement.py:388-443 | the plan is installed, or stops at the first failing factory with exactly the targets before it installed; binding errors never occur |
| `ReplacementInstall.AliasesRebound` | hyper_parallel/models/replacement.py:388-443 | afterwards every name of every target leads to its replacement |
| `ReplacementInstall.OthersUnchanged` | hyper_parallel/models/replacement.py:388-443 | a name that meets no target leads where it led, or nowhere if it led nowhere |
| `ReplacementInstall.OrderIrrelevant` | hyper_parallel/models/replacement.py:388-443 | any order of the targets gives the same tree |
| `AttentionSwap.AttentionFoundIff` | hyper_parallel/distributed/attention_swap.py:125-132 | a registered self_attn is found exactly when no earlier name of its parent holds the same module |
| `AttentionSwap.AttentionMissed` | hyper_parallel/distributed/attention_swap.py:125-132 | a parent with the same module under an earlier name, whose self_attn is missed |
| `AttentionSwap.ReachedIff` | hyper_parallel/distributed/attention_swap.py:115-132 | the search enters a module exactly when registered names lead there without self_attn and without a later name for a module listed as self_attn |
| `AttentionSwap.ReferenceFoundIff` | hyper_parallel/distributed/attention_swap.py:115-132 | a registered self_attn is found exactly when such a path leads to its parent and it is its module's first name there |
| `AttentionSwap.AllFoundIff` | hyper_parallel/distributed/attention_swap.py:110-139 | every self_attn that names lead to is found exactly when all of them meet that condition, and nothing else is ever found |
| `AttentionSwap.AllFoundWhenOnce` | hyper_parallel/distributed/attention_swap.py:110-139 | in particular when no reachable parent registers its attention module under a second name |
| `AttentionSwap.AttentionBelowMissed` | hyper_parallel/distributed/attention_swap.py:125-132 | a module registered as self_attn and then again as an ordinary block: the self_attn below it is missed although every parent lists its own |
| `AttentionSwap.EarlierChildFirst` | hyper_parallel/distributed/attention_swap.py:115-139 | in a search of a module, what lies in or below an earlier listed child is met before what lies only below a later one |
| `AttentionSwap.DiscoveryFollowsChildren` | hyper_parallel/distributed/attention_swap.py:115-139 | the same in the search of the whole model, for what is reached through that module only |
| `AttentionSwap.AttentionFollowsChildren` | hyper_parallel/distributed/attention_swap.py:106-139 | so attention modules below an earlier child are targets before those below a later one |
| `FirstOccurrence.FirstSeenInOrder` | hyper_parallel/distributed/attention_swap.py:133-139 | recording each module once keeps the order of first sights |
| `AttentionSwap.Visit` | hyper_parallel/distributed/attention_swap.py:115-132 | depth-first search adds exactly what is reached, records its attention entries in the order in which a walk through the listed children meets them, and ends on cyclic graphs |
| `AttentionSwap.FindAttentionTargets` | hyper_parallel/distributed/attention_swap.py:110-139 | all reached attention entries, grouped by module in the order of first sight of that walk, or an error when there are none |
| `AttentionSwap.Rollback` | hyper_parallel/distributed/attention_swap.py:182-189 | restoring the saved entries gives the original graph |
| `AttentionSwap.WrapTargets` | hyper_parallel/distributed/attention_swap.py:161-171 | wrapping goes on until a wrapper fails; the saved entries are exactly the re-pointed ones |
| `AttentionSwap.ChainWrapped` | hyper_parallel/distributed/attention_swap.py:173-175 | chaining succeeds exactly when every consecutive pair can be chained |
| `AttentionSwap.ApplyAttentionSwap` | hyper_parallel/distributed/attention_swap.py:142-196 | all or nothing: success exactly when everything can be wrapped and the wrappers chained in the order of first sight, and on any failure every reference is as before |
| `AttentionSwap.SwapMeaning` | hyper_parallel/distributed/attention_swap.py:161-171 | after success each self_attn that meets the condition on names points to the one wrapper of its module, and every other registration is unchanged |
| `AttentionSwap.SwapWrapsAll` | hyper_parallel/distributed/attention_swap.py:161-171 | where everything is found, success wraps every self_attn that names lead to and nothing else |
| `Trainer.TrainLoop.ComputeTrainIters` | hyper_parallel/trainer/base.py:376-408 | which configurations raise which error, and the limit, steps per epoch and least covering number of epochs otherwise |
| `Trainer.LimitIsWholeBatches` | hyper_parallel/trainer/base.py:376-408 | the limit counts the whole global batches that the samples fill |
| `Trainer.EpochKeepsTarget` | hyper_parallel/trainer/base.py:767-786 | from any resumable state an epoch stays within its target and reaches it exactly when the iterator does not run dry |
| `Trainer.RunNeverExceeds` | hyper_parallel/trainer/base.py:746-786 | no run exceeds the limit, and leaving early does not change the step count |
| `Trainer.RunReachesLimit` | hyper_parallel/trainer/base.py:746-786 | a run ends at the limit exactly when its last epoch had enough left: earlier shortfalls are made up for |
| `Trainer.SizedEpochNeverDry` | hyper_parallel/trainer/base.py:392-403 | with a sized loader and a restored cursor no epoch runs dry |
| `Trainer.SizedRunReachesLimit` | hyper_parallel/trainer/base.py:392-408 | so such a run ends at the limit |
| `Trainer.LastTarget` | hyper_parallel/trainer/base.py:406-408 | the number of epochs is the least that covers the limit |
| `Trainer.LeavesAtLimit` | hyper_parallel/trainer/text_trainer.py:312-350 | the text loop leaves after the first epoch that reaches the limit, or after the last |
| `Trainer.TrainLoop.TrainStep` | hyper_parallel/trainer/base.py:665-682 | the basic step is counted right after its fetch |
| `Trainer.TrainLoop.TextTrainStep` | hyper_parallel/trainer/text_trainer.py:239-299 | the text step fetches once per micro-step and is counted only when all succeeded |
| `Trainer.TrainLoop.TrainEpoch` | hyper_parallel/trainer/base.py:769-781 | one epoch of the basic loop |
| `Trainer.TrainLoop.TextTrainEpoch` | hyper_parallel/trainer/text_trainer.py:334-341 | one epoch of the text loop |
| `Trainer.TrainLoop.Train` | hyper_parallel/trainer/base.py:746-797 | the basic loop over the remaining epochs |
| `Trainer.TrainLoop.TextTrain` | hyper_parallel/trainer/text_trainer.py:312-350 | the text loop, which leaves once the limit is reached |
| `PipelineState.LayerRangeForStage` | examples/torch/moe/pipeline.py:41-67 | a range is given exactly for a width of at least one, a rank within it and enough layers |
| `PipelineState.LayerHasOneStage` | examples/torch/moe/pipeline.py:41-67 | every layer belongs to exactly one stage |
| `PipelineState.LayerUnique` | examples/torch/moe/pipeline.py:304-308 | a key belongs to at most one layer: numerals before the dot are unambiguous |
| `PipelineState.UnderIff` | examples/torch/moe/pipeline.py:283-293 | a key is under a prefix exactly when it is the prefix or continues it after a dot |
| `PipelineState.CollectKeysByPrefix` | examples/torch/moe/pipeline.py:283-293 | the loops collect exactly the entries under some prefix |
| `PipelineState.CollectLayerKeys` | examples/torch/moe/pipeline.py:296-309 | the loops collect exactly the entries of the layers in range, renamed |
| `PipelineState.ExtractStageStateDict` | examples/torch/moe/pipeline.py:312-353 | one stage's dict, or the range error |
| `PipelineState.RenamingInverts` | examples/torch/moe/pipeline.py:304-308 | adding the start index inverts the renaming |
| `PipelineState.StageHolds` | examples/torch/moe/pipeline.py:312-353 | a stage holds an entry exactly when the entry belongs to it |
| `PipelineState.StageRestores` | examples/torch/moe/pipeline.py:312-353 | every local entry is an entry of the full dict under its restored name |
| `PipelineState.HeldOnce` | examples/torch/moe/pipeline.py:312-353 | an entry is held by one stage under one local name only |
| `PipelineState.ExactlyOneStage` | examples/torch/moe/pipeline.py:312-353 | with two stages or more an entry lands in exactly one dict when it is an embedding, head, norm or existing layer entry, and otherwise only a rotary entry with exactly one middle stage does |
| `PipelineState.StagesRebuild` | examples/torch/moe/pipeline.py:312-353 | for such dicts the stages together rebuild the full dict |
| `Mesh.CoordsUnique` | hyper_parallel/core/dtensor/device_mesh.py:810-824 | mixed-radix coordinates determine the position |
| `Mesh.SubPositionsAgree` | hyper_parallel/core/dtensor/device_mesh.py:62-92 | slicing dimension by dimension leaves exactly the positions that agree on the sliced dimensions |
| `Mesh.LastGroup` | hyper_parallel/core/dtensor/device_mesh.py:62-92 | the group along the last dimension is the current rank's run of consecutive ranks |
| `Mesh.CrossGroup` | hyper_parallel/core/dtensor/device_mesh.py:62-92 | the group across it takes the current rank's place in every run |
| `Mesh.StagesPartition` | hyper_parallel/distributed/mesh.py:151-157 | pipeline stages partition the world and each rank is in its own |
| `Mesh.OwnStageMesh` | hyper_parallel/distributed/mesh.py:151-157 | a rank's mesh covers exactly the ranks of its own stage, and its position in the mesh is its own |
| `Mesh.SameLastDimension` | hyper_parallel/distributed/mesh.py:234-243 | device and dense-FSDP meshes agree on tensor-parallel group and rank, and dp-cp group equals replicate-shard group |
| `Mesh.MeshContext.BuildMeshs` | hyper_parallel/distributed/mesh.py:120-188 | which sizes raise which error; the layout check never raises; the meshes built otherwise |
| `Mesh.MeshContext.BuildExpertParallelMesh` | hyper_parallel/distributed/mesh.py:190-231 | the divisibility errors and the expert mesh, with a replica dimension only for several replicas |
| `Mesh.MeshContext.ExpertShapeCovers` | hyper_parallel/distributed/mesh.py:190-231 | the expert mesh covers the world, its last dimension is the expert-parallel size, and it has a replica dimension only for several replicas |
| `Mesh.ExpertGroupsAreBlocks` | hyper_parallel/distributed/mesh.py:190-231 | expert groups cut each stage into consecutive blocks, each rank in its own |
| `Mesh.AcceleratorCoversWorldIff` | hyper_parallel/distributed/mesh.py:280-285 | the derived data-parallel size covers the world exactly when the model-parallel sizes divide it |
| `SelectiveCheckpoint.SelectivePolicy.Decide` | hyper_parallel/distributed/activation_checkpoint.py:352-386 | one call of the eager policy advances its own phase's counter only |
| `SelectiveCheckpoint.Replay` | hyper_parallel/distributed/activation_checkpoint.py:350-416 | for any interleaving of phases and regions every call gets the verdict its own region and phase determine |
| `SelectiveCheckpoint.MatmulsAlternate` | hyper_parallel/distributed/activation_checkpoint.py:372-379 | the matmuls of a phase are saved and recomputed in turn |
| `SelectiveCheckpoint.RecomputationAgrees` | hyper_parallel/distributed/activation_checkpoint.py:350-386 | recomputation decides about matmuls as forward did, matmul by matmul |
| `SelectiveCheckpoint.OthersDoNotInterfere` | hyper_parallel/distributed/activation_checkpoint.py:298-309 | inserting or dropping other operators, other phases or other regions never changes a verdict |
| `SelectiveCheckpoint.UncountedVerdict` | hyper_parallel/distributed/activation_checkpoint.py:366-386 | an operator that is not counted always gets the same verdict: saved exactly when listed and not forced to be recomputed |
| `SelectiveCheckpoint.CompileDiffersAtEven` | hyper_parallel/distributed/activation_checkpoint.py:323-347 | the stateless policy differs from the eager one exactly at even matmuls |
| `Sampler.ApplyRepetitionPenalty` | hyper_parallel/infer/sampler.py:72-89 | scores of seen tokens move by the penalty, others stay |
| `Sampler.PenaltyLowers` | hyper_parallel/infer/sampler.py:72-89 | a penalty above 1 lowers a score other than zero, whatever its sign, and one below 1 raises it |
| `Sampler.PaddingInvisibleIff` | hyper_parallel/infer/sampler.py:72-104 | greedy generation returns for every model, prompt and left padding what it returns for the prompt alone exactly when the repetition penalty is 1 |
| `Sampler.PaddingShows` | hyper_parallel/infer/sampler.py:72-104 | for any other penalty a model and a prompt whose masked, left-padded version returns another row |
| `GenerationTheorems.PaddedCall` | hyper_parallel/infer/generation.py:597-646 | a call on one prompt behind any masked left padding returns the prompt and what it emits, where only the sampler sees the padding |
| `Sampler.NucleusIsShortestPrefix` | hyper_parallel/infer/sampler.py:61-66 | the nucleus is the shortest prefix of the sorted order whose mass exceeds the limit; one token fewer has at most the limit |

## Left out

- Floating point, dtypes, devices and autograd: scores are exact reals, hidden values and keys opaque; masks hold 0 or 1.
- Networks that mix rows of a batch, such as capacity-limited expert routing: the network computes each row on its own.
- Opaque cache objects of other libraries, user logits processors and stopping criteria, and random sampling: unconstrained external code. `pick` stands for any deterministic per-row sampler.
- Top-k filtering and the sampling calls themselves; a repetition penalty with ids outside the vocabulary, whose scatter order is undefined.
- Gathering of tensor-parallel vocabulary shards before sampling (`prepare_logits_for_sampling` with a tensor-parallel group).
- A prefix given as an already sharded local cache with its own shard info, and switching the module to eval mode and back.
- LockStep.CpMatchesSingleProcess: for models of one layer, because the context-parallel forward it is about has one attention layer and stores one pair.
- ContextParallel.RebuiltPast: any tie between two starts raises, although tied tensors of exactly one element each would compare; ranks in step tie only with empty shards (`TiedAreEmpty`).
- ContextParallel and LockStep model several processes on values, not as objects: what one rank does between two collectives is not interleaved with the others.
- ExpertParallel.Forward: collectives have their mathematical meaning; the overlap hooks, streams and the order in which ranks run between two collectives are not modelled, and experts work row by row.
- GraphTracer: nodes carry only operator kind, arguments and whether they have a module stack; copying of forward metadata is left out.
- Compiler.GraphCompiler.MicroBatches: one number stands for a tensor's elements, which names share a graph node is a parameter, the module's parameters keep their names and identity, and graph passes that shard them are left out.
- ReplacementPlan.CompileModuleReplacements: modules are held directly, so an expired source cannot occur; module graphs are acyclic, as the enumeration without deduplication needs. With several faults, which of them is reported is not promised.
- ReplacementInstall.ApplyModuleReplacements: the factory and the checks on what it returns are one function that makes a module or refuses; weight conversions and checkpoint metadata are left out.
- AttentionSwap.ApplyAttentionSwap: wrapping and chaining are functions that may refuse; releasing the swap wiring and the finalizer are left out.
- fnmatch and the isinstance check are parameters.
- Trainer: callbacks, losses and optimizers; an iterator is the number of fetches it has left in an epoch.
- Mesh: the strided layout behind sub-meshes, process-group creation, and meshes built before a process group exists; a group is what slicing the row-major rank array gives.
- Split of a batch into micro-batches, YAML configuration, logging, checkpoint registry and the planners: one-branch claims or code that is not part of this model.
