# Velo-Core: a verified model of the inference engine's logic

Velo-Core serves large language models. Apart from its GPU code it contains a prefix cache, a speculative
decoder, a batching engine with a continuous-batching scheduler, a paged KV memory, tensor-parallel weight
sharding, and a fabric that moves KV blocks between nodes. This project models those parts in Dafny and proves
what they are for:

* **Prefix cache.** Every run of the radix tree (an arena of nodes with edge splitting, ticks and eviction) is a
  run of a plain map with longest-prefix lookup and coldest-first eviction.
* **Speculative decoding.** Whatever the draft model guesses, the linear, batched and tree forms emit what the
  target alone would emit, provided verification judges position `i` of a draft in the context extended by the
  first `i` drafted tokens.
* **Engine and scheduler.** With the unbounded cache it is built with, the engine's cache, block store and page
  allocator always hold the same handles and no page is lost;
  batch generation equals independent decoding; at every moment of every scheduler run each caller has received its
  own greedy continuation so far, slots are conserved, and where nothing fails every caller is served within a stated
  number of turns.
* **Paged memory.** At covered positions, interleaved updates through the page table read back as one independent
  flat array per slot; slots have their pages to themselves exactly when no two of them serve the same sequence.
* **Attention and sharding.** The one-pass attention kernel over pages returns the numbers of the two-pass loop over
  the slot's flat cache; dequantised weight shards are slices of the dequantised weights; the sharded feed-forward
  block sums to the unsharded one.
* **Transfer fabric.** The wire format round-trips exactly the lengths that fit 32 bits and a transfer never
  fails to parse; each sent block lands once, at a least-loaded allowed peer; in every run of calls and heartbeats on
  a fresh disaggregated pool each prompt yields one decode task if a decode node has room and none otherwise, every
  prompt is counted as migrated or failed, and decode nodes are dispatched to evenly until the cursor wraps.

Numbers are `real`, and the exponential is any positive function that turns sums into products. Model calls are
functions of the call number and their arguments, so a model may answer differently every time. Arrivals,
hang-ups, failures and the order of a hash map are free choices.

Where the code does not do what one would expect, the code is modelled and the exact condition is proved:

* The default tree verification records the target's token *before* each node where the search reads the token
  *after* it. What is emitted follows the target exactly when the recorded tokens on the returned path happen to be
  right (`DefaultTreeExact`), a condition on tree and target alone (`DefaultTreeSuits`); never if the target's choice
  changes with the root token (`DefaultVerifyTreeShifted`); on a chain, exactly when the target makes one and the same
  choice after the context, the root and each of the draft's repetitions of that choice (`ChainExact`).
  `DefaultTreeRound` states this of the code.
* The root token of a draft tree is never checked (`RootUnchecked`), and a child may be added to a parent that does
  not exist (`AddChild`).
* Two requests with the same prompt are given the same pages (`AdmitSamePrompt`); their caches then overwrite each
  other (`SharedPagesClash`). Admitting and binding a batch leaves every slot its pages to itself exactly when the
  prompts are pairwise different (`AdmitAndBind`).
* Batch generation binds a slot to its prompt's pages only. A write past them goes to page 0, and damages another slot
  exactly when that slot keeps the position on page 0 at the same place (`UncoveredIsPageZero`,
  `UncoveredWriteDamages`). The scheduler's admission does not bind table rows at all (src/scheduler.rs:230-242):
  there a row keeps whatever stood in it.
* Evicting from the cache leaves blocks and pages behind. Setting a capacity keeps the engine consistent exactly when
  the cache already fits in it (`SetCacheCapacity`); saving a sequence under a capacity exactly when the stored
  sequences, the new one included, still fit (`CacheSequence`, with `OrphanedBySaving` for an engine that fits its
  capacity and is inconsistent one save later); evicting explicitly exactly when nothing is asked for or stored
  (`EvictFromCache`).
* Batch generation and the scheduler do not check the length of a draft. A round passes a request's limit exactly when
  the draft is longer than what is left and agrees with the target that far (`EmitsBeyondIff`); the tokens are the
  target's all the same, and the worker's subtraction still does not underflow (`Workers.Worker.Run`).
* Allocating pages for a block id that already owns pages loses the old ones (`AllocateKeepsPartition`).
* The kernel and the flat loop pick the same KV head exactly when the KV heads divide the query heads
  (`SameHeadIff`).
* A block handed off without a payload is documented to travel as zeros; the code sends an empty payload, and so does
  the model (`Nixl.CacheTransferAgent.Handoff`). The outcome for a full peer is never produced (`NeverFails`).
* A finished sequence that is stored already still needs free pages before those of the entry it replaces come back
  (`Engine.VeloEngine.FinishAll`).
* A failed admission keeps its slot; the scheduler model counts these slots as lost (`SlotIsolation`).

## Model

| member | source | states |
|---|---|---|
| RadixTree.AttachKeepsTree | src/radix_cache.rs:189-205 | Appending a leaf keeps the arena a radix tree: edges spell node paths, paths are distinct, and every longer key is reachable |
| RadixTree.SplitKeepsTree | src/radix_cache.rs:223-242 | Splitting an edge keeps the arena a radix tree and leaves every existing node's path, handle and tick as they were |
| RadixTree.GrownKeepsEntries | src/radix_cache.rs:189-242 | Growing the arena by handle-free nodes does not change the map it stands for |
| RadixCaches.CommonPrefixLen | src/radix_cache.rs:264-270 | The result is the longest common prefix: equal up to it, different after it |
| RadixCaches.CollectByTick | src/radix_cache.rs:163-172 | The victims are exactly the arena's handles, each once, in order of last access, ties by arena index |
| RadixCaches.RadixCache.Lookup | src/radix_cache.rs:101-140 | Returns the longest stored key that prefixes the query with its handle, and refreshes exactly the stored prefixes of the query |
| RadixCaches.RadixCache.SplitChild | src/radix_cache.rs:223-242 | The new node spells the cut key and no stored key changes |
| RadixCaches.RadixCache.InsertFrom | src/radix_cache.rs:189-221 | Returns a node spelling the parent's key plus the tokens, changing no stored key |
| RadixCaches.RadixCache.Place | src/radix_cache.rs:73-90 | A map update that returns the previous handle; the new entry is the most recently accessed |
| RadixCaches.RadixCache.Insert | src/radix_cache.rs:73-99 | Map update, then coldest-first eviction down to capacity; below tick saturation an entry that fits survives its own insertion |
| RadixCaches.RadixCache.EvictColdest | src/radix_cache.rs:163-187 | Drops entries least recently accessed first and ties by arena index, none warmer than a survivor, stopping as soon as enough is freed; reports their handles; `resident_tokens` stays the total key length |
| RadixEvict.SweepDone | src/radix_cache.rs:163-187 | A prefix of the sorted victims is a coldest-first eviction |
| RadixCaches.RadixCache.EvictToCapacity | src/radix_cache.rs:250-261 | Evicts only when over capacity, coldest first, and ends within it |
| RadixCaches.RadixCache.SetCapacityTokens | src/radix_cache.rs:150-153 | After a capacity change the resident tokens fit |
| RadixWalk.EdgeStep | src/radix_cache.rs:116-134 | One iteration of the lookup walk keeps the best match so far and the set of touched nodes exact |
| RadixWalk.WalkDone | src/radix_cache.rs:101-140 | Where the walk stops no longer stored prefix exists |
| PrefixMap.LookupDeterministic | src/radix_cache.rs:101-140 | The map and the query determine the answer |
| PrefixMap.LookupProtects | src/radix_cache.rs:101-187 | A looked-up prefix is evicted only after every entry that was not looked up with it |
| PrefixMap.EvictionFits | src/radix_cache.rs:250-261 | Dropping the overflow coldest first always lands within capacity |
| PrefixMap.NewestKeySurvives | src/radix_cache.rs:80-92 | The most recently accessed key is never evicted if it fits |
| CacheRuns.Apply | src/radix_cache.rs:73-187 | Every operation of the tree, with everything it returns, is a step of the plain map |
| CacheRuns.Replay | src/radix_cache.rs:57-261 | Every sequence of operations on a fresh cache is a run of the plain map, with the same answers |
| CacheRuns.UnboundedRunKeepsPuts | src/radix_cache.rs:73-140 | Without a capacity the cache holds exactly the latest insertion of every key |
| CacheRuns.RunWithinCapacity | src/radix_cache.rs:150-187 | In every run the stored keys fit whenever a capacity is set |
| GreedyDecoding.FollowsIsGreedy | src/speculative.rs:490-498 | A sequence each of whose tokens is the target's choice is the target's greedy continuation, and conversely |
| GreedyDecoding.FollowsAppend | src/speculative.rs:490-498 | Greedy decoding can be cut anywhere and resumed |
| Speculative.AcceptedLen | src/speculative.rs:490-498 | The length of the draft's longest prefix the target agrees with |
| Speculative.Compare | src/speculative.rs:487-498 | Finds the accepted length and the target's correction |
| Speculative.RoundFollows | src/speculative.rs:473-519 | One round adds only tokens the target wants, at least one for a non-empty draft and at most as many as drafted |
| Speculative.EmitsBeyondIff | src/speculative.rs:473-519 | A round emits more than a limit if and only if the draft is longer and its first tokens up to the limit are the target's own |
| Speculative.SessionInvariant | src/speculative.rs:473-537 | Over any run of rounds: context is prompt plus everything emitted, drafted equals accepted plus rejected, and the window stays in bounds |
| Speculative.CommittedCounts | src/speculative.rs:473-537 | By the number of draft tokens the target agrees with: these are accepted, the others rejected, the correction is pending, and the window grows by one after a clean sweep and shrinks to one past the accepted tokens otherwise |
| Speculative.SpeculativeSession.Commit | src/speculative.rs:473-519 | The whole new session state after a verified draft; a wrong number of verification steps changes nothing |
| Speculative.SpeculativeSession.Draft | src/speculative.rs:400-471 | A successful round extends the context by target tokens; an error is the draft call's, that of a draft too long, the verification call's or that of a wrong number of steps, whichever comes first, and changes only the counters already raised |
| Speculative.SpeculativeSession.TakeRejectedToken | src/speculative.rs:392-394 | Hands out the pending correction once |
| Speculative.Generate | src/speculative.rs:325-361 | The output is everything emitted by the run of rounds the models determine, which ends only at the limit, at an empty draft, or with the error of a call that fails, drafts too much or verifies the wrong number of tokens; its counts are the run's; models that cooperate never fail; and it is a prefix of target-only greedy decoding, all of it if no draft is empty |
| Speculative.RunsAgree | src/speculative.rs:325-361 | Models and prompt determine the run of rounds |
| SpeculativeTrees.AgreedIsGreedy | src/speculative.rs:97-115 | A node is marked valid exactly when its path after the root is the target's own continuation |
| SpeculativeTrees.AgreedPathsComparable | src/speculative.rs:97-129 | Any two valid root paths are prefix-comparable |
| SpeculativeTrees.BestPathIsGreedy | src/speculative.rs:97-129 | The best path plus the next token is root plus target continuation, and no branch that follows the target is longer |
| SpeculativeTrees.RootUnchecked | src/speculative.rs:97-129 | The whole result follows the target if and only if the drafted root is the target's token |
| SpeculativeTrees.SpeculativeTree.AddChild | src/speculative.rs:71-79 | The tree stays well formed if and only if the parent exists; then the new path is the parent's plus the token and no other path changes |
| SpeculativeTrees.SpeculativeTree.GetPath | src/speculative.rs:81-92 | Terminates with the tokens from the root to the node |
| SpeculativeTrees.SpeculativeTree.MarkAgreed | src/speculative.rs:97-112 | The one-pass marking is exact |
| SpeculativeTrees.SpeculativeTree.FindBestPath | src/speculative.rs:97-129 | Returns a longest valid path, the last of equals, and the token expected after it |
| SpeculativeTrees.DefaultVerifyTree | src/speculative.rs:217-242 | Answers follow the leftmost branch, with placeholder 0 elsewhere |
| SpeculativeTrees.DefaultTreeExact | src/speculative.rs:217-242 | On every tree, for every target and any number of answers, the emission follows the target if and only if the recorded tokens on the path were harmless |
| SpeculativeTrees.DefaultTreeSuits | src/speculative.rs:97-242 | The same as a condition on tree, target and number of answers alone: the emission is right if and only if they suit each other |
| SpeculativeTrees.ChainExact | src/speculative.rs:217-242 | On a chain the emission is right if and only if the target is steady over the draft's repetitions of its first choice, a condition on target and draft alone |
| SpeculativeTrees.DraftTree | src/speculative.rs:158-176 | The default draft tree is the chain of the drafted tokens; an empty draft is an error |
| SpeculativeTrees.DefaultTreeRound | src/speculative.rs:97-242 | Default verification followed by the search, with any verifier that is right as far as it answers: what is returned, the exact condition for it to be right, and the guard on the root and the chain condition where it answers in full |
| SpeculativeTrees.DefaultVerifyTreeShifted | src/speculative.rs:217-242 | On every tree, a target whose choice changes with the root token is made to emit a token it would not by any non-empty answer |
| Backend.ArgMax | src/sampling.rs:39-58 | The last position of the largest logit |
| Backend.Sample | src/sampling.rs:39-58 | The greedy sampler's scan finds it |
| Backend.Draft | src/backend.rs:155-179 | Sequential drafting produces the chain of greedy predictions or its first error |
| Backend.ChainIsGreedy | src/backend.rs:155-179 | The drafted tokens are greedy decoding with the draft backend |
| Backend.NextLogitsBatch | src/backend.rs:44-49 | One row per context, or the error of the first context that fails |
| Backend.DraftBatch | src/backend.rs:181-226 | Each request gets exactly what it would get alone, with exactly its own number of predictions; the batch fails exactly when some request would, with the earliest failure by step and position |
| Backend.BatchStep | src/backend.rs:199-222 | One lock-step round extends exactly the unfinished requests by their own next prediction |
| Backend.Verify | src/backend.rs:313-335 | One expected token per row of logits, the greedy one |
| Backend.GreedyTargetFaithful | src/backend.rs:313-335 | Over a backend that scores each position in its own context, the greedy target meets the verification contract |
| BatchDecoding.CommitAll | src/engine.rs:385-398 | Each live request takes its own results and only its own; the error is that of the first wrong number of steps |
| BatchDecoding.AdvancedOnTrack | src/engine.rs:385-398 | A committed draft of any length keeps the request on its greedy track, and passes its limit if and only if the draft is longer than what is left and agrees that far |
| BatchDecoding.AdvancedCounts | src/engine.rs:355-398 | By the number of draft tokens the target agrees with: what a live request gains and how its counts change |
| BatchDecoding.Step | src/engine.rs:323-399 | Returns the draft call's error, else the verification call's, else that of the first wrong number of steps, else every live request advanced by its own draft and nobody else changed; for any drafts every request stays on its own greedy track; every live one advances if the draft offers anything; nobody exceeds the limit if the drafts keep to it |
| BatchDecoding.OwedDrops | src/engine.rs:323-399 | The sum of tokens still owed falls with every productive round |
| BatchDecoding.DecodeAll | src/engine.rs:323-399 | Makes rounds as long as anybody owes tokens, with successive call numbers, and fails only with the error of a round; with models that cooperate it succeeds, and then with at least `max_new_tokens` tokens of each request's own greedy continuation, exactly that many if the drafts keep to their limits |
| BatchDecoding.GreedyBatchModels | src/backend.rs:181-226 | The greedy models meet every demand batch decoding makes of its models |
| BatchDecoding.GreedyModelsCooperate | src/backend.rs:181-335 | Over backends that always answer, the greedy models answer every call with the right number of steps |
| Memory.InMemoryKvStore.Allocate | src/kv_store.rs:55-73 | A fresh handle with a retrievable block; an empty block is refused and changes nothing |
| Memory.InMemoryKvStore.Release | src/kv_store.rs:81-92 | Removes exactly the block of a known handle; any other handle changes nothing |
| Memory.DriveStore | src/kv_store.rs:55-92 | Over any allocations and releases, a handle once issued and gone is never found again |
| Memory.PagesForIsCeiling | src/paged_attention.rs:150-152 | Enough pages for the tokens and not one too many |
| Memory.PagesConserved | src/paged_attention.rs:155-198 | Free and mapped pages partition the pool, so their counts add up to it |
| Memory.AllocateKeepsPartition | src/paged_attention.rs:155-186 | Taking pages keeps the partition if and only if the block id owned no pages |
| Memory.ReleaseKeepsPartition | src/paged_attention.rs:189-198 | Giving pages back keeps the partition |
| Memory.PagedAttentionBlockManager.constructor | src/paged_attention.rs:126-137 | All pages are free, in order |
| Memory.PagedAttentionBlockManager.Allocate | src/paged_attention.rs:155-186 | Pages come off the front of the queue; too few pages is an error that changes nothing |
| Memory.PagedAttentionBlockManager.Release | src/paged_attention.rs:189-198 | The mapping's pages go to the back of the queue; an unknown handle changes nothing |
| Memory.PagedAttentionBlockManager.SpansDisjoint | src/paged_attention.rs:206-211 | The page lists of two sequences share no page with each other or with the free queue |
| Memory.SlotPool.constructor | src/slot_manager.rs:31-43 | All slots are free, in order |
| Memory.SlotPool.Alloc | src/slot_manager.rs:46-48 | First in, first out; none when empty |
| Memory.SlotPool.Release | src/slot_manager.rs:54-62 | The pool stays duplicate-free if and only if the slot was not free |
| Agreement.SameHandles | src/engine.rs:478-494 | Cache, block store and allocator hold the same set of handles |
| Agreement.AgreeInsert | src/engine.rs:478-494 | Storing a new handle and releasing the replaced one keeps the three in agreement |
| Agreement.EvictionOrphans | src/radix_cache.rs:163-187 | Dropping a set of entries from the cache alone keeps the agreement if and only if the set is empty |
| Agreement.PagesMatchKeys | src/paged_attention.rs:150-186 | The mapped pages are exactly what the cached sequences need |
| Agreement.PagesAddUp | src/paged_attention.rs:150-198 | Free pages plus the ceilings of all cached lengths make up the pool |
| Engine.VeloEngine.constructor | src/engine.rs:169-178 | A fresh engine is consistent, with an unbounded cache |
| Engine.VeloEngine.CacheSequence | src/engine.rs:478-494 | Succeeds exactly for a non-empty sequence with enough free pages, even one that is stored already; a map update and eviction down to capacity; pages come off the front of the queue and a replaced entry's go to the back; the three agree afterwards if and only if the stored sequences fit; failure leaves nothing behind |
| Engine.VeloEngine.SetCacheCapacity | src/engine.rs:465-467 | Sets the capacity and evicts down to it; the three agree afterwards if and only if the cache already fitted |
| Engine.VeloEngine.EvictFromCache | src/engine.rs:465-467 | After an eviction the three agree if and only if nothing was asked for or nothing was stored |
| Engine.OrphanedEngine | src/engine.rs:465-494 | An engine that has saved one token and is given capacity zero is inconsistent |
| Engine.OrphanedBySaving | src/engine.rs:465-494 | An engine that fits its capacity of one token and saves another sequence is inconsistent |
| Engine.VeloEngine.Prefill | src/engine.rs:436-459 | Returns the longest stored prefix of the prompt with its handle, pages and length as hits, and saves a prompt that is not stored; never replaces an entry; a non-empty prompt gets its stored entry's page list, which covers it; a full hit allocates nothing |
| Admission.LookupHit | src/engine.rs:436-459 | The lookup matches the whole prompt exactly when the prompt is stored |
| Admission.BatchPrefills | src/engine.rs:246-268 | Each request of a batch finds the longest prefix among the stored sequences and the prompts before its own: with their handles and pages as before the batch, or with what the first request with that prompt saved |
| Engine.VeloEngine.AdmitAll | src/engine.rs:246-312 | Succeeds if and only if there are slots and pages for all and no prompt is empty, each new prompt costing its pages once; each request gets the next free slot, the page list of its prompt's entry, and a prefill over the sequences stored before the batch and the prompts before its own; the first request that does not fit gives the error and keeps the slots taken |
| Engine.VeloEngine.FinishAll | src/engine.rs:401-432 | Succeeds if and only if each finished sequence finds enough free pages in its turn, else fails with the first that does not; each output carries its own tokens, prefill, counts and a handle and pages that are the cache's unless a later request finished the same sequence; every slot is returned, and after a failure those up to it |
| Engine.VeloEngine.GenerateBatch | src/engine.rs:233-432 | Fails as admission does, else with decoding's error, else with the first finished sequence without pages, else returns every request's own greedy continuation, with what its own prompt found, its own counts and its new handle; with models that cooperate and drafts within limits it succeeds exactly when admission and the final saves have the slots and pages they need; on success all slots are back and every sequence is cached, and an error leaves some taken slots lost and no other |
| Engine.VeloEngine.GenerateThenPrefill | src/engine.rs:201-223 | With models that cooperate it succeeds exactly when there is a slot and there are pages for the prompt and again for the finished sequence; after a successful generation, prefilling prompt plus output is a full hit that allocates nothing |
| Scheduling.ServeOk | src/scheduler.rs:298-335 | One served round with any draft, cut off at any moment, streams a greedy continuation, counts it exactly unless the caller is gone, and passes the limit exactly when the draft is too long and right that far |
| Scheduling.LeaveInv | src/scheduler.rs:160-177 | Removing a finished or cancelled request keeps every stream, queue and slot invariant |
| Scheduling.AdmitInv | src/scheduler.rs:219-256 | Admission keeps the invariants whether it succeeds or fails; a failed one loses its slot |
| Scheduling.NextInv | src/scheduler.rs:107-181 | Every step of the worker keeps the invariant |
| Scheduling.NextWithin | src/scheduler.rs:258-337 | A step whose drafts keep to their limits takes nobody past the limit |
| Scheduling.RunSafety | src/scheduler.rs:107-181 | In every reachable state each stream is the caller's own greedy continuation so far and completion is reported only after all that was asked for; never more than that where the drafts keep to their limits |
| Scheduling.SlotIsolation | src/scheduler.rs:129-177 | In every reachable state active slots are distinct and not free; free, active and lost slots make up the pool; a slot is missing only when all are active or lost |
| Workers.Worker.AdmitOne | src/scheduler.rs:219-256 | The admission code is the admission step of the run |
| Workers.Worker.AdmitAll | src/scheduler.rs:129-142 | The loop stops with a full batch or nobody waiting and touches no stream; where admissions succeed nobody is dropped and what is owed stays |
| Workers.Worker.ServeOne | src/scheduler.rs:298-335 | The send loop is the serving step of the run |
| Workers.Worker.DraftLimits | src/scheduler.rs:272-279 | What is left of each request, capped by the window |
| Workers.Worker.Step | src/scheduler.rs:258-337 | Fails with the draft call's error, else the verification call's, serving nobody, else with that of the first wrong number of steps after serving the requests before it, else serves everybody; each one served receives the draft tokens the target agrees with and its correction as far as the sends reach, and is cancelled exactly when they do not; every step, failed or not, is a step of the run |
| Workers.Worker.ServeAll | src/scheduler.rs:297-335 | Requests are served in order, each its own draft, up to the first wrong number of verification steps, which is the error |
| Workers.Worker.Cleanup | src/scheduler.rs:160-177 | Exactly the unfinished requests with a listening caller remain |
| Workers.Worker.Turn | src/scheduler.rs:107-181 | One turn of the loop keeps the invariant; whoever passed the limit has left, so `max_new_tokens - generated_count` never underflows; where nothing fails what is owed falls by at least one unless nothing is owed |
| Workers.Worker.Run | src/scheduler.rs:107-181 | For any number of turns, arrivals, failures and drafts, and hang-ups before a turn, between sends and before the clean-up: exactly the submitted requests are known, each stream is its own greedy continuation, completion means all of it, and exactly all of it if the drafts keep to their limits. Where models cooperate, drafts are productive and bounded, admissions succeed and nobody hangs up, every request is completed with exactly its tokens once as many turns have passed since the last arrival as tokens were asked for, counting one for a request that asks for none |
| Delivery.ServesOneMore | src/scheduler.rs:297-335 | Serving one more request delivers its own draft and leaves what the others received as it was |
| Liveness.AdmitSmooth | src/scheduler.rs:129-142 | Below capacity a successful admission takes the oldest waiting request on board and what is owed stays the same |
| Liveness.StepPays | src/scheduler.rs:258-337 | With models that answer and productive, bounded drafts, a step leaves everybody on board listening and owed less |
| Liveness.CleanSmooth | src/scheduler.rs:160-177 | The clean-up completes whoever has nothing left and forgets nobody else |
| Liveness.NothingOwing | src/scheduler.rs:107-181 | When nothing is owed every submitted request is completed |
| PagedKv.AddrInjective | src/kernels.metal:633-644 | The address of (page, token, head, dim) is in bounds and no two cells share one |
| PagedKv.BindSlot | src/metal/runtime.rs:294-319 | Writes its own row, padded with zeros, and no other; too many pages are refused |
| PagedKv.KvThread | src/kernels.metal:633-644 | A thread writes its own element where the table entry points, or nothing |
| PagedKv.KvUpdate | src/kernels.metal:619-645 | The threads together write one token's vector where the table entry points and nothing else, covered position or not |
| PagedKv.CoveredEntry | src/kernels.metal:470-474 | At a covered position the entry is the slot's own page |
| PagedKv.HomesApart | src/kernels.metal:633-644 | Different positions, or positions of different slots, are disjoint |
| PagedKv.UpdateRefines | src/llama_cpu.rs:44-49 | One paged update is one flat update of its slot and of no other |
| PagedKv.ReplayUpdates | src/kernels.metal:619-645 | Any interleaving of updates reads back as an independent flat array per slot |
| PagedKv.FlatRunIsOwn | src/llama_cpu.rs:44-49 | A slot's flat cache after a run depends on its own updates alone |
| SlotPages.BoundIffOwnSequences | src/engine.rs:254-268 | With partitioned pages, slots have their pages to themselves if and only if no two serve the same sequence |
| SlotPages.AdmitAndBind | src/engine.rs:246-268 | Admitting and binding any batch: binding is never refused, each row holds its prompt's pages, and the slots have their pages to themselves if and only if the prompts are pairwise different |
| SlotPages.SharedPagesClash | src/engine.rs:436-459 | Two slots on one page list: what one writes the other reads |
| SlotPages.AdmitSamePrompt | src/engine.rs:246-268 | Two requests with the same prompt are admitted exactly when it is not empty, two slots are free and its pages, taken once, are there; they hold different slots whose table rows send every prompt position to the same place |
| SlotPages.UncoveredIsPageZero | src/metal/runtime.rs:294-319 | Past the pages a slot was bound to the table names page 0 |
| SlotPages.UncoveredWriteDamages | src/kernels.metal:633-644 | A write there changes what another slot reads if and only if that slot keeps the position on page 0 at the same place and the vectors differ |
| Attention.OnePassIsTwoPass | src/llama_cpu.rs:135-146 | The unnormalised sums at any shift divide to max-shifted softmax followed by the weighted sum |
| Attention.OnePassStep | src/kernels.metal:484-498 | One more token keeps the running maximum, normaliser and accumulator exact |
| Attention.SameHeadIff | src/kernels.metal:456 | Kernel and flat loop read the same KV head for every query head if and only if KV heads divide query heads |
| Attention.DotIsSum | src/llama_cpu.rs:262-270 | A dot product is a sum of products |
| Kernels.FlashHead | src/kernels.metal:440-502 | The one-pass kernel over pages returns two-pass attention, for every number of tokens |
| Kernels.SoftmaxInPlace | src/llama_cpu.rs:135-146 | The in-place loops compute max-shifted softmax |
| Kernels.FlatScores | src/llama_cpu.rs:262-270 | The scores are scaled dot products with the flat keys |
| Kernels.FlatMix | src/llama_cpu.rs:274-283 | The output is the weighted sum of the flat values |
| Kernels.FlatHead | src/llama_cpu.rs:259-284 | The flat attention loop returns two-pass attention |
| Kernels.PagedReadsFlat | src/kernels.metal:470-474 | Where paged memory refines flat memory, kernel and flat loop read the same vectors |
| Kernels.FlashEqualsFlat | src/kernels.metal:440-502 | Each side choosing its own KV head, the kernel over pages and the flat loop over the slot's cache return the same numbers when KV heads divide query heads |
| Quantized.DequantQ40Block | src/quant.rs:50-64 | Writes the block's 32 values and nothing else: each byte gives the number of its low digit in base 16, then that of its high digit, less eight and scaled |
| Quantized.DequantQ40Row | src/quant.rs:67-73 | As many whole blocks as fit, the rest untouched |
| Quantized.CopyF32Row | src/quant.rs:169-173 | As many whole numbers as there are and as fit, the rest untouched |
| Quantized.DequantShard | src/metal/sharding.rs:78-102 | Cutting a row on block boundaries and dequantising is dequantising and cutting |
| Sharding.ShardWeight | src/metal/sharding.rs:28-110 | Copies, takes whole rows, or takes the same stretch of every row; refused exactly when rows or columns do not divide or a block would be cut |
| Sharding.StripeRows | src/metal/sharding.rs:89-98 | The loop collects the rank's stretch of every row |
| Sharding.ColumnShard | src/metal/sharding.rs:44-69 | A column shard dequantises to the rank's band of rows |
| Sharding.RowShard | src/metal/sharding.rs:70-107 | A row shard dequantises to the rank's columns of every row |
| ShardedWeights.FeedForwardPlan | src/metal/sharding.rs:112-126 | In every layer w1 and w3 are split by columns and w2 by rows |
| ShardedWeights.AttentionPlan | src/metal/sharding.rs:112-126 | In every layer the query, key and value projections are split by columns and the attention output by rows; the output weights are split by columns and a norm is not split |
| ShardedWeights.LoadShards | src/metal/tp_model.rs:60-65 | Loading fails exactly when a split is refused, otherwise every device has its shard |
| ShardedWeights.LogitsFromShards | src/metal/tp_model.rs:168-194 | Products of the stored column shards, gathered, are the full product |
| ShardedWeights.MlpFromShards | src/metal/tp_model.rs:241-249 | The devices' feed-forward outputs, computed from stored shards, sum to the unsharded block for any activation |
| TensorParallel.AllReduce | src/metal/tp_model.rs:241-249 | The host loop sums every element over all devices |
| TensorParallel.AllGather | src/metal/tp_model.rs:184-194 | The devices' stretches in order, zeros after the last |
| TensorParallel.GatheredIsFull | src/metal/tp_model.rs:184-194 | Gathered column shards are the full product |
| TensorParallel.ReducedIsFull | src/metal/tp_model.rs:241-249 | Summed row shards are the full product |
| TensorParallel.ShardedMlp | src/metal/model.rs:260-277 | With w1 and w3 column-sharded and w2 row-sharded the partial outputs sum to the whole gated block |
| WireFormat.Delivered | src/nixl.rs:36-61 | For every handle and payload, what a transfer delivers; it is never refused |
| WireFormat.RoundTrip | src/nixl.rs:36-61 | The round trip is exact if and only if both lengths fit 32 bits |
| WireFormat.AcceptedIsEncoded | src/nixl.rs:49-61 | Whatever is accepted re-encodes to the bytes that were read |
| WireFormat.RefusedIff | src/nixl.rs:49-61 | A truncated message is always refused, the whole one never |
| Nixl.DmaBlockManager.constructor | src/nixl.rs:95-107 | All regions are free |
| Nixl.DmaBlockManager.Acquire | src/nixl.rs:110-118 | A region not in use, registering a new one only when none is free |
| Nixl.DmaBlockManager.Release | src/nixl.rs:121-124 | The free list stays duplicate-free if and only if the region was in use |
| Nixl.DmaBlockManager.WriteAndSerialize | src/nixl.rs:129-144 | The payload cut to the region size goes out; the rest of the region is zeroed |
| Nixl.DmaBlockManager.ReceiveInto | src/nixl.rs:147-155 | A parsed payload is written to the region, a malformed one changes nothing |
| Nixl.NodeRegistry.Register | src/nixl.rs:219-233 | A new id with the stated capacity |
| Nixl.NodeRegistry.Heartbeat | src/nixl.rs:236-242 | Updates a known node and ignores an unknown one |
| Nixl.NodeRegistry.BestPeer | src/nixl.rs:257-274 | A least-loaded allowed node other than the sender with enough room, and none only if there is none |
| Nixl.CacheTransferAgent.Ship | src/nixl.rs:390-406 | The regions used are free again, and the wire is the cut payload's encoding |
| Nixl.CacheTransferAgent.Handoff | src/nixl.rs:368-432 | One outcome per block, counters and inboxes exactly as the outcomes say, the region pool full again; with 64-bit ids no failure, one count per block, and one more waiting block per send |
| Nixl.NeverFails | src/nixl.rs:408-412 | The failure branch is never taken: a block is sent exactly when a peer can take it |
| Nixl.HandoffDelivers | src/nixl.rs:368-432 | For blocks with 64-bit ids: no failure, one count per block, and as many more blocks over all inboxes as were sent |
| Nixl.MailLands | src/nixl.rs:414-426 | Every delivered block goes, cut to size, to a best peer for it |
| Nixl.PostedReceived | src/nixl.rs:420-426 | Every inbox grows by exactly what was addressed to it, in order |
| Nixl.EachLandsOnce | src/nixl.rs:414-426 | Over all inboxes as many blocks arrive as were sent |
| Nixl.CacheTransferAgent.DrainInbox | src/nixl.rs:435-442 | Takes everything delivered to this node and leaves the other inboxes alone |
| Disagg.BuildFabric | src/nixl.rs:451-476 | Agents share one registry and inbox table, each with its own full region pool |
| Disagg.DisaggPool.constructor | src/disagg.rs:244-270 | The pool starts idle with zero counters |
| Disagg.DisaggPool.DrainDecode | src/disagg.rs:174-187 | Collects the request's blocks from every decode inbox and empties them |
| Disagg.DisaggPool.RunPrefill | src/disagg.rs:139-190 | Exactly one decode task if some decode node has room, none otherwise: the prompt's id and length, the chosen prefill node, and its payload, whole if it fits a region and cut to the region size otherwise; its bytes and sixteen more are counted; all inboxes are empty again; every routed task is migrated or failed |
| Disagg.DisaggPool.DispatchDecode | src/disagg.rs:194-199 | The j-th dispatch goes to node j modulo the cursor range modulo the node count |
| Disagg.DisaggPool.RunPipeline | src/disagg.rs:204-213 | The prompt's own task with its own payload, as from a prefill, and exactly the migrated blocks are dispatched |
| DisaggRuns.Apply | src/disagg.rs:139-213 | Every call, between any heartbeats, returns and counts what the reported load says and leaves all inboxes empty |
| DisaggRuns.RunCounts | src/disagg.rs:139-213 | Over every run: one count per prompt, migrated or failed; as many tasks yielded as blocks migrated, and sixteen bytes and its payload counted for each; dispatches in turn; pipeline-only runs dispatch exactly the migrated blocks |
| DisaggRuns.Drive | src/disagg.rs:133-270 | The same of the code, for any calls and heartbeats on a fresh pool: each prompt yields its own task with its own payload where a node has room, and each decode node is dispatched to exactly its number of turns, evenly until the cursor wraps |
| DisaggRuns.UnevenRun | src/disagg.rs:194-199 | If the node count does not divide the cursor range, every run one dispatch past the wrap leaves the first node two ahead of the last |
| RoundRobin.EvenBeforeWrap | src/disagg.rs:194-199 | Before the cursor wraps every node is picked its even share of times, so counts differ by at most one; `DisaggRuns.Drive` ties the picks to the nodes returned |
| RoundRobin.EvenForeverIff | src/disagg.rs:194-199 | Counts differ by at most one for ever if and only if the node count divides the cursor's range |

## Left out

- Metal devices, buffers, pipelines and command queues, LoRA, model pools, the FFI and build scripts: foreign calls.
- Grammar constraints and matcher arguments: requests are modelled without a matcher.
- `LlamaCpuModel` and `MetalBackend` as targets: their verification does not score each drafted position in its own context, so the contract is stated on an abstract target.
- Samplers other than greedy, prediction confidence beyond the chosen logit, the tree draft model.
- Floating-point rounding, overflow and NaN: numbers are `real`; utilisation is compared as a real.
- Half-precision and single-precision decoding, which are parameters, and Q4_K, Q8_K and F16 rows: Q4_K stripes are not aligned to its 256-element super-blocks.
- 32-bit wrap-around of the kernels' index arithmetic and of page, slot and node numbers, and 64-bit overflow of counters other than ticks and cursors.
- The layout across layers, the INT8, tree and tiled kernels, rotary embedding and normalisation.
- The tensor-parallel layer as a whole: only the sharded projections, the feed-forward block, the all-reduce sum and the gather are covered.
- PagedKv.KvUpdate: covers one of the two caches with the threads one after the other; the kernel writes keys and values at the same offset.
- Kernels.FlashHead: the accumulator is a value that is replaced, not a fixed 128-element buffer; it asks for a head dimension of at most 128 because the kernel does.
- BatchDecoding.CommitAll: sessions in a batch are values; the session object itself is modelled by `SpeculativeSession`. After an error the source drops the batch with the sessions already committed, and so does the model.
- BatchDecoding.Step: asks for one answer per request; the source looks answers up by position and panics on fewer.
- SpeculativeTrees.SpeculativeTree.FindBestPath: asks for a tree in which every parent exists; on others the walk to the root need not end.
- SpeculativeTrees.ChainExact: asks for one answer per drafted token; shorter answers are covered by `DefaultTreeExact` and `DefaultTreeSuits`.
- Engine.VeloEngine.Prefill: asks for the unbounded cache the engine is built with, as do admission and generation; bounded caches are covered by `CacheSequence`.
- BatchDecoding.DecodeAll: asks the draft for at least one token per request, because otherwise the loop in the source does not terminate.
- Workers.Worker.AdmitOne: whether prefill and binding succeed is a parameter; the engine's own success conditions are in `Engine.VeloEngine.Prefill`.
- Binding slots and prefix caches in the models, which is assumed to succeed in batch generation; hit counters, first-token times and other metrics.
- Tokio channels, locks and clocks: arrivals and hang-ups happen at any moment, and a send fails from some point on.
- Model switching and prefetching in the scheduler.
- The simulated round-trip time and receive timestamps of the transfer fabric.
- GGUF reading, tokenizer, HTTP server, command-line tools, benchmarks and the power governor: input and output or one-line arithmetic.
