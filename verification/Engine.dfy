/** The inference engine: prefix cache, block store, pages and slots behind one interface. */
module Engine {
  import opened Common
  import opened GreedyDecoding
  import opened Speculative
  import opened BatchDecoding
  import opened RadixTree
  import opened PrefixMap
  import opened RadixEvict
  import opened RadixCaches
  import opened CacheRuns
  import opened Memory
  import opened Agreement
  import opened Admission

  class VeloEngine {
    const decoder: Decoder
    const cache: RadixCache
    const store: InMemoryKvStore
    const pages: PagedAttentionBlockManager
    const slots: SlotPool

    /** Each part is sound, the cache is unbounded as `with_runtime` builds it, and cache, store and
        allocator agree on every sequence. */
    ghost predicate Valid()
      reads this, cache, store, pages, slots
    {
      && 1 <= decoder.draftWindow <= decoder.maxWindow
      && cache.Valid() && cache.capacity == None
      && store.Valid() && pages.Valid() && slots.Valid()
      && Agree(cache.Contents(), store.blocks, pages.mappings, pages.blockSize)
    }

    /** `CpuMemoryRuntime::new` and `with_runtime`, for a positive block size and draft window. */
    constructor (decoder: Decoder, bytesPerToken: nat, blockSize: nat, totalPages: nat, maxSlots: nat)
      requires 1 <= decoder.draftWindow <= decoder.maxWindow && blockSize > 0
      ensures Valid() && cache.Contents() == map[] && pages.totalPages == totalPages && slots.maxSlots == maxSlots
      ensures pages.blockSize == blockSize && |pages.freePages| == totalPages
      ensures fresh(cache) && fresh(store) && fresh(pages) && fresh(slots)
    {
      this.decoder := decoder;
      cache := new RadixCache();
      store := new InMemoryKvStore(bytesPerToken);
      pages := new PagedAttentionBlockManager(blockSize, totalPages);
      slots := new SlotPool(maxSlots);
    }

    /** Cache, store and allocator are sound and hold the same sequences, whatever the cache's capacity. */
    ghost predicate InAgreement()
      reads cache, store, pages
    {
      && cache.Valid() && store.Valid() && pages.Valid()
      && Agree(cache.Contents(), store.blocks, pages.mappings, pages.blockSize)
    }

    /** Save a sequence. On success the map gains the key under a fresh handle, a replaced handle is given back
        everywhere, and the cache is brought down to its capacity; on failure nothing is left behind. The three stay
        in agreement exactly when the sequences stored then, this one included, fit the capacity: what the insertion
        evicts leaves its block and pages behind. */
    method CacheSequence(tokens: seq<TokenId>) returns (r: Result<Handle, EngineError>)
      requires InAgreement()
      modifies cache, store, pages
      ensures cache.Valid() && store.Valid() && pages.Valid() && cache.capacity == old(cache.capacity)
      ensures r.Err? ==> InAgreement()
      ensures r.Ok? ==> (InAgreement() <==> !Over(KeyTokens(old(cache.Contents()).Keys + {tokens}), cache.capacity))
      ensures r.Ok? ==> Trimmed(Inserted(old(cache.Contents()), tokens, r.value, cache.clock), cache.capacity, cache.Contents())
      ensures old(Valid()) ==> Valid()
      ensures r.Ok? <==> tokens != [] && PagesFor(|tokens|, pages.blockSize) <= |old(pages.freePages)|
      ensures r.Ok? ==>
        && r.value.tokenLen == |tokens|
        && (cache.capacity == None ==> cache.Contents() == Inserted(old(cache.Contents()), tokens, r.value, cache.clock))
        && r.value.blockId !in old(pages.mappings)
        && SavedPages(old(cache.Contents()), old(pages.mappings), old(pages.freePages), pages.blockSize, tokens, r.value,
                      pages.mappings, pages.freePages)
        && |pages.freePages| + PromptPages(old(cache.Contents()).Keys, tokens, pages.blockSize) == |old(pages.freePages)|
      ensures r.Err? ==>
        && cache.Contents() == old(cache.Contents()) && store.blocks == old(store.blocks)
        && pages.mappings == old(pages.mappings) && pages.freePages == old(pages.freePages)
        && r.error == if tokens == [] then KvStoreError(EmptyBlock)
                      else PagedAttention(OutOfPages(PagesFor(|tokens|, pages.blockSize), |old(pages.freePages)|))
    {
      hide Entries, Distinct, Dense, Edges, WellKept, KeyTokens, Partition, Agree, Inserted, ColdestFirst;
      var blockResult := store.Allocate(|tokens|);
      if blockResult.Err? {
        return Err(KvStoreError(blockResult.error));
      }
      var handle := blockResult.value;
      FreshInMaps(cache.Contents(), old(store.blocks), pages.mappings, pages.blockSize, handle.blockId);
      var pageResult := pages.Allocate(handle, |tokens|);
      if pageResult.Err? {
        var released := store.Release(handle);
        assert store.blocks == old(store.blocks);
        assert released.Ok?;
        return Err(PagedAttention(pageResult.error));
      }
      ghost var m0, m1 := old(store.blocks), old(pages.mappings);
      ghost var block := store.blocks[handle.blockId];
      var inserted, gone := cache.Insert(tokens, handle);
      AgreeInsert(old(cache.Contents()), m0, m1, pages.blockSize, tokens, handle, cache.clock, block, pageResult.value);
      NothingGone(Inserted(old(cache.Contents()), tokens, handle, cache.clock));
      if inserted.replaced.Some? {
        EntryIsBacked(old(cache.Contents()), m0, m1, pages.blockSize, tokens);
        var a := store.Release(inserted.replaced.value);
        var b := pages.Release(inserted.replaced.value);
        assert a.Ok? && b.Ok?;
      } else {
        RemoveNothing(store.blocks);
        RemoveNothing(pages.mappings);
      }
      InsertedKeys(old(cache.Contents()), tokens, handle, cache.clock);
      TrimAgreement(Inserted(old(cache.Contents()), tokens, handle, cache.clock), gone, cache.capacity, store.blocks,
                    pages.mappings, pages.blockSize);
      SavedPagesCount(old(cache.Contents()), m0, m1, old(pages.freePages), pages.blockSize, tokens, handle, pages.mappings, pages.freePages);
      r := Ok(handle);
    }

    /** Read a prompt: a full hit allocates nothing; otherwise the prompt is saved under a new key.
        Either way a non-empty prompt ends up with a page list that covers it. */
    method Prefill(prompt: seq<TokenId>) returns (r: Result<Prefilled, EngineError>)
      requires Valid()
      modifies cache, store, pages
      ensures Valid()
      ensures HandlesKept(old(cache.Contents()), cache.Contents())
      ensures Kept(old(pages.mappings), pages.mappings)
      ensures cache.Contents().Keys == if r.Ok? && prompt != [] then old(cache.Contents()).Keys + {prompt} else old(cache.Contents()).Keys
      ensures r.Ok? ==> |pages.freePages| + PromptPages(old(cache.Contents()).Keys, prompt, pages.blockSize) == |old(pages.freePages)|
      ensures r.Err? ==> r.error == PagedAttention(OutOfPages(PagesFor(|prompt|, pages.blockSize), |old(pages.freePages)|))
      ensures r.Ok? ==>
        && LookupAnswer(old(cache.Contents()), prompt, r.value.cachedPrefix.matchedTokens, r.value.cachedPrefix.handle)
        && r.value.hitTokens == r.value.cachedPrefix.matchedTokens && r.value.hitTokens + r.value.missTokens == |prompt|
        && r.value.cachedPages == SpanOf(old(pages.mappings), r.value.cachedPrefix.handle)
        && PrefilledOver(old(cache.Contents()).Keys, cache.Contents(), pages.mappings, prompt, r.value)
      ensures r.Ok? && prompt != [] ==>
        && ServedBy(cache.Contents(), pages.mappings, prompt, PagesOf(r.value))
        && Covers(PagesOf(r.value).value, |prompt|, pages.blockSize)
      ensures prompt in old(cache.Contents()) || prompt == [] ==>
        && r.Ok? && r.value.insertedHandle == None
        && store.blocks == old(store.blocks) && store.nextBlockId == old(store.nextBlockId)
        && pages.mappings == old(pages.mappings) && pages.freePages == old(pages.freePages)
      ensures prompt in old(cache.Contents()) ==> r.value.missTokens == 0
      ensures prompt != [] && prompt !in old(cache.Contents()) ==>
        && (r.Ok? <==> PagesFor(|prompt|, pages.blockSize) <= |old(pages.freePages)|)
        && (r.Ok? ==> r.value.insertedHandle.Some? && r.value.missTokens > 0)
      ensures prompt == [] ==> PagesOf(r.value) == None
    {
      hide Entries, Distinct, Dense, Edges, WellKept, KeyTokens, Partition, Agree, ColdestFirst, Trimmed, LookupAnswer, PagesFor,
           Inserted, SavedPages, PrefilledOver;
      ghost var m0 := cache.Contents();
      var cached := cache.Lookup(prompt);
      ghost var m1 := cache.Contents();
      AgreeSameHandles(m0, m1, store.blocks, pages.mappings, pages.blockSize);
      LookupHit(m0, prompt, cached.matchedTokens, cached.handle);
      NoEmptyKey(m0, store.blocks, pages.mappings, pages.blockSize);
      var inserted: Option<Handle> := None;
      if prompt != [] && cached.matchedTokens < |prompt| {
        var saved := CacheSequence(prompt);
        if saved.Err? {
          return Err(saved.error);
        }
        inserted := Some(saved.value);
        SavedInCache(m1, old(pages.mappings), old(pages.freePages), pages.blockSize, prompt, saved.value, cache.clock, cache.Contents(),
                     pages.mappings, pages.freePages);
      }
      var cachedPages := if cached.handle.Some? then pages.MaterializeSpan(cached.handle.value) else None;
      var insertedPages := if inserted.Some? then pages.MaterializeSpan(inserted.value) else None;
      if prompt in cache.Contents() {
        SpanCovers(cache.Contents(), store.blocks, pages.mappings, pages.blockSize, prompt);
      }
      r := Ok(Prefilled(cached, cachedPages, inserted, insertedPages, cached.matchedTokens, |prompt| - cached.matchedTokens));
      PrefillAnswer(m0, old(store.blocks), old(pages.mappings), pages.blockSize, prompt, r.value, cache.Contents(), pages.mappings);
    }

    /** Give each request a slot and a prefilled prompt. It succeeds exactly when there are slots and pages for all and
        no prompt is empty. A failure keeps the slots taken so far: they are not returned to the pool. */
    method AdmitAll(requests: seq<BatchRequest>) returns (r: Result<seq<Admitted>, EngineError>)
      requires Valid()
      modifies cache, store, pages, slots
      ensures Valid()
      ensures HandlesKept(old(cache.Contents()), cache.Contents()) && Kept(old(pages.mappings), pages.mappings)
      ensures r.Ok? <==> Admissible(old(cache.Contents()).Keys, Prompts(requests), pages.blockSize, |old(slots.freeSlots)|, |old(pages.freePages)|, |requests|)
      ensures r.Ok? ==>
        && |r.value| == |requests| <= |old(slots.freeSlots)|
        && slots.freeSlots == old(slots.freeSlots)[|requests|..]
        && cache.Contents().Keys == KeysAfter(old(cache.Contents()).Keys, Prompts(requests), |requests|)
        && |pages.freePages| + Cost(old(cache.Contents()).Keys, Prompts(requests), pages.blockSize, |requests|) == |old(pages.freePages)|
        && AdmittedSoFar(old(cache.Contents()).Keys, Prompts(requests), old(slots.freeSlots), cache.Contents(), pages.mappings, r.value)
      ensures r.Err? ==> exists k: nat ::
        AdmitStops(old(cache.Contents()).Keys, Prompts(requests), pages.blockSize, old(slots.freeSlots), slots.freeSlots, |old(pages.freePages)|, k, r.error)
    {
      hide Entries, Distinct, Dense, Edges, WellKept, KeyTokens, Partition, Agree, Cost, KeysAfter, PromptPages, PrefilledOver, ServedBy, LookupAnswer,
           AdmittedSoFar, HandlesKept, Kept;
      ghost var keys, free, room, bs := cache.Contents().Keys, slots.freeSlots, |pages.freePages|, pages.blockSize;
      ghost var prompts := Prompts(requests);
      var admitted: seq<Admitted> := [];
      CostStart(keys, prompts, bs);
      NobodyAdmitted(keys, prompts, free, cache.Contents(), pages.mappings);
      for i := 0 to |requests|
        invariant Valid()
        invariant HandlesKept(old(cache.Contents()), cache.Contents()) && Kept(old(pages.mappings), pages.mappings)
        invariant |admitted| == i <= |free|
        invariant slots.freeSlots == free[i..]
        invariant cache.Contents().Keys == KeysAfter(keys, prompts, i)
        invariant |pages.freePages| + Cost(keys, prompts, bs, i) == room
        invariant Admissible(keys, prompts, bs, |free|, room, i)
        invariant AdmittedSoFar(keys, prompts, free, cache.Contents(), pages.mappings, admitted)
      {
        CostNext(keys, prompts, bs, i);
        var slot := slots.Alloc();
        if slot == None {
          FailureIsFinal(keys, prompts, bs, |free|, room, i, NoFreeSlots);
          assert AdmitStops(keys, prompts, bs, free, slots.freeSlots, room, i, NoFreeSlots);
          return Err(NoFreeSlots);
        }
        assert slots.freeSlots == free[i + 1..];
        ghost var m, maps := cache.Contents(), pages.mappings;
        var prefilled := Prefill(requests[i].prompt);
        StillKept(old(cache.Contents()), old(pages.mappings), m, maps, cache.Contents(), pages.mappings);
        if prefilled.Err? {
          FailureIsFinal(keys, prompts, bs, |free|, room, i, prefilled.error);
          assert AdmitStops(keys, prompts, bs, free, slots.freeSlots, room, i, prefilled.error);
          return Err(prefilled.error);
        }
        if requests[i].prompt != [] {
          ServedSome(cache.Contents(), pages.mappings, requests[i].prompt, PagesOf(prefilled.value));
        }
        if PagesOf(prefilled.value) == None {
          FailureIsFinal(keys, prompts, bs, |free|, room, i, NoPagesForPrefill);
          assert AdmitStops(keys, prompts, bs, free, slots.freeSlots, room, i, NoPagesForPrefill);
          return Err(NoPagesForPrefill);
        }
        OneMoreAdmitted(keys, prompts, free, m, maps, admitted, Admitted(slot.value, prefilled.value), cache.Contents(), pages.mappings);
        admitted := admitted + [Admitted(slot.value, prefilled.value)];
      }
      r := Ok(admitted);
    }

    /** Release each slot and save each finished sequence for the next request that starts with it. It succeeds exactly
        when there are pages for each sequence in its turn. */
    method FinishAll(requests: seq<BatchRequest>, admitted: seq<Admitted>, done: seq<Active>)
        returns (r: Result<seq<EngineOutput>, EngineError>)
      requires Valid() && |admitted| == |done| == |requests|
      requires forall i :: 0 <= i < |done| ==> done[i].session.prompt == requests[i].prompt != []
      requires Distinct(slots.freeSlots + SlotsOf(admitted)) && forall i :: 0 <= i < |admitted| ==> admitted[i].slot < slots.maxSlots
      modifies cache, store, pages, slots
      ensures Valid()
      ensures old(cache.Contents()).Keys <= cache.Contents().Keys
      ensures r.Ok? <==> FinishFits(old(cache.Contents()).Keys, Fulls(done), pages.blockSize, |old(pages.freePages)|, |requests|)
      ensures r.Ok? ==>
        && |r.value| == |requests|
        && slots.freeSlots == old(slots.freeSlots) + SlotsOf(admitted)
        && cache.Contents().Keys == KeysAfter(old(cache.Contents()).Keys, Fulls(done), |requests|)
        && FinishedSoFar(cache.Contents(), pages.mappings, pages.blockSize, admitted, done, r.value)
      ensures r.Err? ==> exists n: nat ::
        && n < |requests| && slots.freeSlots == old(slots.freeSlots) + SlotsOf(admitted)[..n + 1]
        && FinishStops(old(cache.Contents()).Keys, Fulls(done), pages.blockSize, |old(pages.freePages)|, n, r.error)
    {
      hide Entries, Distinct, Dense, Edges, WellKept, KeyTokens, Partition, Agree, Cost, KeysAfter, PromptPages, Inserted, SavedPages, FinishedSoFar, SpanOf;
      var outputs: seq<EngineOutput> := [];
      ghost var all := slots.freeSlots + SlotsOf(admitted);
      ghost var keys, room, bs, fulls := cache.Contents().Keys, |pages.freePages|, pages.blockSize, Fulls(done);
      CostStart(keys, fulls, bs);
      NothingFinished(cache.Contents(), pages.mappings, bs, admitted, done);
      for i := 0 to |requests|
        invariant Valid()
        invariant |outputs| == i && slots.freeSlots == all[..|old(slots.freeSlots)| + i]
        invariant cache.Contents().Keys == KeysAfter(keys, fulls, i)
        invariant |pages.freePages| + Cost(keys, fulls, bs, i) == room
        invariant FinishFits(keys, fulls, bs, room, i)
        invariant FinishedSoFar(cache.Contents(), pages.mappings, bs, admitted, done, outputs)
      {
        KeysGrow(keys, fulls, i);
        CostNext(keys, fulls, bs, i);
        assert all[|old(slots.freeSlots)| + i] == admitted[i].slot;
        DistinctAt(all, |old(slots.freeSlots)| + i);
        slots.Release(admitted[i].slot);
        assert slots.freeSlots == old(slots.freeSlots) + SlotsOf(admitted)[..i + 1];
        var full := done[i].session.prompt + done[i].generated;
        ghost var m, blocks, maps, frees := cache.Contents(), store.blocks, pages.mappings, pages.freePages;
        var saved := CacheSequence(full);
        if saved.Err? {
          assert FinishStops(keys, fulls, bs, room, i, saved.error);
          return Err(saved.error);
        }
        var output := EngineOutput(done[i].generated, Some(saved.value), pages.MaterializeSpan(saved.value), admitted[i].prefill, done[i].session.stats);
        SpanIsOf(pages.mappings, saved.value, output.insertedPages);
        OneMoreFinished(m, blocks, maps, frees, bs, admitted, done, outputs, output, saved.value, cache.clock, cache.Contents(),
                        pages.mappings, pages.freePages);
        outputs := outputs + [output];
      }
      KeysGrow(keys, fulls, |requests|);
      assert all[..|all|] == all;
      r := Ok(outputs);
    }

    /** Batch generation. On success every request has received its own greedy continuation, at least as many tokens as
        it asked for and exactly that many if the drafts keep to their limits; every slot is back in the pool, and
        every finished sequence is cached. */
    method GenerateBatch(requests: seq<BatchRequest>, draft: DraftBatchFn, verify: VerifyBatchFn, ghost T: Target)
        returns (r: Result<seq<EngineOutput>, EngineError>)
      requires Valid()
      requires OnePerRequest(draft) && Productive(draft) && FaithfulBatch(T, verify)
      modifies cache, store, pages, slots
      ensures Valid()
      ensures old(cache.Contents()).Keys <= cache.Contents().Keys
      ensures r.Ok? ==>
        && |r.value| == |requests| <= |old(slots.freeSlots)|
        && slots.freeSlots == old(slots.freeSlots)[|requests|..] + old(slots.freeSlots)[..|requests|]
        && forall i :: 0 <= i < |requests| ==>
          && |r.value[i].tokens| >= requests[i].maxNew
          && r.value[i].tokens == Greedy(T, requests[i].prompt, |r.value[i].tokens|)
          && (Bounded(draft) ==> |r.value[i].tokens| == requests[i].maxNew)
          && requests[i].prompt + r.value[i].tokens in cache.Contents()
      ensures var keys, prompts, n := old(cache.Contents()).Keys, Prompts(requests), |requests|;
              var bs, room := pages.blockSize, |old(pages.freePages)|;
              && (if Admissible(keys, prompts, bs, |old(slots.freeSlots)|, room, n)
                  then BatchDecodes(decoder, draft, verify, old(cache.Contents()), old(pages.mappings), bs, room, requests,
                                    cache.Contents(), pages.mappings, r)
                  else r.Err? && exists k: nat :: AdmitFails(keys, prompts, bs, |old(slots.freeSlots)|, room, k, r.error))
              && (CooperateBatch(draft, verify) && Bounded(draft) ==>
                    (r.Ok? <==>
                      && Admissible(keys, prompts, bs, |old(slots.freeSlots)|, room, n)
                      && FinishFits(KeysAfter(keys, prompts, n), GreedyFulls(T, requests), bs, room - Cost(keys, prompts, bs, n), n)))
      ensures r.Err? ==> exists taken: nat, back: nat :: Leaked(old(slots.freeSlots), slots.freeSlots, taken, back) && taken <= |requests|
    {
      hide Entries, Distinct, Dense, Edges, WellKept, KeyTokens, Partition, Agree, Cost, ServedBy, Greedy, Bounded, Productive,
           OnePerRequest, FaithfulBatch, HandlesKept, Kept, KeysAfter, AdmittedSoFar, FinishedSoFar, FinishFits, FinishStops, DecodeAnswer,
           CooperateBatch, BatchFinishes, BatchPrefilled, OutputOf, InCache, AllWithin, AllOnTrack;
      ghost var free, keys, room, bs, n := slots.freeSlots, cache.Contents().Keys, |pages.freePages|, pages.blockSize, |requests|;
      ghost var m0, blocks0, maps0, prompts := cache.Contents(), store.blocks, pages.mappings, Prompts(requests);
      var admitted := AdmitAll(requests);
      KeptKeys(m0, cache.Contents());
      if admitted.Err? {
        ghost var k: nat :| AdmitStops(keys, prompts, bs, free, slots.freeSlots, room, k, admitted.error);
        assert Leaked(free, slots.freeSlots, Min(k + 1, |free|), 0);
        return Err(admitted.error);
      }
      ghost var m1, maps1 := cache.Contents(), pages.mappings;
      var sessions := StartAll(requests, decoder, T);
      var done := DecodeAll(sessions, decoder.draftWindow, draft, verify, T);
      if done.Err? {
        assert Leaked(free, slots.freeSlots, n, 0);
        FailedBatch(m0, maps0, bs, room, requests, done.error, cache.Contents(), pages.mappings);
        return Err(SpeculativeError(done.error));
      }
      AdmittedSlots(keys, prompts, free, m1, maps1, admitted.value);
      RotateDistinct(free, n);
      r := FinishAll(requests, admitted.value, done.value);
      if r.Err? {
        ghost var k: nat :| k < n && slots.freeSlots == free[n..] + SlotsOf(admitted.value)[..k + 1];
        assert Leaked(free, slots.freeSlots, n, k + 1);
      } else {
        EachFinished(cache.Contents(), pages.mappings, bs, admitted.value, done.value, r.value);
        AdmittedPrefills(m0, blocks0, maps0, bs, prompts, free, admitted.value, Prefills(r.value), m1, maps1);
      }
      FinishedBatch(m0, maps0, bs, room, requests, admitted.value, done.value, cache.Contents(), pages.mappings, r);
      if Bounded(draft) {
        DoneFulls(T, requests, done.value);
      }
    }

    /** Setting a capacity through `cache_mut` keeps the agreement exactly when the cache already fits in it: what is
        evicted leaves its block and pages behind. */
    method SetCacheCapacity(cap: Option<nat>)
      requires InAgreement()
      modifies cache
      ensures cache.Valid() && cache.capacity == cap
      ensures Trimmed(old(cache.Contents()), cap, cache.Contents())
      ensures InAgreement() <==> !Over(old(cache.resident), cap)
    {
      hide Entries, Distinct, Dense, Edges, WellKept, Partition, Agree;
      ghost var m0 := cache.Contents();
      ghost var gone := cache.SetCapacityTokens(cap);
      TrimAgreement(m0, gone, cap, store.blocks, pages.mappings, pages.blockSize);
    }

    /** Evicting through `cache_mut` keeps the agreement exactly when nothing is asked for or nothing is stored. */
    method EvictFromCache(need: nat) returns (evicted: seq<Handle>)
      requires InAgreement()
      modifies cache
      ensures cache.Valid() && cache.capacity == old(cache.capacity)
      ensures InAgreement() <==> need == 0 || old(cache.Contents()) == map[]
    {
      hide Entries, Distinct, Dense, Edges, WellKept, Partition, Agree, Listing, KeysOf;
      ghost var m0 := cache.Contents();
      ghost var gone;
      evicted, gone := cache.EvictColdest(need);
      DropsSomething(m0, gone, need);
      EvictionOrphans(m0, store.blocks, pages.mappings, pages.blockSize, SetOf(gone));
    }

    /** One request, then the same conversation again: the second prefill is a full hit that allocates
        nothing. */
    method GenerateThenPrefill(request: BatchRequest, draft: DraftBatchFn, verify: VerifyBatchFn, ghost T: Target)
        returns (r: Result<EngineOutput, EngineError>, again: Option<Prefilled>)
      requires Valid()
      requires OnePerRequest(draft) && Productive(draft) && FaithfulBatch(T, verify)
      modifies cache, store, pages, slots
      ensures Valid()
      ensures CooperateBatch(draft, verify) && Bounded(draft) ==>
        (r.Ok? <==>
          && request.prompt != [] && old(slots.freeSlots) != []
          && PromptPages(old(cache.Contents()).Keys, request.prompt, pages.blockSize)
             + PagesFor(|request.prompt| + request.maxNew, pages.blockSize) <= |old(pages.freePages)|)
      ensures r.Ok? ==>
        && |r.value.tokens| >= request.maxNew && r.value.tokens == Greedy(T, request.prompt, |r.value.tokens|)
        && (Bounded(draft) ==> |r.value.tokens| == request.maxNew)
        && again.Some? && again.value.missTokens == 0 && again.value.insertedHandle == None
        && again.value.hitTokens == |request.prompt| + |r.value.tokens|
    {
      hide Entries, Distinct, Dense, Edges, WellKept, KeyTokens, Partition, Agree, Admissible, FinishFits, CooperateBatch, Bounded, Productive,
           OnePerRequest, FaithfulBatch, BatchDecodes, PromptPages, PagesFor, Leaked, AdmitFails, PrefilledOver, Greedy;
      OneRequestFits(T, cache.Contents().Keys, request, pages.blockSize, |slots.freeSlots|, |pages.freePages|);
      var outputs := GenerateBatch([request], draft, verify, T);
      if outputs.Err? {
        return Err(outputs.error), None;
      }
      var output := outputs.value[0];
      assert [request][0] == request;
      ghost var blocks, maps, free := store.blocks, pages.mappings, pages.freePages;
      var prefilled := Prefill(request.prompt + output.tokens);
      assert store.blocks == blocks && pages.mappings == maps && pages.freePages == free;
      r, again := Ok(output), Some(prefilled.value);
    }
  }

  /** An engine that has saved one token and is then given a capacity of zero: its cache is empty, its store is not. */
  method OrphanedEngine(decoder: Decoder, token: TokenId) returns (e: VeloEngine)
    requires 1 <= decoder.draftWindow <= decoder.maxWindow
    ensures fresh(e) && !e.InAgreement()
  {
    hide Entries, Distinct, Dense, Edges, WellKept, Partition, Agree, KeyTokens, PagedAttentionBlockManager.Valid;
    e := new VeloEngine(decoder, 1, 1, 1, 0);
    OnePage();
    var saved := e.CacheSequence([token]);
    assert [token] in e.cache.Contents().Keys;
    KeyTokensRemove(e.cache.Contents().Keys, [token]);
    e.SetCacheCapacity(Some(0));
  }

  /** An engine that fits its capacity of one token, saves a second sequence, and evicts the first one's entry alone. */
  method OrphanedBySaving(decoder: Decoder, a: TokenId, b: TokenId) returns (e: VeloEngine)
    requires 1 <= decoder.draftWindow <= decoder.maxWindow && a != b
    ensures fresh(e) && !e.InAgreement()
  {
    hide Entries, Distinct, Dense, Edges, WellKept, Partition, Agree, KeyTokens, PagedAttentionBlockManager.Valid, ColdestFirst;
    e := new VeloEngine(decoder, 1, 1, 2, 0);
    OnePage();
    var first := e.CacheSequence([a]);
    assert e.cache.Contents().Keys == {[a]};
    OneToken(a);
    e.SetCacheCapacity(Some(1));
    assert e.InAgreement();
    TwoTokens(a, b);
    var second := e.CacheSequence([b]);
  }

  lemma OneToken(a: TokenId)
    ensures KeyTokens({[a]}) == 1
  {
    KeyTokensRemove({[a]}, [a]);
    assert {[a]} - {[a]} == {};
  }

  lemma TwoTokens(a: TokenId, b: TokenId)
    requires a != b
    ensures KeyTokens({[a]} + {[b]}) == 2
  {
    KeyTokensRemove({[a]} + {[b]}, [b]);
    assert {[a]} + {[b]} - {[b]} == {[a]};
    OneToken(a);
  }

  lemma InsertedKeys(m: map<Key, Entry>, key: Key, h: Handle, tick: nat)
    ensures Inserted(m, key, h, tick).Keys == m.Keys + {key}
  {}

  /** Bringing an agreed cache down to its capacity keeps the agreement exactly when it fits already. */
  lemma TrimAgreement(m: map<Key, Entry>, gone: seq<Key>, cap: Option<nat>, blocks: map<nat, KvBlock>, maps: map<nat, BlockMapping>, bs: nat)
    requires Agree(m, blocks, maps, bs)
    requires if Over(KeyTokens(m.Keys), cap) then ColdestFirst(m, gone, KeyTokens(m.Keys) - cap.value) else gone == []
    ensures Trimmed(m, cap, m - SetOf(gone))
    ensures Agree(m - SetOf(gone), blocks, maps, bs) <==> !Over(KeyTokens(m.Keys), cap)
  {
    hide Agree, ColdestFirst, KeyTokens;
    if Over(KeyTokens(m.Keys), cap) {
      DropsSomething(m, gone, KeyTokens(m.Keys) - cap.value);
      EvictionOrphans(m, blocks, maps, bs, SetOf(gone));
    } else {
      NothingGone(m);
    }
  }

  lemma OnePage()
    ensures PagesFor(1, 1) == 1
  {}

  /** `taken` slots were taken off the front of the queue and the first `back` of them put back: the others are lost. */
  ghost predicate Leaked(before: seq<nat>, after: seq<nat>, taken: nat, back: nat) {
    back <= taken <= |before| && after == before[taken..] + before[..back]
  }

  lemma DistinctAt(s: seq<nat>, k: nat)
    requires Distinct(s) && k < |s|
    ensures s[k] !in s[..k]
  {}

  lemma RotateDistinct(s: seq<nat>, n: nat)
    requires Distinct(s) && n <= |s|
    ensures Distinct(s[n..] + s[..n])
  {}

  /** Begin a session for every request. */
  method StartAll(requests: seq<BatchRequest>, decoder: Decoder, ghost T: Target) returns (active: seq<Active>)
    ensures active == Started(decoder, requests) && AllOnTrack(T, active) && AllWithin(active)
  {
    active := Started(decoder, requests);
    forall i | 0 <= i < |active| ensures OnTrack(T, active[i]) {
      assert requests[i].prompt + [] == requests[i].prompt;
    }
  }
}
