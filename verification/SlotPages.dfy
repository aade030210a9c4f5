/** Slots bound to the allocator's page lists: when their caches are independent, and when they are not. */
module SlotPages {
  import opened Common
  import opened Arithmetic
  import opened Memory
  import opened RadixTree
  import opened PrefixMap
  import opened Agreement
  import opened Admission
  import opened Engine
  import opened PagedKv

  /** The pages of a slot that serves sequence `id`, or nothing. */
  ghost function PagesServed(maps: map<nat, BlockMapping>, id: Option<nat>): seq<nat> {
    if id.Some? && id.value in maps then maps[id.value].pages else []
  }

  /** Slot `s` is bound to the pages of the sequence `ids[s]`, if it serves one. */
  ghost predicate BoundTo(g: Layout, table: seq<nat>, maps: map<nat, BlockMapping>, ids: seq<Option<nat>>, rows: seq<seq<nat>>) {
    && |rows| == |ids| == g.slots
    && (forall s :: 0 <= s < |rows| ==> rows[s] == PagesServed(maps, ids[s]) && RowHolds(g, table, s, rows[s]))
  }

  /** No two slots serve the same sequence, unless it has no pages. */
  ghost predicate OwnSequences(maps: map<nat, BlockMapping>, ids: seq<Option<nat>>) {
    forall s, s' :: 0 <= s < s' < |ids| && ids[s] == ids[s'] ==> PagesServed(maps, ids[s]) == []
  }

  /** With the allocator's pages partitioned, slots have their pages to themselves exactly when no two of them
      serve the same sequence. */
  lemma BoundIffOwnSequences(g: Layout, table: seq<nat>, free: seq<nat>, maps: map<nat, BlockMapping>,
                             ids: seq<Option<nat>>, rows: seq<seq<nat>>)
    requires Partition(free, maps, g.totalPages) && BoundTo(g, table, maps, ids, rows)
    ensures Bound(g, table, rows) <==> OwnSequences(maps, ids)
  {
    hide RowHolds;
    if OwnSequences(maps, ids) {
      forall s: nat, i: nat | s < |rows| && i < |rows[s]| ensures rows[s][i] < g.totalPages {
        assert Owns(maps, ids[s].value, rows[s][i]);
      }
      forall s: nat, i: nat, s': nat, i': nat |
        s < |rows| && i < |rows[s]| && s' < |rows| && i' < |rows[s']| && rows[s][i] == rows[s'][i']
        ensures s == s' && i == i'
      {
        OnePlace(free, maps, g.totalPages, ids, rows, s, i, s', i');
      }
    } else {
      var s, s' :| 0 <= s < s' < |ids| && ids[s] == ids[s'] && PagesServed(maps, ids[s]) != [];
      assert rows[s][0] == rows[s'][0];
    }
  }

  lemma OnePlace(free: seq<nat>, maps: map<nat, BlockMapping>, total: nat, ids: seq<Option<nat>>, rows: seq<seq<nat>>,
                 s: nat, i: nat, s': nat, i': nat)
    requires Partition(free, maps, total) && OwnSequences(maps, ids) && |rows| == |ids|
    requires forall s :: 0 <= s < |ids| ==> rows[s] == PagesServed(maps, ids[s])
    requires s < |rows| && i < |rows[s]| && s' < |rows| && i' < |rows[s']| && rows[s][i] == rows[s'][i']
    ensures s == s' && i == i'
  {
    assert Owns(maps, ids[s].value, rows[s][i]) && Owns(maps, ids[s'].value, rows[s'][i']);
    assert ids[s] == ids[s'];
    assert s == s';
    assert Distinct(rows[s]);
  }

  /** Two slots on one page list: what one writes, the other reads. */
  lemma SharedPagesClash(g: Layout, cache: seq<real>, rows: seq<seq<nat>>, s: nat, s': nat, pos: nat, vec: seq<real>)
    requires LayoutOk(g) && s < |rows| && s' < |rows| && rows[s] == rows[s'] && Covered(g, rows, s, pos)
    requires |vec| == Stride(g) && Home(g, rows, s, pos) + |vec| <= |cache|
    ensures Covered(g, rows, s', pos) && Home(g, rows, s', pos) == Home(g, rows, s, pos)
    ensures Patched(cache, Home(g, rows, s, pos), vec)[Home(g, rows, s', pos)..Home(g, rows, s', pos) + Stride(g)] == vec
  {
    hide Stride, TokenAddr;
    PatchedReads(cache, Home(g, rows, s, pos), vec, Home(g, rows, s, pos), |vec|);
  }

  /** Two rows that begin with the same pages send a position on those pages to the same place. */
  lemma SharedEntries(g: Layout, table: seq<nat>, pages: seq<nat>, s: nat, s': nat, pos: nat)
    requires LayoutOk(g) && RowHolds(g, table, s, pages) && RowHolds(g, table, s', pages)
    requires PageIdx(g, pos) < |pages| && forall i :: 0 <= i < |pages| ==> pages[i] < g.totalPages
    ensures HasEntry(g, table, s, pos) && HasEntry(g, table, s', pos)
    ensures EntryAddr(g, table, s, pos) == EntryAddr(g, table, s', pos)
  {
    hide TokenAddr, TokIdx, PageIdx, Stride, PoolLen;
    EntryIs(g, table, pages, s, PageIdx(g, pos));
    EntryIs(g, table, pages, s', PageIdx(g, pos));
  }

  lemma EntryIs(g: Layout, table: seq<nat>, pages: seq<nat>, s: nat, i: nat)
    requires RowHolds(g, table, s, pages) && i < |pages|
    ensures RowBase(g, s) + i < |table| && table[RowBase(g, s) + i] == pages[i]
  {
    RowIsSlice(g, table, s, RowBase(g, s));
    hide RowBase, TableLen, RowOf;
    assert RowOf(g, table, s)[..|pages|][i] == pages[i];
  }

  lemma CoveredIdx(g: Layout, pages: seq<nat>, n: nat, pos: nat)
    requires LayoutOk(g) && Covers(pages, n, g.blockSize) && pos < n
    ensures PageIdx(g, pos) < |pages|
  {
    var q := pos / g.blockSize;
    DivMod(pos, g.blockSize);
    if q >= |pages| {
      MulAtMost(|pages|, q, g.blockSize);
    }
  }

  lemma PagesInPool(free: seq<nat>, maps: map<nat, BlockMapping>, total: nat, id: nat)
    requires Partition(free, maps, total) && id in maps
    ensures forall i :: 0 <= i < |maps[id].pages| ==> maps[id].pages[i] < total
  {
    forall i | 0 <= i < |maps[id].pages| ensures maps[id].pages[i] < total {
      assert Owns(maps, id, maps[id].pages[i]);
    }
  }

  lemma PagesAreFew(free: seq<nat>, maps: map<nat, BlockMapping>, total: nat, id: nat)
    requires Partition(free, maps, total) && id in maps
    ensures |maps[id].pages| <= total
  {
    var pages := maps[id].pages;
    PagesInPool(free, maps, total, id);
    DistinctCount(pages);
    assert SetOf(pages) <= Upto(total);
    SubsetSize(SetOf(pages), Upto(total));
  }

  lemma {:induction false} SubsetSize(a: set<nat>, b: set<nat>)
    requires a <= b
    ensures |a| <= |b|
  {
    if a != {} {
      var x :| x in a;
      SubsetSize(a - {x}, b - {x});
    }
  }

  /** The block ids the batch's slots serve: those of the first `n` requests' prompts, nothing elsewhere. */
  ghost predicate ServedIds(m: map<Key, Entry>, requests: seq<BatchRequest>, slots: seq<nat>, ids: seq<Option<nat>>, n: nat)
    requires |slots| == |requests| && n <= |requests|
  {
    && (forall i: nat :: i < n ==> slots[i] < |ids| && requests[i].prompt in m && ids[slots[i]] == Some(m[requests[i].prompt].handle.blockId))
    && (forall s: nat :: s < |ids| && s !in slots[..n] ==> ids[s] == None)
  }

  ghost predicate PromptsDiffer(requests: seq<BatchRequest>) {
    forall i, j :: 0 <= i < j < |requests| ==> requests[i].prompt != requests[j].prompt
  }

  lemma ServedNext(m: map<Key, Entry>, requests: seq<BatchRequest>, slots: seq<nat>, ids: seq<Option<nat>>, n: nat)
    requires |slots| == |requests| && n < |requests| && ServedIds(m, requests, slots, ids, n) && Distinct(slots)
    requires slots[n] < |ids| && requests[n].prompt in m
    ensures ServedIds(m, requests, slots, ids[slots[n] := Some(m[requests[n].prompt].handle.blockId)], n + 1)
  {
    var ids' := ids[slots[n] := Some(m[requests[n].prompt].handle.blockId)];
    assert slots[..n + 1] == slots[..n] + [slots[n]];
    forall i: nat | i < n + 1 ensures ids'[slots[i]] == Some(m[requests[i].prompt].handle.blockId) {
      assert i < n ==> slots[i] != slots[n];
    }
  }

  /** Slots serve their own sequences exactly when the prompts differ. */
  lemma OwnIffPromptsDiffer(m: map<Key, Entry>, blocks: map<nat, KvBlock>, maps: map<nat, BlockMapping>, bs: nat,
                            requests: seq<BatchRequest>, slots: seq<nat>, ids: seq<Option<nat>>)
    requires Agree(m, blocks, maps, bs) && |slots| == |requests| && ServedIds(m, requests, slots, ids, |requests|) && Distinct(slots)
    ensures OwnSequences(maps, ids) <==> PromptsDiffer(requests)
  {
    hide Agree;
    assert slots[..|slots|] == slots;
    if PromptsDiffer(requests) {
      forall s: nat, s': nat | s < s' < |ids| && ids[s] == ids[s'] ensures PagesServed(maps, ids[s]) == [] {
        if s in slots && s' in slots {
          var i: nat :| i < |slots| && slots[i] == s;
          var j: nat :| j < |slots| && slots[j] == s';
          SameIdSamePrompt(m, blocks, maps, bs, requests[i].prompt, requests[j].prompt);
        }
      }
    } else {
      var i, j :| 0 <= i < j < |requests| && requests[i].prompt == requests[j].prompt;
      var s, s' := slots[i], slots[j];
      assert ids[s] == ids[s'] && s != s';
      StoredHasPages(m, blocks, maps, bs, requests[i].prompt);
      if s < s' {
        assert PagesServed(maps, ids[s]) != [];
      } else {
        assert PagesServed(maps, ids[s']) != [];
      }
    }
  }

  lemma SameIdSamePrompt(m: map<Key, Entry>, blocks: map<nat, KvBlock>, maps: map<nat, BlockMapping>, bs: nat, k: Key, k': Key)
    requires Agree(m, blocks, maps, bs) && k in m && k' in m && m[k].handle.blockId == m[k'].handle.blockId
    ensures k == k'
  {
    assert KeyedBy(m, m[k].handle.blockId, k) && KeyedBy(m, m[k].handle.blockId, k');
  }

  lemma StoredHasPages(m: map<Key, Entry>, blocks: map<nat, KvBlock>, maps: map<nat, BlockMapping>, bs: nat, k: Key)
    requires Agree(m, blocks, maps, bs) && k in m
    ensures PagesServed(maps, Some(m[k].handle.blockId)) != []
  {
    NoEmptyKey(m, blocks, maps, bs);
    SpanCovers(m, blocks, maps, bs, k);
    assert |k| > 0;
  }

  /** The engine's pages and slots are the ones the kernels' table describes, with room for a whole pool per row. */
  ghost predicate Fits(engine: VeloEngine, g: Layout) {
    && LayoutOk(g) && g.blockSize == engine.pages.blockSize && g.totalPages == g.maxPages == engine.pages.totalPages
    && g.slots == engine.slots.maxSlots
  }

  /** Admit a batch and bind its slots. Binding is never refused; each slot's row holds its prompt's pages; and the slots
      have their pages to themselves exactly when the prompts are pairwise different. */
  method AdmitAndBind(engine: VeloEngine, requests: seq<BatchRequest>, g: Layout, table: array<nat>)
      returns (r: Result<seq<Admitted>, EngineError>, ghost rows: seq<seq<nat>>)
    requires engine.Valid() && Fits(engine, g) && table.Length == TableLen(g)
    modifies engine.cache, engine.store, engine.pages, engine.slots, table
    ensures engine.Valid()
    ensures r.Ok? <==> Admissible(old(engine.cache.Contents()).Keys, Prompts(requests), engine.pages.blockSize,
                                  |old(engine.slots.freeSlots)|, |old(engine.pages.freePages)|, |requests|)
    ensures r.Ok? ==>
      && |r.value| == |requests| && |rows| == g.slots && Distinct(SlotsOf(r.value))
      && (forall i :: 0 <= i < |requests| ==>
            && r.value[i].slot < g.slots && PagesOf(r.value[i].prefill) == Some(rows[r.value[i].slot])
            && Covers(rows[r.value[i].slot], |requests[i].prompt|, g.blockSize))
      && (forall i, j :: 0 <= i < j < |requests| && requests[i].prompt == requests[j].prompt ==>
            rows[r.value[i].slot] == rows[r.value[j].slot])
      && (forall s :: 0 <= s < g.slots ==> RowHolds(g, table[..], s, rows[s]))
      && (forall s :: 0 <= s < g.slots && s !in SlotsOf(r.value) ==> rows[s] == [])
      && (forall s, i :: 0 <= s < g.slots && 0 <= i < |rows[s]| ==> rows[s][i] < g.totalPages)
      && (Bound(g, table[..], rows) <==> PromptsDiffer(requests))
  {
    hide Entries, Dense, Edges, WellKept, KeyTokens, Agree, Admissible, Cost, TableLen, RowOf, Bound, OwnSequences, Partition, PromptsDiffer, Covers,
         AdmittedSoFar, HandlesKept, Kept, KeysAfter;
    ghost var keys := engine.cache.Contents().Keys;
    SlotsInPool(engine.slots);
    ghost var free := engine.slots.freeSlots;
    rows := [];
    r := engine.AdmitAll(requests);
    if r.Err? {
      return;
    }
    ghost var m, blocks, maps := engine.cache.Contents(), engine.store.blocks, engine.pages.mappings;
    ghost var slots := SlotsOf(r.value);
    AdmittedSlots(keys, Prompts(requests), free, m, maps, r.value);
    ghost var ids: seq<Option<nat>>;
    ids, rows := BindAll(g, table, requests, r.value, m, engine.pages.freePages, maps);
    BoundIffOwnSequences(g, table[..], engine.pages.freePages, maps, ids, rows);
    OwnIffPromptsDiffer(m, blocks, maps, engine.pages.blockSize, requests, slots, ids);
    forall i | 0 <= i < |requests| ensures Covers(rows[slots[i]], |requests[i].prompt|, g.blockSize) {
      SpanCovers(m, blocks, maps, engine.pages.blockSize, requests[i].prompt);
    }
    forall s | 0 <= s < g.slots ensures forall i :: 0 <= i < |rows[s]| ==> rows[s][i] < g.totalPages {
      RowInPool(engine.pages.freePages, maps, g.totalPages, ids[s]);
    }
  }

  lemma RowInPool(free: seq<nat>, maps: map<nat, BlockMapping>, total: nat, id: Option<nat>)
    requires Partition(free, maps, total)
    ensures forall i :: 0 <= i < |PagesServed(maps, id)| ==> PagesServed(maps, id)[i] < total
  {
    hide Partition;
    if id.Some? && id.value in maps {
      PagesInPool(free, maps, total, id.value);
    }
  }

  /** Bind each admitted request's slot to its pages. */
  method BindAll(g: Layout, table: array<nat>, requests: seq<BatchRequest>, admitted: seq<Admitted>, ghost m: map<Key, Entry>,
                 ghost free: seq<nat>, ghost maps: map<nat, BlockMapping>)
      returns (ghost ids: seq<Option<nat>>, ghost rows: seq<seq<nat>>)
    requires table.Length == TableLen(g) && |admitted| == |requests| && g.maxPages == g.totalPages
    requires Partition(free, maps, g.totalPages)
    requires Distinct(SlotsOf(admitted)) && forall i :: 0 <= i < |admitted| ==> admitted[i].slot < g.slots
    requires forall i :: 0 <= i < |requests| ==> ServedBy(m, maps, requests[i].prompt, PagesOf(admitted[i].prefill))
    modifies table
    ensures BoundTo(g, table[..], maps, ids, rows) && ServedIds(m, requests, SlotsOf(admitted), ids, |requests|)
    ensures forall s: nat :: s < g.slots && s !in SlotsOf(admitted) ==> rows[s] == []
    ensures forall i :: 0 <= i < |requests| ==> PagesOf(admitted[i].prefill) == Some(rows[admitted[i].slot])
  {
    hide TableLen, RowOf, Partition, Distinct;
    ghost var slots := SlotsOf(admitted);
    ids := Repeat(None, g.slots);
    rows := Repeat([], g.slots);
    EmptyRows(g, table[..]);
    for i := 0 to |requests|
      invariant BoundTo(g, table[..], maps, ids, rows) && ServedIds(m, requests, slots, ids, i)
    {
      ghost var id := m[requests[i].prompt].handle.blockId;
      PagesAreFew(free, maps, g.totalPages, id);
      var pages := PagesOf(admitted[i].prefill).value;
      ServedNext(m, requests, slots, ids, i);
      ghost var before := table[..];
      var ok := BindSlot(g, table, admitted[i].slot, pages);
      OneMoreRow(g, before, table[..], maps, ids, rows, admitted[i].slot, id);
      ids := ids[admitted[i].slot := Some(id)];
      rows := rows[admitted[i].slot := pages];
    }
    assert slots[..|slots|] == slots;
  }

  lemma EmptyRows(g: Layout, table: seq<nat>)
    requires |table| == TableLen(g)
    ensures forall s: nat :: s < g.slots ==> RowHolds(g, table, s, [])
  {}

  lemma OneMoreRow(g: Layout, before: seq<nat>, after: seq<nat>, maps: map<nat, BlockMapping>, ids: seq<Option<nat>>,
                   rows: seq<seq<nat>>, slot: nat, id: nat)
    requires BoundTo(g, before, maps, ids, rows) && slot < g.slots && id in maps && |after| == |before| == TableLen(g)
    requires RowIs(g, after, slot, maps[id].pages)
    requires forall other: nat :: other != slot && other < g.slots ==> RowOf(g, after, other) == RowOf(g, before, other)
    ensures BoundTo(g, after, maps, ids[slot := Some(id)], rows[slot := maps[id].pages])
  {
    hide RowOf, TableLen;
    RowIsHolds(g, after, slot, maps[id].pages);
    forall s: nat | s < |rows| && s != slot ensures RowHolds(g, after, s, rows[s]) {
      assert RowHolds(g, before, s, rows[s]);
    }
  }

  /** Two requests of a batch with the same prompt hold different slots, and every position of the prompt is at one and
      the same place for both. So what one writes there, the other reads. */
  method AdmitSamePrompt(engine: VeloEngine, prompt: seq<TokenId>, maxNew: nat, maxNew': nat, g: Layout, table: array<nat>)
      returns (r: Result<(nat, nat), EngineError>)
    requires engine.Valid() && Fits(engine, g) && table.Length == TableLen(g)
    modifies engine.cache, engine.store, engine.pages, engine.slots, table
    ensures engine.Valid()
    ensures r.Ok? <==>
      && prompt != [] && |old(engine.slots.freeSlots)| >= 2
      && PromptPages(old(engine.cache.Contents()).Keys, prompt, engine.pages.blockSize) <= |old(engine.pages.freePages)|
    ensures r.Ok? ==>
      && r.value.0 != r.value.1
      && forall pos: nat :: pos < |prompt| ==>
        && HasEntry(g, table[..], r.value.0, pos) && HasEntry(g, table[..], r.value.1, pos)
        && EntryAddr(g, table[..], r.value.0, pos) == EntryAddr(g, table[..], r.value.1, pos)
  {
    hide Entries, Dense, Edges, WellKept, KeyTokens, Agree, HasEntry, EntryAddr, PageIdx, TableLen, RowOf, RowHolds, Bound, Admissible, Partition, Covers;
    var requests := [BatchRequest(prompt, maxNew), BatchRequest(prompt, maxNew')];
    assert Prompts(requests) == [prompt, prompt];
    SamePromptFits(engine.cache.Contents().Keys, prompt, engine.pages.blockSize, |engine.slots.freeSlots|, |engine.pages.freePages|);
    var admitted, rows := AdmitAndBind(engine, requests, g, table);
    if admitted.Err? {
      return Err(admitted.error);
    }
    var a, b := admitted.value[0].slot, admitted.value[1].slot;
    assert requests[0].prompt == requests[1].prompt == prompt;
    assert SlotsOf(admitted.value)[0] == a && SlotsOf(admitted.value)[1] == b;
    r := Ok((a, b));
    forall pos: nat | pos < |prompt|
      ensures HasEntry(g, table[..], a, pos) && HasEntry(g, table[..], b, pos)
      ensures EntryAddr(g, table[..], a, pos) == EntryAddr(g, table[..], b, pos)
    {
      CoveredIdx(g, rows[a], |prompt|, pos);
      SharedEntries(g, table[..], rows[a], a, b, pos);
    }
  }

  lemma SlotsInPool(slots: SlotPool)
    requires slots.Valid()
    ensures Distinct(slots.freeSlots) && forall i :: 0 <= i < |slots.freeSlots| ==> slots.freeSlots[i] < slots.maxSlots
  {}

  // ----- Positions past the bound pages -----

  /** Past the pages a slot was bound to, the table names page 0. */
  lemma UncoveredIsPageZero(g: Layout, table: seq<nat>, s: nat, pages: seq<nat>, pos: nat)
    requires LayoutOk(g) && g.totalPages > 0 && RowIs(g, table, s, pages) && |pages| <= PageIdx(g, pos) < g.maxPages
    ensures HasEntry(g, table, s, pos) && table[RowBase(g, s) + PageIdx(g, pos)] == 0
    ensures EntryAddr(g, table, s, pos) == TokenAddr(g, 0, TokIdx(g, pos))
  {
    hide TokenAddr, TokIdx, Stride, PoolLen, PageIdx;
    var i := PageIdx(g, pos);
    RowIsSlice(g, table, s, RowBase(g, s));
    hide RowBase, TableLen, RowOf;
    assert RowOf(g, table, s)[i] == 0;
    assert table[RowBase(g, s)..RowBase(g, s) + g.maxPages][i] == table[RowBase(g, s) + i];
  }

  /** A write at such a position changes what slot `s'` reads at `pos'` exactly when `s'` keeps that position on page 0,
      in the same place on the page, and the vectors differ. */
  lemma UncoveredWriteDamages(g: Layout, cache: seq<real>, table: seq<nat>, rows: seq<seq<nat>>, s: nat, pages: seq<nat>,
                              pos: nat, vec: seq<real>, s': nat, pos': nat)
    requires LayoutOk(g) && g.totalPages > 0 && RowIs(g, table, s, pages) && |pages| <= PageIdx(g, pos) < g.maxPages
    requires Bound(g, table, rows) && Covered(g, rows, s', pos') && |cache| == PoolLen(g) && |vec| == Stride(g)
    ensures HasEntry(g, table, s, pos) && Home(g, rows, s', pos') + Stride(g) <= |cache|
    ensures var h := Home(g, rows, s', pos');
            Patched(cache, EntryAddr(g, table, s, pos), vec)[h..h + Stride(g)] != cache[h..h + Stride(g)]
            <==> Page(g, rows, s', pos') == 0 && TokIdx(g, pos') == TokIdx(g, pos) && cache[h..h + Stride(g)] != vec
  {
    UncoveredIsPageZero(g, table, s, pages, pos);
    TableLookup(g, table, rows, s', pos');
    PosParts(g, pos, pos');
    var at, h := EntryAddr(g, table, s, pos), Home(g, rows, s', pos');
    var page, tok := Page(g, rows, s', pos'), TokIdx(g, pos');
    if page != 0 || tok != TokIdx(g, pos) {
      TokensApart(g, 0, TokIdx(g, pos), page, tok);
    }
    hide TokenAddr, TokIdx, Stride, PoolLen, PageIdx, Bound, RowIs, Patched;
    PatchedReads(cache, at, vec, h, Stride(g));
  }
}
