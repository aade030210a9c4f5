/** What batches of requests are answered with: which are admitted, what their prompts find in the cache, and which
    finished sequences can be saved. */
module Admission {
  import opened Common
  import opened GreedyDecoding
  import opened Speculative
  import opened BatchDecoding
  import opened RadixTree
  import opened PrefixMap
  import opened RadixCaches
  import opened Memory
  import opened Agreement

  datatype EngineError =
    | KvStoreError(store: StoreError)
    | PagedAttention(page: PageError)
    | SpeculativeError(spec: SpecError)
    | NoFreeSlots
    | NoPagesForPrefill

  datatype Prefilled = Prefilled(
    cachedPrefix: CacheLookup, cachedPages: Option<seq<nat>>,
    insertedHandle: Option<Handle>, insertedPages: Option<seq<nat>>,
    hitTokens: nat, missTokens: nat)

  datatype BatchRequest = BatchRequest(prompt: seq<TokenId>, maxNew: nat)

  datatype EngineOutput = EngineOutput(tokens: seq<TokenId>, insertedHandle: Option<Handle>, insertedPages: Option<seq<nat>>,
                                       prefill: Prefilled, stats: Stats)

  /** A prefilled request holding a slot. */
  datatype Admitted = Admitted(slot: nat, prefill: Prefilled)

  function SlotsOf(admitted: seq<Admitted>): (s: seq<nat>)
    ensures |s| == |admitted| && forall i :: 0 <= i < |admitted| ==> s[i] == admitted[i].slot
  {
    seq(|admitted|, i requires 0 <= i < |admitted| => admitted[i].slot)
  }

  // ----- When a batch is admitted -----

  function Prompts(requests: seq<BatchRequest>): (ps: seq<Key>)
    ensures |ps| == |requests| && forall i :: 0 <= i < |requests| ==> ps[i] == requests[i].prompt
  {
    seq(|requests|, i requires 0 <= i < |requests| => requests[i].prompt)
  }

  /** Pages a prompt takes that is not stored yet. */
  ghost function PromptPages(keys: set<Key>, prompt: Key, bs: nat): nat
    requires bs > 0
  {
    if prompt in keys || prompt == [] then 0 else PagesFor(|prompt|, bs)
  }

  /** The stored keys once the first `n` prompts are saved. */
  ghost function KeysAfter(keys: set<Key>, prompts: seq<Key>, n: nat): set<Key>
    requires n <= |prompts|
  {
    if n == 0 then keys else KeysAfter(keys, prompts, n - 1) + {prompts[n - 1]}
  }

  /** The pages the first `n` prompts take: each new one once. */
  ghost function Cost(keys: set<Key>, prompts: seq<Key>, bs: nat, n: nat): nat
    requires bs > 0 && n <= |prompts|
  {
    if n == 0 then 0
    else Cost(keys, prompts, bs, n - 1) + PromptPages(KeysAfter(keys, prompts, n - 1), prompts[n - 1], bs)
  }

  /** There are slots and pages for the first `n` prompts and no prompt among them is empty. */
  ghost predicate Admissible(keys: set<Key>, prompts: seq<Key>, bs: nat, slots: nat, pages: nat, n: nat)
    requires bs > 0 && n <= |prompts|
  {
    n <= slots && Cost(keys, prompts, bs, n) <= pages && forall i :: 0 <= i < n ==> prompts[i] != []
  }

  /** Request `k` is the first that cannot be admitted, and `e` says why. */
  ghost predicate AdmitFails(keys: set<Key>, prompts: seq<Key>, bs: nat, slots: nat, pages: nat, k: nat, e: EngineError)
    requires bs > 0
  {
    && k < |prompts| && Admissible(keys, prompts, bs, slots, pages, k) && !Admissible(keys, prompts, bs, slots, pages, k + 1)
    && e == if k >= slots then NoFreeSlots
            else if prompts[k] == [] then NoPagesForPrefill
            else PagedAttention(OutOfPages(PagesFor(|prompts[k]|, bs), pages - Cost(keys, prompts, bs, k)))
  }

  /** It fails there, holding the slots taken up to and including that request's. */
  ghost predicate AdmitStops(keys: set<Key>, prompts: seq<Key>, bs: nat, before: seq<nat>, after: seq<nat>, pages: nat, k: nat, e: EngineError)
    requires bs > 0
  {
    AdmitFails(keys, prompts, bs, |before|, pages, k, e) && after == before[Min(k + 1, |before|)..]
  }

  lemma CostStart(keys: set<Key>, prompts: seq<Key>, bs: nat)
    requires bs > 0
    ensures Cost(keys, prompts, bs, 0) == 0 && KeysAfter(keys, prompts, 0) == keys
  {}

  lemma CostNext(keys: set<Key>, prompts: seq<Key>, bs: nat, n: nat)
    requires bs > 0 && n < |prompts|
    ensures Cost(keys, prompts, bs, n + 1) == Cost(keys, prompts, bs, n) + PromptPages(KeysAfter(keys, prompts, n), prompts[n], bs)
    ensures KeysAfter(keys, prompts, n + 1) == KeysAfter(keys, prompts, n) + {prompts[n]}
    ensures PromptPages(KeysAfter(keys, prompts, n), prompts[n], bs) <= PagesFor(|prompts[n]|, bs)
    ensures prompts[n] !in KeysAfter(keys, prompts, n) && prompts[n] != [] ==>
      PromptPages(KeysAfter(keys, prompts, n), prompts[n], bs) == PagesFor(|prompts[n]|, bs)
  {}

  lemma {:induction false} KeysGrow(keys: set<Key>, prompts: seq<Key>, n: nat)
    requires n <= |prompts|
    ensures keys <= KeysAfter(keys, prompts, n)
  {
    if n > 0 {
      KeysGrow(keys, prompts, n - 1);
    }
  }

  lemma {:induction false} CostGrows(keys: set<Key>, prompts: seq<Key>, bs: nat, k: nat, n: nat)
    requires bs > 0 && k <= n <= |prompts|
    ensures Cost(keys, prompts, bs, k) <= Cost(keys, prompts, bs, n)
  {
    if k < n {
      CostGrows(keys, prompts, bs, k, n - 1);
    }
  }

  lemma FailureIsFinal(keys: set<Key>, prompts: seq<Key>, bs: nat, slots: nat, pages: nat, k: nat, e: EngineError)
    requires bs > 0 && AdmitFails(keys, prompts, bs, slots, pages, k, e)
    ensures !Admissible(keys, prompts, bs, slots, pages, |prompts|)
  {
    CostGrows(keys, prompts, bs, k + 1, |prompts|);
  }

  /** The pages a request is bound to: the inserted ones if any, else the cached ones. */
  function PagesOf(p: Prefilled): Option<seq<nat>> {
    if p.insertedPages.Some? then p.insertedPages else p.cachedPages
  }

  /** Every mapping there was is still there. */
  ghost predicate Kept(before: map<nat, BlockMapping>, after: map<nat, BlockMapping>) {
    forall id :: id in before ==> id in after && after[id] == before[id]
  }

  /** Every entry there was is still there under its handle. */
  ghost predicate HandlesKept(before: map<Key, Entry>, after: map<Key, Entry>) {
    forall k :: k in before ==> k in after && after[k].handle == before[k].handle
  }

  /** The pages mapped to a handle, if there is one. */
  ghost function SpanOf(maps: map<nat, BlockMapping>, h: Option<Handle>): Option<seq<nat>> {
    if h.Some? && h.value.blockId in maps then Some(maps[h.value.blockId].pages) else None
  }

  lemma SpanIsOf(maps: map<nat, BlockMapping>, h: Handle, ps: Option<seq<nat>>)
    requires (ps.Some? <==> h.blockId in maps) && (ps.Some? ==> ps.value == maps[h.blockId].pages)
    ensures SpanOf(maps, Some(h)) == ps
  {}

  /** Saving `tokens` maps the handle to pages off the front of the queue; a replaced entry's mapping goes, its pages to the back. */
  ghost predicate SavedPages(m: map<Key, Entry>, maps: map<nat, BlockMapping>, free: seq<nat>, bs: nat, tokens: Key, h: Handle,
                             maps': map<nat, BlockMapping>, free': seq<nat>)
    requires bs > 0
  {
    var n := PagesFor(|tokens|, bs);
    var added := maps[h.blockId := BlockMapping(h, free[..Min(n, |free|)], |tokens|)];
    && n <= |free|
    && if tokens in m
       then var dead := m[tokens].handle.blockId;
            dead in maps && maps' == added - {dead} && free' == free[n..] + maps[dead].pages
       else maps' == added && free' == free[n..]
  }

  // ----- What prefilling returns -----

  /** `h` is the handle stored under `k`, and `ps` are its pages. */
  ghost predicate Names(m: map<Key, Entry>, maps: map<nat, BlockMapping>, k: Key, h: Option<Handle>, ps: Option<seq<nat>>) {
    ServedBy(m, maps, k, ps) && h == Some(m[k].handle)
  }

  /** Prefilling `prompt` over the stored `keys` found the longest of them that is a prefix of it, with its handle and
      pages, and saved a prompt that was not stored. Handles and pages are read off a cache that has kept them. */
  ghost predicate PrefilledOver(keys: set<Key>, m: map<Key, Entry>, maps: map<nat, BlockMapping>, prompt: Key, p: Prefilled) {
    var n, h := p.cachedPrefix.matchedTokens, p.cachedPrefix.handle;
    && n <= |prompt| && p.hitTokens == n && p.missTokens == |prompt| - n
    && (forall i :: n < i <= |prompt| ==> prompt[..i] !in keys)
    && (if h.Some? then prompt[..n] in keys && Names(m, maps, prompt[..n], h, p.cachedPages)
        else n == 0 && [] !in keys && p.cachedPages == None)
    && (if prompt in keys || prompt == [] then p.insertedHandle == None && p.insertedPages == None
        else Names(m, maps, prompt, p.insertedHandle, p.insertedPages))
  }

  /** A lookup in `m`, and the saved prompt if it did not match all of it, make up what prefilling returns. */
  lemma PrefillAnswer(m: map<Key, Entry>, blocks: map<nat, KvBlock>, maps: map<nat, BlockMapping>, bs: nat, prompt: Key, p: Prefilled,
                      m': map<Key, Entry>, maps': map<nat, BlockMapping>)
    requires Agree(m, blocks, maps, bs) && HandlesKept(m, m') && Kept(maps, maps')
    requires LookupAnswer(m, prompt, p.cachedPrefix.matchedTokens, p.cachedPrefix.handle)
    requires p.cachedPages == SpanOf(maps', p.cachedPrefix.handle)
    requires p.hitTokens == p.cachedPrefix.matchedTokens <= |prompt| && p.missTokens == |prompt| - p.hitTokens
    requires if prompt in m || prompt == [] then p.insertedHandle == None && p.insertedPages == None
             else Names(m', maps', prompt, p.insertedHandle, p.insertedPages)
    ensures PrefilledOver(m.Keys, m', maps', prompt, p) && p.cachedPages == SpanOf(maps, p.cachedPrefix.handle)
  {
    hide Agree;
    var n := p.cachedPrefix.matchedTokens;
    assert prompt[..0] == [];
    if p.cachedPrefix.handle.Some? {
      EntryIsBacked(m, blocks, maps, bs, prompt[..n]);
    }
  }

  lemma PrefilledKept(keys: set<Key>, m: map<Key, Entry>, maps: map<nat, BlockMapping>, prompt: Key, p: Prefilled,
                      m': map<Key, Entry>, maps': map<nat, BlockMapping>)
    requires PrefilledOver(keys, m, maps, prompt, p) && HandlesKept(m, m') && Kept(maps, maps')
    ensures PrefilledOver(keys, m', maps', prompt, p)
  {}

  lemma ServedKept(m: map<Key, Entry>, maps: map<nat, BlockMapping>, k: Key, ps: Option<seq<nat>>, m': map<Key, Entry>, maps': map<nat, BlockMapping>)
    requires ServedBy(m, maps, k, ps) && HandlesKept(m, m') && Kept(maps, maps')
    ensures ServedBy(m', maps', k, ps)
  {}

  lemma StillKept(m0: map<Key, Entry>, maps0: map<nat, BlockMapping>, m1: map<Key, Entry>, maps1: map<nat, BlockMapping>,
                  m2: map<Key, Entry>, maps2: map<nat, BlockMapping>)
    requires HandlesKept(m0, m1) && HandlesKept(m1, m2) && Kept(maps0, maps1) && Kept(maps1, maps2)
    ensures HandlesKept(m0, m2) && Kept(maps0, maps2)
  {}

  /** Each admitted request has the next free slot and a prefill over the keys the earlier ones left. */
  ghost predicate AdmittedSoFar(keys: set<Key>, prompts: seq<Key>, free: seq<nat>, m: map<Key, Entry>, maps: map<nat, BlockMapping>, admitted: seq<Admitted>)
    requires |admitted| <= |prompts| && |admitted| <= |free|
  {
    forall j :: 0 <= j < |admitted| ==> AdmittedAs(keys, prompts, free[j], m, maps, admitted[j], j)
  }

  ghost predicate AdmittedAs(keys: set<Key>, prompts: seq<Key>, slot: nat, m: map<Key, Entry>, maps: map<nat, BlockMapping>, a: Admitted, j: nat)
    requires j < |prompts|
  {
    && a.slot == slot && ServedBy(m, maps, prompts[j], PagesOf(a.prefill))
    && PrefilledOver(KeysAfter(keys, prompts, j), m, maps, prompts[j], a.prefill)
  }

  lemma NobodyAdmitted(keys: set<Key>, prompts: seq<Key>, free: seq<nat>, m: map<Key, Entry>, maps: map<nat, BlockMapping>)
    ensures AdmittedSoFar(keys, prompts, free, m, maps, []) && HandlesKept(m, m) && Kept(maps, maps)
  {}

  lemma OneMoreAdmitted(keys: set<Key>, prompts: seq<Key>, free: seq<nat>, m: map<Key, Entry>, maps: map<nat, BlockMapping>,
                        admitted: seq<Admitted>, a: Admitted, m': map<Key, Entry>, maps': map<nat, BlockMapping>)
    requires |admitted| < |prompts| && |admitted| < |free| && AdmittedSoFar(keys, prompts, free, m, maps, admitted)
    requires HandlesKept(m, m') && Kept(maps, maps') && AdmittedAs(keys, prompts, free[|admitted|], m', maps', a, |admitted|)
    ensures AdmittedSoFar(keys, prompts, free, m', maps', admitted + [a])
  {
    hide KeysAfter, ServedBy, PrefilledOver, HandlesKept, Kept;
    forall j | 0 <= j < |admitted| ensures AdmittedAs(keys, prompts, free[j], m', maps', admitted[j], j) {
      assert AdmittedAs(keys, prompts, free[j], m, maps, admitted[j], j);
      PrefilledKept(KeysAfter(keys, prompts, j), m, maps, prompts[j], admitted[j].prefill, m', maps');
      ServedKept(m, maps, prompts[j], PagesOf(admitted[j].prefill), m', maps');
    }
  }

  lemma ServedSome(m: map<Key, Entry>, maps: map<nat, BlockMapping>, k: Key, ps: Option<seq<nat>>)
    requires ServedBy(m, maps, k, ps)
    ensures ps.Some? && k in m
  {}

  /** What request `i` of a batch found: the longest prefix of its prompt among the sequences stored before the batch,
      with their handles and pages, and the prompts of the requests before it, with what those requests saved. */
  ghost predicate BatchPrefilled(m: map<Key, Entry>, maps: map<nat, BlockMapping>, prompts: seq<Key>, ps: seq<Prefilled>, i: nat)
    requires i < |prompts| == |ps|
  {
    var keys, p, n := KeysAfter(m.Keys, prompts, i), ps[i], ps[i].cachedPrefix.matchedTokens;
    && n <= |prompts[i]| && p.hitTokens == n && p.missTokens == |prompts[i]| - n
    && (forall j :: n < j <= |prompts[i]| ==> prompts[i][..j] !in keys)
    && (p.cachedPrefix.handle == None ==> n == 0 && [] !in keys && p.cachedPages == None)
    && (p.cachedPrefix.handle.Some? ==>
          var k := prompts[i][..n];
          if k in m then Names(m, maps, k, p.cachedPrefix.handle, p.cachedPages)
          else exists j: nat :: j < i && SavedEarlier(m.Keys, prompts, ps, j, k, p))
    && (p.insertedHandle.Some? <==> prompts[i] !in keys && prompts[i] != [])
    && (p.insertedPages.Some? <==> p.insertedHandle.Some?)
  }

  /** Request `j` is the first with prompt `k`, and what it saved is what `p` found. */
  ghost predicate SavedEarlier(keys: set<Key>, prompts: seq<Key>, ps: seq<Prefilled>, j: nat, k: Key, p: Prefilled)
    requires j < |prompts| == |ps|
  {
    && prompts[j] == k && k !in KeysAfter(keys, prompts, j)
    && p.cachedPrefix.handle == ps[j].insertedHandle && p.cachedPages == ps[j].insertedPages
  }

  /** A key that is new after `i` prompts was saved by the first that equals it. */
  lemma {:induction false} FirstWithPrompt(keys: set<Key>, prompts: seq<Key>, i: nat, k: Key) returns (j: nat)
    requires i <= |prompts| && k in KeysAfter(keys, prompts, i) && k !in keys
    ensures j < i && prompts[j] == k && k !in KeysAfter(keys, prompts, j)
  {
    if k in KeysAfter(keys, prompts, i - 1) {
      j := FirstWithPrompt(keys, prompts, i - 1, k);
    } else {
      j := i - 1;
    }
  }

  lemma BatchPrefills(m: map<Key, Entry>, maps: map<nat, BlockMapping>, prompts: seq<Key>, ps: seq<Prefilled>,
                      m': map<Key, Entry>, maps': map<nat, BlockMapping>, i: nat)
    requires i < |prompts| == |ps| && [] !in m
    requires HandlesKept(m, m') && Kept(maps, maps') && forall k :: k in m ==> m[k].handle.blockId in maps
    requires forall j :: 0 <= j < |prompts| ==> prompts[j] != [] && PrefilledOver(KeysAfter(m.Keys, prompts, j), m', maps', prompts[j], ps[j])
    ensures BatchPrefilled(m, maps, prompts, ps, i)
  {
    hide KeysAfter;
    var p := ps[i];
    var keys := KeysAfter(m.Keys, prompts, i);
    assert PrefilledOver(keys, m', maps', prompts[i], p);
    if p.cachedPrefix.handle.Some? {
      var k := prompts[i][..p.cachedPrefix.matchedTokens];
      if k in m {
        assert Names(m, maps, k, p.cachedPrefix.handle, p.cachedPages);
      } else {
        var j := FirstWithPrompt(m.Keys, prompts, i, k);
        assert PrefilledOver(KeysAfter(m.Keys, prompts, j), m', maps', prompts[j], ps[j]);
        assert SavedEarlier(m.Keys, prompts, ps, j, k, p);
      }
    }
  }

  lemma AdmittedSlots(keys: set<Key>, prompts: seq<Key>, free: seq<nat>, m: map<Key, Entry>, maps: map<nat, BlockMapping>, admitted: seq<Admitted>)
    requires |admitted| == |prompts| <= |free| && AdmittedSoFar(keys, prompts, free, m, maps, admitted)
    ensures SlotsOf(admitted) == free[..|prompts|]
    ensures forall j :: 0 <= j < |admitted| ==> ServedBy(m, maps, prompts[j], PagesOf(admitted[j].prefill)) && prompts[j] in m
  {
    hide PrefilledOver, KeysAfter;
    forall j | 0 <= j < |admitted|
      ensures admitted[j].slot == free[j] && ServedBy(m, maps, prompts[j], PagesOf(admitted[j].prefill)) && prompts[j] in m
    {
      assert AdmittedAs(keys, prompts, free[j], m, maps, admitted[j], j);
    }
  }

  // ----- What finishing returns -----

  /** What is saved of each finished request: its prompt and what it generated. */
  function Fulls(done: seq<Active>): (ks: seq<Key>)
    ensures |ks| == |done| && forall i :: 0 <= i < |done| ==> ks[i] == done[i].session.prompt + done[i].generated
  {
    seq(|done|, i requires 0 <= i < |done| => done[i].session.prompt + done[i].generated)
  }

  /** Each of the first `n` sequences finds enough free pages when its turn comes, even if it is stored already: a
      replaced entry's pages come back only afterwards. */
  ghost predicate FinishFits(keys: set<Key>, fulls: seq<Key>, bs: nat, pages: nat, n: nat)
    requires bs > 0 && n <= |fulls|
  {
    forall i :: 0 <= i < n ==> Cost(keys, fulls, bs, i) + PagesFor(|fulls[i]|, bs) <= pages
  }

  /** Sequence `k` is the first that does not fit. */
  ghost predicate FinishStops(keys: set<Key>, fulls: seq<Key>, bs: nat, pages: nat, k: nat, e: EngineError)
    requires bs > 0
  {
    && k < |fulls| && FinishFits(keys, fulls, bs, pages, k) && Cost(keys, fulls, bs, k) <= pages < Cost(keys, fulls, bs, k) + PagesFor(|fulls[k]|, bs)
    && e == PagedAttention(OutOfPages(PagesFor(|fulls[k]|, bs), pages - Cost(keys, fulls, bs, k)))
  }

  /** A request's output carries its tokens, its own prefill and session counts, and a handle and pages for the whole sequence. */
  ghost predicate OutputOf(prefill: Prefilled, done: Active, bs: nat, o: EngineOutput)
    requires bs > 0
  {
    var full := done.session.prompt + done.generated;
    && o.tokens == done.generated && o.prefill == prefill && o.stats == done.session.stats
    && o.insertedHandle.Some? && o.insertedHandle.value.tokenLen == |full|
    && o.insertedPages.Some? && |o.insertedPages.value| == PagesFor(|full|, bs)
  }

  /** Unless a later request finished the same sequence, the handle and pages are those in the cache. */
  ghost predicate InCache(m: map<Key, Entry>, maps: map<nat, BlockMapping>, fulls: seq<Key>, i: nat, n: nat, o: EngineOutput)
    requires i < n <= |fulls|
  {
    && fulls[i] in m
    && ((forall j :: i < j < n ==> fulls[j] != fulls[i]) ==> Names(m, maps, fulls[i], o.insertedHandle, o.insertedPages))
  }

  /** What saving costs: nothing in the end if the sequence was stored, since the pages of the replaced entry come back. */
  lemma SavedPagesCount(m: map<Key, Entry>, blocks: map<nat, KvBlock>, maps: map<nat, BlockMapping>, free: seq<nat>, bs: nat, tokens: Key,
                        h: Handle, maps': map<nat, BlockMapping>, free': seq<nat>)
    requires Agree(m, blocks, maps, bs) && SavedPages(m, maps, free, bs, tokens, h, maps', free') && tokens != []
    ensures |free'| + PromptPages(m.Keys, tokens, bs) == |free|
  {
    hide PagesFor;
    if tokens in m {
      assert Backed(m, blocks, maps, bs, tokens);
    }
  }

  /** A saved sequence is in the cache under its new handle, with as many pages as it needs. */
  lemma SavedInCache(m: map<Key, Entry>, maps: map<nat, BlockMapping>, free: seq<nat>, bs: nat, full: Key, h: Handle, tick: nat,
                     m': map<Key, Entry>, maps': map<nat, BlockMapping>, free': seq<nat>)
    requires bs > 0 && SavedPages(m, maps, free, bs, full, h, maps', free') && m' == Inserted(m, full, h, tick) && h.blockId !in maps
    ensures m'.Keys == m.Keys + {full} && (full !in m ==> HandlesKept(m, m') && Kept(maps, maps'))
    ensures Names(m', maps', full, Some(h), SpanOf(maps', Some(h))) && |SpanOf(maps', Some(h)).value| == PagesFor(|full|, bs)
  {
    hide PagesFor;
  }

  /** Saving another sequence leaves an entry's handle and pages as they were. */
  lemma StaysInCache(m: map<Key, Entry>, blocks: map<nat, KvBlock>, maps: map<nat, BlockMapping>, free: seq<nat>, bs: nat, fulls: seq<Key>, j: nat, i: nat, o: EngineOutput,
                     h: Handle, tick: nat, m': map<Key, Entry>, maps': map<nat, BlockMapping>, free': seq<nat>)
    requires j < i < |fulls| && InCache(m, maps, fulls, j, i, o) && Agree(m, blocks, maps, bs)
    requires SavedPages(m, maps, free, bs, fulls[i], h, maps', free') && m' == Inserted(m, fulls[i], h, tick) && h.blockId !in maps
    ensures InCache(m', maps', fulls, j, i + 1, o)
  {
    hide PagesFor;
    if (forall k :: j < k < i + 1 ==> fulls[k] != fulls[j]) {
      assert fulls[i] != fulls[j];
      assert KeyedBy(m, m[fulls[j]].handle.blockId, fulls[j]);
      if fulls[i] in m {
        assert KeyedBy(m, m[fulls[i]].handle.blockId, fulls[i]);
      }
    }
  }

  /** The first `n` outputs are their requests' own, and the cache holds what they finished. */
  ghost predicate FinishedSoFar(m: map<Key, Entry>, maps: map<nat, BlockMapping>, bs: nat, admitted: seq<Admitted>, done: seq<Active>,
                                outputs: seq<EngineOutput>)
    requires |outputs| <= |done| == |admitted| && bs > 0
  {
    forall j :: 0 <= j < |outputs| ==>
      && OutputOf(admitted[j].prefill, done[j], bs, outputs[j])
      && InCache(m, maps, Fulls(done), j, |outputs|, outputs[j])
  }

  lemma NothingFinished(m: map<Key, Entry>, maps: map<nat, BlockMapping>, bs: nat, admitted: seq<Admitted>, done: seq<Active>)
    requires |done| == |admitted| && bs > 0
    ensures FinishedSoFar(m, maps, bs, admitted, done, [])
  {}

  lemma OneMoreFinished(m: map<Key, Entry>, blocks: map<nat, KvBlock>, maps: map<nat, BlockMapping>, free: seq<nat>, bs: nat,
                        admitted: seq<Admitted>, done: seq<Active>, outputs: seq<EngineOutput>, o: EngineOutput,
                        h: Handle, tick: nat, m': map<Key, Entry>, maps': map<nat, BlockMapping>, free': seq<nat>)
    requires bs > 0 && |outputs| < |done| == |admitted| && FinishedSoFar(m, maps, bs, admitted, done, outputs)
    requires Agree(m, blocks, maps, bs) && h.blockId !in maps && h.tokenLen == |Fulls(done)[|outputs|]|
    requires SavedPages(m, maps, free, bs, Fulls(done)[|outputs|], h, maps', free') && m' == Inserted(m, Fulls(done)[|outputs|], h, tick)
    requires var i := |outputs|;
             o == EngineOutput(done[i].generated, Some(h), SpanOf(maps', Some(h)), admitted[i].prefill, done[i].session.stats)
    ensures FinishedSoFar(m', maps', bs, admitted, done, outputs + [o])
    ensures m'.Keys == m.Keys + {Fulls(done)[|outputs|]}
  {
    hide Agree, InCache, SavedPages, Inserted;
    var i, fulls, more := |outputs|, Fulls(done), outputs + [o];
    SavedInCache(m, maps, free, bs, fulls[i], h, tick, m', maps', free');
    forall j | 0 <= j < |more| ensures OutputOf(admitted[j].prefill, done[j], bs, more[j]) && InCache(m', maps', fulls, j, |more|, more[j]) {
      if j < i {
        StaysInCache(m, blocks, maps, free, bs, fulls, j, i, outputs[j], h, tick, m', maps', free');
      } else {
        NamedInCache(m', maps', fulls, i, o);
      }
    }
  }

  lemma NamedInCache(m: map<Key, Entry>, maps: map<nat, BlockMapping>, fulls: seq<Key>, i: nat, o: EngineOutput)
    requires i < |fulls| && Names(m, maps, fulls[i], o.insertedHandle, o.insertedPages)
    ensures InCache(m, maps, fulls, i, i + 1, o)
  {}

  /** `ps` are the pages of the entry stored under `prompt`. */
  ghost predicate ServedBy(m: map<Key, Entry>, maps: map<nat, BlockMapping>, prompt: Key, ps: Option<seq<nat>>) {
    && prompt in m && m[prompt].handle.blockId in maps
    && ps == Some(maps[m[prompt].handle.blockId].pages)
  }

  /** The pages have room for `n` tokens. */
  ghost predicate Covers(ps: seq<nat>, n: nat, blockSize: nat) {
    n <= |ps| * blockSize
  }

  /** The lookup matches the whole query exactly when the query is stored. */
  lemma LookupHit(m: map<Key, Entry>, q: Key, n: nat, h: Option<Handle>)
    requires LookupAnswer(m, q, n, h)
    ensures n <= |q|
    ensures q in m ==> n == |q| && h == Some(m[q].handle)
    ensures q !in m && q != [] ==> n < |q|
    ensures [] !in m && q == [] ==> h == None
  {
    assert q[..|q|] == q;
  }

  lemma NoEmptyKey(m: map<Key, Entry>, blocks: map<nat, KvBlock>, maps: map<nat, BlockMapping>, bs: nat)
    requires Agree(m, blocks, maps, bs)
    ensures [] !in m
  {}

  lemma SpanCovers(m: map<Key, Entry>, blocks: map<nat, KvBlock>, maps: map<nat, BlockMapping>, bs: nat, k: Key)
    requires Agree(m, blocks, maps, bs) && k in m
    ensures bs > 0 && m[k].handle.blockId in maps && Covers(maps[m[k].handle.blockId].pages, |k|, bs)
  {
    assert Backed(m, blocks, maps, bs, k);
    PagesForIsCeiling(|k|, bs);
  }

  /** An id the store does not know, the allocator does not know either. */
  lemma FreshInMaps(m: map<Key, Entry>, blocks: map<nat, KvBlock>, maps: map<nat, BlockMapping>, bs: nat, id: nat)
    requires Agree(m, blocks, maps, bs) && id !in blocks
    ensures id !in maps
  {
    if id in maps {
      HandleIsLive(m, blocks, maps, bs, id);
    }
  }

  // ----- What a batch returns -----

  function Prefills(outputs: seq<EngineOutput>): (ps: seq<Prefilled>)
    ensures |ps| == |outputs| && forall i :: 0 <= i < |outputs| ==> ps[i] == outputs[i].prefill
  {
    seq(|outputs|, i requires 0 <= i < |outputs| => outputs[i].prefill)
  }

  /** The sessions a batch starts with. */
  function Started(decoder: Decoder, requests: seq<BatchRequest>): (active: seq<Active>)
    ensures |active| == |requests| && forall i :: 0 <= i < |requests| ==>
      active[i] == Active(Begin(decoder.draftWindow, decoder.maxWindow, requests[i].prompt), requests[i].maxNew, [])
  {
    seq(|requests|, i requires 0 <= i < |requests| =>
      Active(Begin(decoder.draftWindow, decoder.maxWindow, requests[i].prompt), requests[i].maxNew, []))
  }

  /** An admitted batch returns what decoding returns, once there are pages for everything it finished: each request with
      its own tokens and counts, with what its own prompt found, and with a handle that is in the cache afterwards. */
  ghost predicate BatchFinishes(m: map<Key, Entry>, maps: map<nat, BlockMapping>, bs: nat, room: nat, requests: seq<BatchRequest>,
                                decoded: Result<seq<Active>, SpecError>, m': map<Key, Entry>, maps': map<nat, BlockMapping>,
                                r: Result<seq<EngineOutput>, EngineError>)
    requires bs > 0 && Cost(m.Keys, Prompts(requests), bs, |requests|) <= room
  {
    var n, prompts := |requests|, Prompts(requests);
    var keys, left := KeysAfter(m.Keys, prompts, n), room - Cost(m.Keys, prompts, bs, n);
    match decoded
    case Err(e) => r == Err(SpeculativeError(e))
    case Ok(done) =>
      |done| == n &&
      if FinishFits(keys, Fulls(done), bs, left, n)
      then r.Ok? && |r.value| == n && m'.Keys == KeysAfter(keys, Fulls(done), n) && forall i :: 0 <= i < n ==>
        && BatchPrefilled(m, maps, prompts, Prefills(r.value), i)
        && OutputOf(r.value[i].prefill, done[i], bs, r.value[i])
        && InCache(m', maps', Fulls(done), i, n, r.value[i])
      else r.Err? && exists k: nat :: FinishStops(keys, Fulls(done), bs, left, k, r.error)
  }

  ghost predicate BatchDecodes(decoder: Decoder, draft: DraftBatchFn, verify: VerifyBatchFn, m: map<Key, Entry>, maps: map<nat, BlockMapping>,
                               bs: nat, room: nat, requests: seq<BatchRequest>, m': map<Key, Entry>, maps': map<nat, BlockMapping>,
                               r: Result<seq<EngineOutput>, EngineError>)
    requires bs > 0 && Cost(m.Keys, Prompts(requests), bs, |requests|) <= room
  {
    exists decoded :: && DecodeAnswer(Started(decoder, requests), decoder.draftWindow, draft, verify, decoded)
                      && BatchFinishes(m, maps, bs, room, requests, decoded, m', maps', r)
  }

  /** The whole sequences of a batch that got exactly what it asked for. */
  ghost function GreedyFulls(T: Target, requests: seq<BatchRequest>): (ks: seq<Key>)
    ensures |ks| == |requests|
  {
    seq(|requests|, i requires 0 <= i < |requests| => requests[i].prompt + Greedy(T, requests[i].prompt, requests[i].maxNew))
  }

  /** When one request is admitted and finished. */
  lemma OneRequestFits(T: Target, keys: set<Key>, request: BatchRequest, bs: nat, slots: nat, room: nat)
    requires bs > 0
    ensures var prompts, fulls, n := Prompts([request]), GreedyFulls(T, [request]), |request.prompt| + request.maxNew;
            (&& Admissible(keys, prompts, bs, slots, room, 1)
             && FinishFits(KeysAfter(keys, prompts, 1), fulls, bs, room - Cost(keys, prompts, bs, 1), 1))
            <==> request.prompt != [] && slots >= 1 && PromptPages(keys, request.prompt, bs) + PagesFor(n, bs) <= room
  {
    hide PagesFor, Greedy;
    var prompts, fulls := Prompts([request]), GreedyFulls(T, [request]);
    CostStart(keys, prompts, bs);
    CostStart(KeysAfter(keys, prompts, 1), fulls, bs);
    assert prompts[0] == request.prompt;
    CostNext(keys, prompts, bs, 0);
    assert |fulls[0]| == |request.prompt| + request.maxNew;
  }

  /** When two requests with one prompt are admitted: the prompt takes its pages once. */
  lemma SamePromptFits(keys: set<Key>, prompt: Key, bs: nat, slots: nat, room: nat)
    requires bs > 0
    ensures Admissible(keys, [prompt, prompt], bs, slots, room, 2) <==> prompt != [] && slots >= 2 && PromptPages(keys, prompt, bs) <= room
  {
    var prompts := [prompt, prompt];
    CostStart(keys, prompts, bs);
    CostNext(keys, prompts, bs, 0);
    CostNext(keys, prompts, bs, 1);
    assert prompt in KeysAfter(keys, prompts, 1);
  }

  lemma DoneFulls(T: Target, requests: seq<BatchRequest>, done: seq<Active>)
    requires |done| == |requests|
    requires forall i :: 0 <= i < |requests| ==>
      done[i].session.prompt == requests[i].prompt && done[i].generated == Greedy(T, requests[i].prompt, requests[i].maxNew)
    ensures Fulls(done) == GreedyFulls(T, requests)
  {
    hide Greedy;
  }

  /** What the requests found, in terms of the state before the batch. */
  lemma AdmittedPrefills(m: map<Key, Entry>, blocks: map<nat, KvBlock>, maps: map<nat, BlockMapping>, bs: nat, prompts: seq<Key>, free: seq<nat>,
                         admitted: seq<Admitted>, ps: seq<Prefilled>, m': map<Key, Entry>, maps': map<nat, BlockMapping>)
    requires Agree(m, blocks, maps, bs) && HandlesKept(m, m') && Kept(maps, maps')
    requires |admitted| == |prompts| == |ps| && |admitted| <= |free| && AdmittedSoFar(m.Keys, prompts, free, m', maps', admitted)
    requires forall i :: 0 <= i < |prompts| ==> prompts[i] != [] && ps[i] == admitted[i].prefill
    ensures forall i :: 0 <= i < |prompts| ==> BatchPrefilled(m, maps, prompts, ps, i)
  {
    hide Agree, HandlesKept, Kept, PrefilledOver, BatchPrefilled, KeysAfter, ServedBy;
    NoEmptyKey(m, blocks, maps, bs);
    forall k | k in m ensures m[k].handle.blockId in maps {
      EntryIsBacked(m, blocks, maps, bs, k);
    }
    forall j | 0 <= j < |prompts| ensures PrefilledOver(KeysAfter(m.Keys, prompts, j), m', maps', prompts[j], ps[j]) {
      assert AdmittedAs(m.Keys, prompts, free[j], m', maps', admitted[j], j);
    }
    forall i | 0 <= i < |prompts| ensures BatchPrefilled(m, maps, prompts, ps, i) {
      BatchPrefills(m, maps, prompts, ps, m', maps', i);
    }
  }

  lemma FailedBatch(m: map<Key, Entry>, maps: map<nat, BlockMapping>, bs: nat, room: nat, requests: seq<BatchRequest>, e: SpecError,
                    m': map<Key, Entry>, maps': map<nat, BlockMapping>)
    requires bs > 0 && Cost(m.Keys, Prompts(requests), bs, |requests|) <= room
    ensures BatchFinishes(m, maps, bs, room, requests, Err(e), m', maps', Err(SpeculativeError(e)))
  {
    hide Cost, KeysAfter;
  }

  lemma KeptKeys(m: map<Key, Entry>, m': map<Key, Entry>)
    requires HandlesKept(m, m')
    ensures m.Keys <= m'.Keys
  {}

  /** Decoding and finishing make up what the batch returns. */
  lemma FinishedBatch(m: map<Key, Entry>, maps: map<nat, BlockMapping>, bs: nat, room: nat, requests: seq<BatchRequest>, admitted: seq<Admitted>,
                      done: seq<Active>, m': map<Key, Entry>, maps': map<nat, BlockMapping>, r: Result<seq<EngineOutput>, EngineError>)
    requires bs > 0 && Cost(m.Keys, Prompts(requests), bs, |requests|) <= room
    requires |done| == |requests| == |admitted|
    requires var n := |requests|; var keys, left := KeysAfter(m.Keys, Prompts(requests), n), room - Cost(m.Keys, Prompts(requests), bs, n);
             && (r.Ok? <==> FinishFits(keys, Fulls(done), bs, left, n))
             && (r.Ok? ==> |r.value| == n && m'.Keys == KeysAfter(keys, Fulls(done), n) && FinishedSoFar(m', maps', bs, admitted, done, r.value))
             && (r.Err? ==> exists k: nat :: FinishStops(keys, Fulls(done), bs, left, k, r.error))
    requires r.Ok? ==> forall i :: 0 <= i < |requests| ==> BatchPrefilled(m, maps, Prompts(requests), Prefills(r.value), i)
    ensures BatchFinishes(m, maps, bs, room, requests, Ok(done), m', maps', r)
  {
    hide BatchPrefilled, InCache, OutputOf, KeysAfter, Cost, FinishFits, FinishStops, FinishedSoFar;
    if r.Ok? {
      EachFinished(m', maps', bs, admitted, done, r.value);
    }
  }

  lemma EachFinished(m: map<Key, Entry>, maps: map<nat, BlockMapping>, bs: nat, admitted: seq<Admitted>, done: seq<Active>, outputs: seq<EngineOutput>)
    requires |outputs| == |done| == |admitted| && bs > 0 && FinishedSoFar(m, maps, bs, admitted, done, outputs)
    ensures forall i :: 0 <= i < |outputs| ==>
      && outputs[i].prefill == admitted[i].prefill && outputs[i].tokens == done[i].generated
      && done[i].session.prompt + done[i].generated in m
      && OutputOf(outputs[i].prefill, done[i], bs, outputs[i]) && InCache(m, maps, Fulls(done), i, |outputs|, outputs[i])
  {
    hide Names;
  }
}
