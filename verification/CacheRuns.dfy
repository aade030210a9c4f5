/** Whole runs of the prefix cache: every run of the radix tree is a run of the plain map. */
module CacheRuns {
  import opened Common
  import opened RadixTree
  import opened PrefixMap
  import opened RadixEvict
  import opened RadixCaches

  datatype Op =
    | Put(key: Key, handle: Handle)
    | Get(query: Key)
    | SetCap(cap: Option<nat>)
    | Evict(need: nat)

  datatype Out =
    | Replaced(previous: Option<Handle>)
    | Answer(lookup: CacheLookup)
    | Evicted(handles: seq<Handle>)
    | Done

  /** The plain map with its capacity and clock. */
  datatype Plain = Plain(m: map<Key, Entry>, cap: Option<nat>, clock: nat)

  /** `m'` is `m` brought down to `cap`, coldest entries first. */
  ghost predicate Trimmed(m: map<Key, Entry>, cap: Option<nat>, m': map<Key, Entry>) {
    if Over(KeyTokens(m.Keys), cap)
    then exists gone :: ColdestFirst(m, gone, KeyTokens(m.Keys) - cap.value) && m' == m - SetOf(gone)
    else m' == m
  }

  /** The handles of the dropped keys, in order. */
  ghost predicate Reports(m: map<Key, Entry>, gone: seq<Key>, out: Out) {
    && out.Evicted? && |out.handles| == |gone|
    && forall i :: 0 <= i < |gone| ==> gone[i] in m && out.handles[i] == m[gone[i]].handle
  }

  ghost predicate PlainStep(s: Plain, op: Op, out: Out, s': Plain) {
    match op
    case Put(key, handle) =>
      && s'.clock == SatInc(s.clock) && s'.cap == s.cap
      && out == Replaced(if key in s.m then Some(s.m[key].handle) else None)
      && Trimmed(Inserted(s.m, key, handle, s'.clock), s.cap, s'.m)
    case Get(query) =>
      && s'.clock == SatInc(s.clock) && s'.cap == s.cap
      && out.Answer? && LookupAnswer(s.m, query, out.lookup.matchedTokens, out.lookup.handle)
      && s'.m == Touch(s.m, query, s'.clock)
    case SetCap(cap) =>
      && s'.clock == s.clock && s'.cap == cap && out == Done
      && Trimmed(s.m, cap, s'.m)
    case Evict(need) =>
      && s'.clock == s.clock && s'.cap == s.cap
      && exists gone :: ColdestFirst(s.m, gone, need) && s'.m == s.m - SetOf(gone) && Reports(s.m, gone, out)
  }

  ghost predicate PlainRun(ops: seq<Op>, outs: seq<Out>, states: seq<Plain>) {
    && |outs| == |ops| && |states| == |ops| + 1
    && states[0] == Plain(map[], None, 1)
    && forall i :: 0 <= i < |ops| ==> PlainStep(states[i], ops[i], outs[i], states[i + 1])
  }

  /** The one demand `insert` makes of its caller. */
  predicate Legal(op: Op) {
    op.Put? ==> |op.key| == op.handle.tokenLen
  }

  method Apply(cache: RadixCache, op: Op) returns (out: Out)
    requires cache.Valid() && Legal(op)
    modifies cache
    ensures cache.Valid()
    ensures PlainStep(old(Plain(cache.Contents(), cache.capacity, cache.clock)), op, out,
                      Plain(cache.Contents(), cache.capacity, cache.clock))
  {
    hide Entries, Distinct, Dense, Edges, ColdestFirst, Inserted, Touch, LookupAnswer, Listing, KeysOf, WellKept, KeyTokens, KeyTokensSeq;
    ghost var gone;
    match op
    case Put(key, handle) =>
      var r;
      r, gone := cache.Insert(key, handle);
      out := Replaced(r.replaced);
      NothingGone(Inserted(old(cache.Contents()), key, handle, cache.clock));
    case Get(query) =>
      var r := cache.Lookup(query);
      out := Answer(r);
    case SetCap(cap) =>
      gone := cache.SetCapacityTokens(cap);
      out := Done;
      NothingGone(old(cache.Contents()));
    case Evict(need) =>
      var evicted;
      evicted, gone := cache.EvictColdest(need);
      out := Evicted(evicted);
      ColdestStored(old(cache.Contents()), gone, need);
  }

  lemma ColdestStored(m: map<Key, Entry>, gone: seq<Key>, need: nat)
    requires ColdestFirst(m, gone, need)
    ensures forall i :: 0 <= i < |gone| ==> gone[i] in m
  {
    assert forall i :: 0 <= i < |gone| ==> gone[i] in SetOf(gone);
  }

  /** Any sequence of operations on a fresh radix cache is a run of the plain map. */
  method Replay(ops: seq<Op>) returns (outs: seq<Out>)
    requires forall i :: 0 <= i < |ops| ==> Legal(ops[i])
    ensures exists states: seq<Plain> :: PlainRun(ops, outs, states)
  {
    hide Entries, Distinct, Dense, Edges, WellKept, PlainStep;
    var cache := new RadixCache();
    outs := [];
    ghost var states := [Plain(cache.Contents(), cache.capacity, cache.clock)];
    for n := 0 to |ops|
      invariant cache.Valid()
      invariant PlainRun(ops[..n], outs, states)
      invariant states[n] == Plain(cache.Contents(), cache.capacity, cache.clock)
      invariant fresh(cache)
    {
      var out := Apply(cache, ops[n]);
      ghost var s := Plain(cache.Contents(), cache.capacity, cache.clock);
      RunSnoc(ops[..n], outs, states, ops[n], out, s);
      assert ops[..n + 1] == ops[..n] + [ops[n]];
      outs := outs + [out];
      states := states + [s];
    }
    assert ops[..|ops|] == ops;
  }

  lemma RunSnoc(ops: seq<Op>, outs: seq<Out>, states: seq<Plain>, op: Op, out: Out, s: Plain)
    requires PlainRun(ops, outs, states) && PlainStep(states[|ops|], op, out, s)
    ensures PlainRun(ops + [op], outs + [out], states + [s])
  {}

  /** The latest handle put under each key. */
  ghost function LastPuts(ops: seq<Op>): map<Key, Handle> {
    if ops == [] then map[]
    else
      var n := |ops| - 1;
      match ops[n]
      case Put(key, handle) => LastPuts(ops[..n])[key := handle]
      case _ => LastPuts(ops[..n])
  }

  /** Without a capacity or explicit eviction, the cache holds exactly the latest put of every key. */
  lemma {:induction false} UnboundedRunKeepsPuts(ops: seq<Op>, outs: seq<Out>, states: seq<Plain>)
    requires PlainRun(ops, outs, states)
    requires forall i :: 0 <= i < |ops| ==> ops[i].Put? || ops[i].Get?
    ensures states[|ops|].cap == None
    ensures states[|ops|].m.Keys == LastPuts(ops).Keys
    ensures forall k :: k in LastPuts(ops) ==> states[|ops|].m[k].handle == LastPuts(ops)[k]
  {
    if ops != [] {
      var n := |ops| - 1;
      assert PlainStep(states[n], ops[n], outs[n], states[n + 1]);
      assert PlainRun(ops[..n], outs[..n], states[..n + 1]);
      UnboundedRunKeepsPuts(ops[..n], outs[..n], states[..n + 1]);
    }
  }

  /** In every run, whenever a capacity is set the stored keys fit in it. */
  lemma {:induction false} RunWithinCapacity(ops: seq<Op>, outs: seq<Out>, states: seq<Plain>)
    requires PlainRun(ops, outs, states)
    ensures var s := states[|ops|]; s.cap.Some? ==> KeyTokens(s.m.Keys) <= s.cap.value
  {
    if ops != [] {
      var n := |ops| - 1;
      var s, s' := states[n], states[n + 1];
      assert PlainStep(s, ops[n], outs[n], s');
      assert PlainRun(ops[..n], outs[..n], states[..n + 1]);
      RunWithinCapacity(ops[..n], outs[..n], states[..n + 1]);
      match ops[n]
      case Put(key, handle) => TrimmedFits(Inserted(s.m, key, handle, s'.clock), s'.cap, s'.m);
      case Get(query) => assert s'.m.Keys == s.m.Keys;
      case SetCap(cap) => TrimmedFits(s.m, cap, s'.m);
      case Evict(need) =>
        var gone :| ColdestFirst(s.m, gone, need) && s'.m == s.m - SetOf(gone) && Reports(s.m, gone, outs[n]);
        KeyTokensSubtract(s.m.Keys, gone);
        assert s'.m.Keys == s.m.Keys - SetOf(gone);
    }
  }

  lemma TrimmedFits(m: map<Key, Entry>, cap: Option<nat>, m': map<Key, Entry>)
    requires Trimmed(m, cap, m')
    ensures cap.Some? ==> KeyTokens(m'.Keys) <= cap.value
  {
    if Over(KeyTokens(m.Keys), cap) {
      var gone :| ColdestFirst(m, gone, KeyTokens(m.Keys) - cap.value) && m' == m - SetOf(gone);
      EvictionFits(m, gone, cap.value);
      assert m'.Keys == m.Keys - SetOf(gone);
    }
  }
}
