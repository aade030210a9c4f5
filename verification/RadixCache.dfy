/** The radix prefix cache: a node arena updated in place, proved to behave as a plain map. */
module RadixCaches {
  import opened Common
  import opened RadixTree
  import opened PrefixMap
  import opened RadixWalk
  import opened RadixEvict

  datatype CacheLookup = CacheLookup(matchedTokens: nat, handle: Option<Handle>)
  datatype CacheInsert = CacheInsert(insertedTokens: nat, replaced: Option<Handle>, handle: Handle)

  method CommonPrefixLen(left: Key, right: Key) returns (n: nat)
    ensures n <= |left| && n <= |right| && left[..n] == right[..n]
    ensures n < |left| && n < |right| ==> left[n] != right[n]
  {
    n := 0;
    while n < |left| && n < |right| && left[n] == right[n]
      invariant n <= |left| && n <= |right| && left[..n] == right[..n]
    {
      n := n + 1;
    }
  }

  /** Stable insertion into a list sorted by tick. */
  function InsertByTick(vs: seq<Victim>, v: Victim): (r: seq<Victim>)
    ensures |r| == |vs| + 1 && forall x :: x in r <==> x in vs || x == v
  {
    if vs == [] || vs[|vs| - 1].tick <= v.tick then vs + [v]
    else
      assert vs == vs[..|vs| - 1] + [vs[|vs| - 1]];
      InsertByTick(vs[..|vs| - 1], v) + [vs[|vs| - 1]]
  }

  /** Inserting a victim from further along the arena keeps the order, ties by arena index. */
  lemma {:induction false} InsertByTickSorted(vs: seq<Victim>, v: Victim)
    requires SortedByTick(vs) && forall x :: x in vs ==> x.id < v.id
    ensures SortedByTick(InsertByTick(vs, v))
  {
    if vs == [] {
    } else if vs[|vs| - 1].tick <= v.tick {
      forall i | 0 <= i < |vs| ensures Before(vs[i], v) {
        assert vs[i] in vs;
        assert i < |vs| - 1 ==> Before(vs[i], vs[|vs| - 1]);
      }
    } else {
      var n := |vs| - 1;
      assert forall x :: x in vs[..n] ==> x in vs;
      InsertByTickSorted(vs[..n], v);
      var r := InsertByTick(vs[..n], v);
      forall i | 0 <= i < |r| ensures Before(r[i], vs[n]) {
        assert r[i] in r;
        if r[i] != v {
          var k :| 0 <= k < n && vs[k] == r[i];
        }
      }
    }
  }

  /** The arena's handles, coldest first, ties by arena index. */
  method CollectByTick(ns: seq<Node>) returns (vs: seq<Victim>)
    ensures Listing(ns, vs)
  {
    vs := [];
    for n := 0 to |ns|
      invariant SortedByTick(vs)
      invariant forall v :: v in vs <==> v.id < n && ns[v.id].handle == Some(v.handle) && ns[v.id].tick == v.tick
    {
      if ns[n].handle.Some? {
        var v := Victim(ns[n].tick, n, ns[n].handle.value);
        InsertByTickSorted(vs, v);
        vs := InsertByTick(vs, v);
      }
    }
  }

  class RadixCache {
    var nodes: seq<Node>
    var capacity: Option<nat>
    var resident: nat
    var clock: nat
    /** The key each node spells. */
    ghost var paths: seq<Key>

    /** The arena is a radix tree, handles are as long as their keys, `resident` counts the stored
        tokens and no node was accessed in the future. */
    ghost predicate Valid()
      reads this
    {
      && Tree(nodes, paths)
      && WellKept(Contents(), clock)
      && resident == KeyTokens(Contents().Keys)
    }

    /** The plain map this cache stands for. */
    ghost function Contents(): map<Key, Entry>
      reads this
      requires Tree(nodes, paths)
    {
      Entries(nodes, paths)
    }

    constructor ()
      ensures Valid() && Contents() == map[] && capacity == None && clock == 1
    {
      nodes := [Node([], map[], None, 0, 0)];
      capacity := None;
      resident := 0;
      clock := 1;
      paths := [[]];
    }

    /** Longest-prefix lookup. It touches exactly the stored prefixes of the query and nothing else. */
    method Lookup(tokens: Key) returns (r: CacheLookup)
      requires Valid()
      modifies this`nodes, this`clock
      ensures Valid() && clock == SatInc(old(clock))
      ensures LookupAnswer(old(Contents()), tokens, r.matchedTokens, r.handle)
      ensures Contents() == Touch(old(Contents()), tokens, clock)
      ensures Contents().Keys == old(Contents()).Keys
      ensures forall k :: k in Contents() ==>
        && Contents()[k].handle == old(Contents())[k].handle
        && Contents()[k].tick == if k <= tokens then clock else old(Contents())[k].tick
    {
      hide Entries, Distinct, Dense, Edges, LookupAnswer, BestSoFar, Touched, Touch, WellKept;
      TouchRefreshes(Contents(), tokens, SatInc(clock), clock);
      clock := SatInc(clock);
      ghost var ns0 := nodes;
      var node, cursor := 0, 0;
      var best: Option<Found> := if nodes[0].handle.Some? then Some(Found(0, nodes[0].handle.value)) else None;
      BestAtRoot(nodes, paths, tokens);
      TouchedRoot(nodes, paths, tokens, clock, SatInc(nodes[0].hits));
      nodes := nodes[0 := nodes[0].(tick := clock, hits := SatInc(nodes[0].hits))];
      while cursor < |tokens|
        modifies this`nodes
        invariant 0 <= node < |ns0| && cursor <= |tokens| && paths[node] == tokens[..cursor]
        invariant Touched(ns0, paths, nodes, tokens, cursor, clock)
        invariant BestSoFar(Entries(ns0, paths), tokens, cursor, best)
      {
        TouchedAt(ns0, paths, nodes, tokens, cursor, clock, node);
        if tokens[cursor] !in nodes[node].children {
          break;
        }
        var child := nodes[node].children[tokens[cursor]];
        ChildAt(ns0, paths, node, tokens[cursor]);
        TouchedAt(ns0, paths, nodes, tokens, cursor, clock, child);
        var matched := CommonPrefixLen(tokens[cursor..], nodes[child].edge);
        if matched < |nodes[child].edge| {
          Mismatch(ns0, paths, node, child, tokens, cursor, matched);
          break;
        }
        EdgeStep(ns0, paths, nodes, node, child, tokens, cursor, best, clock, SatInc(nodes[child].hits));
        cursor := cursor + matched;
        node := child;
        nodes := nodes[node := nodes[node].(tick := clock, hits := SatInc(nodes[node].hits))];
        if nodes[node].handle.Some? {
          best := Some(Found(cursor, nodes[node].handle.value));
        }
      }
      WalkDone(ns0, paths, nodes, node, tokens, cursor, best, clock);
      BestIsAnswer(Entries(ns0, paths), tokens, best);
      r := match best
        case Some(b) => CacheLookup(b.len, Some(b.handle))
        case None => CacheLookup(0, None);
    }

    /** Cut the edge from `parent` to `child` after `at` tokens. No stored key changes. */
    method SplitChild(parent: nat, child: nat, at: nat) returns (split: nat)
      requires SplitPoint(nodes, paths, parent, child, at)
      modifies this`nodes, this`paths
      ensures Tree(nodes, paths) && Grown(old(nodes), old(paths), nodes, paths, clock)
      ensures split < |nodes| && paths[split] == old(CutKey(nodes, paths, parent, child, at))
    {
      hide Entries, Distinct, Dense, Edges;
      ghost var ns0 := nodes;
      SplitKeepsTree(nodes, paths, parent, child, at, clock);
      paths := paths + [CutKey(nodes, paths, parent, child, at)];
      var oldFirst := nodes[child].edge[0];
      var suffix, prefix := nodes[child].edge[at..], nodes[child].edge[..at];
      nodes := nodes[child := nodes[child].(edge := suffix)];
      var newFirst := nodes[child].edge[0];
      split := |nodes|;
      nodes := nodes + [Node(prefix, map[newFirst := child], None, clock, nodes[child].hits)];
      nodes := nodes[parent := nodes[parent].(children := nodes[parent].children[oldFirst := split])];
      assert nodes == Split(ns0, parent, child, at, clock);
    }

    /** Find or make the node spelling `tokens` below `parent`. */
    method InsertFrom(parent: nat, tokens: Key) returns (leaf: nat)
      requires Tree(nodes, paths) && parent < |nodes|
      modifies this`nodes, this`paths
      ensures Tree(nodes, paths) && Grown(old(nodes), old(paths), nodes, paths, clock)
      ensures leaf < |nodes| && paths[leaf] == old(paths[parent]) + tokens
      decreases |tokens|
    {
      hide Entries, Distinct, Dense, Edges;
      if tokens == [] {
        return parent;
      }
      if tokens[0] !in nodes[parent].children {
        ghost var ns0 := nodes;
        AttachKeepsTree(nodes, paths, parent, tokens, clock);
        paths := paths + [paths[parent] + tokens];
        leaf := |nodes|;
        nodes := nodes + [Node(tokens, map[], None, clock, 0)];
        nodes := nodes[parent := nodes[parent].(children := nodes[parent].children[tokens[0] := leaf])];
        assert nodes == Attach(ns0, parent, tokens, clock);
        return;
      }
      var child := nodes[parent].children[tokens[0]];
      ChildAt(nodes, paths, parent, tokens[0]);
      var common := CommonPrefixLen(tokens, nodes[child].edge);
      assert tokens == tokens[..common] + tokens[common..];
      assert common > 0;
      if common == |nodes[child].edge| {
        leaf := InsertFrom(child, tokens[common..]);
        return;
      }
      var split := SplitChild(parent, child, common);
      if common == |tokens| {
        leaf := split;
      } else {
        leaf := InsertFrom(split, tokens[common..]);
      }
    }

    /** The part of an insertion before eviction: find the node, swap its handle, count its tokens. */
    method Place(tokens: Key, handle: Handle) returns (replaced: Option<Handle>)
      requires Valid() && |tokens| == handle.tokenLen
      modifies this`nodes, this`paths, this`resident, this`clock
      ensures Valid() && clock == SatInc(old(clock))
      ensures replaced == if tokens in old(Contents()) then Some(old(Contents())[tokens].handle) else None
      ensures Contents() == Inserted(old(Contents()), tokens, handle, clock)
      ensures tokens in Contents() && Contents()[tokens].tick == clock
      ensures forall k :: k in Contents() && k != tokens ==> Contents()[k].tick <= old(clock) || k == []
    {
      hide Entries, Distinct, Dense, Edges;
      ghost var m0 := Contents();
      clock := SatInc(clock);
      TouchRoot(nodes, paths, clock, SatInc(nodes[0].hits));
      nodes := nodes[0 := nodes[0].(tick := clock, hits := SatInc(nodes[0].hits))];
      ghost var ns1, ps1 := nodes, paths;
      var leaf := InsertFrom(0, tokens);
      GrownKeepsEntries(ns1, ps1, nodes, paths, clock);
      assert paths[leaf] == tokens;
      replaced := nodes[leaf].handle;
      StoreHandle(nodes, paths, leaf, handle, clock, SatInc(nodes[leaf].hits));
      nodes := nodes[leaf := nodes[leaf].(handle := Some(handle), tick := clock, hits := SatInc(nodes[leaf].hits))];
      InsertedTokens(m0, tokens, handle, clock);
      if replaced.Some? {
        resident := SatSub(resident, replaced.value.tokenLen);
      }
      resident := resident + handle.tokenLen;
    }

    /** Store `handle` under `tokens`: a map update, followed by eviction down to capacity. */
    method Insert(tokens: Key, handle: Handle) returns (r: CacheInsert, ghost gone: seq<Key>)
      requires Valid() && |tokens| == handle.tokenLen
      modifies this`nodes, this`paths, this`resident, this`clock
      ensures Valid() && clock == SatInc(old(clock))
      ensures r.insertedTokens == |tokens| && r.handle == handle
      ensures r.replaced == if tokens in old(Contents()) then Some(old(Contents())[tokens].handle) else None
      ensures var m := Inserted(old(Contents()), tokens, handle, clock);
              && Contents() == m - SetOf(gone)
              && (if Over(KeyTokens(m.Keys), capacity) then ColdestFirst(m, gone, KeyTokens(m.Keys) - capacity.value) else gone == [])
      ensures capacity.Some? ==> resident <= capacity.value
      ensures old(clock) < U64_MAX && (capacity.Some? ==> |tokens| <= capacity.value) ==> tokens in Contents()
    {
      hide Entries, Distinct, Dense, Edges, ColdestFirst, Inserted;
      var replaced := Place(tokens, handle);
      ghost var m := Contents();
      gone := EvictToCapacity();
      if old(clock) < U64_MAX && Over(KeyTokens(m.Keys), capacity) && |tokens| <= capacity.value {
        NewestKeySurvives(m, gone, capacity.value, tokens);
      }
      r := CacheInsert(|tokens|, replaced, handle);
    }

    /** Clear one victim's handle, if it is still there. */
    method DropVictim(v: Victim) returns (freed: nat)
      requires Tree(nodes, paths) && v.id < |nodes| && nodes[v.id].handle == Some(v.handle)
      requires v.handle.tokenLen == |paths[v.id]| && resident == KeyTokens(Contents().Keys)
      modifies this`nodes, this`resident
      ensures Tree(nodes, paths) && |nodes| == |old(nodes)| && Contents() == old(Contents()) - {paths[v.id]}
      ensures resident == KeyTokens(Contents().Keys) && freed == |paths[v.id]| && resident + freed == old(resident)
    {
      hide Entries, Distinct, Dense, Edges, KeyTokens;
      freed := 0;
      if nodes[v.id].handle == Some(v.handle) {
        ClearHandle(nodes, paths, v.id);
        StoredKey(nodes, paths, v.id);
        KeyTokensRemove(Contents().Keys, paths[v.id]);
        assert (Contents() - {paths[v.id]}).Keys == Contents().Keys - {paths[v.id]};
        nodes := nodes[v.id := nodes[v.id].(handle := None)];
        resident := SatSub(resident, v.handle.tokenLen);
        freed := v.handle.tokenLen;
      }
    }

    /** One step of the sweep: victim `k` goes. */
    method SweepOne(vs: seq<Victim>, k: nat, ghost ns0: seq<Node>) returns (more: nat)
      requires Tree(ns0, paths) && Listing(ns0, vs) && k < |vs| && |nodes| == |ns0| && Tree(nodes, paths)
      requires WellKept(Entries(ns0, paths), clock) && Contents() == Entries(ns0, paths) - SetOf(KeysOf(ns0, paths, vs, k))
      requires resident == KeyTokens(Contents().Keys)
      modifies this`nodes, this`resident
      ensures |nodes| == |ns0| && Tree(nodes, paths)
      ensures Contents() == Entries(ns0, paths) - SetOf(KeysOf(ns0, paths, vs, k + 1))
      ensures resident == KeyTokens(Contents().Keys) && resident + more == old(resident)
      ensures KeyTokensSeq(KeysOf(ns0, paths, vs, k + 1)) == KeyTokensSeq(KeysOf(ns0, paths, vs, k)) + more
    {
      hide Entries, Distinct, Dense, Edges, Listing, KeyTokens, KeyTokensSeq;
      var v := vs[k];
      ghost var gone := KeysOf(ns0, paths, vs, k);
      ListedAt(ns0, vs, k);
      KeysOfFacts(ns0, paths, vs, k);
      HandleAt(ns0, paths, nodes, gone, v);
      ListedIsStored(ns0, paths, v);
      DropOne(Entries(ns0, paths), gone, paths[v.id]);
      more := DropVictim(v);
    }

    /** Drop entries, least recently accessed first and ties by arena index, until `need` tokens are freed. */
    method EvictColdest(need: nat) returns (evicted: seq<Handle>, ghost gone: seq<Key>)
      requires Valid()
      modifies this`nodes, this`resident
      ensures Valid()
      ensures ColdestFirst(old(Contents()), gone, need)
      ensures Contents() == old(Contents()) - SetOf(gone)
      ensures resident == old(resident) - KeyTokensSeq(gone)
      ensures |evicted| == |gone| && forall i :: 0 <= i < |gone| ==> evicted[i] == old(Contents())[gone[i]].handle
      ensures exists vs: seq<Victim> :: Listing(old(nodes), vs) && |gone| <= |vs| && gone == KeysOf(old(nodes), paths, vs, |gone|)
    {
      hide Entries, Distinct, Dense, Edges, Listing, ColdestFirst, KeyTokens, KeyTokensSeq, WellKept, Lists;
      ghost var ns0, m0 := nodes, Contents();
      var vs := CollectByTick(nodes);
      evicted, gone := [], [];
      var freed, k := 0, 0;
      NothingGone(m0);
      NoTokens();
      while k < |vs| && freed < need
        modifies this`nodes, this`resident
        invariant k <= |vs| && |nodes| == |ns0| && Tree(nodes, paths)
        invariant gone == KeysOf(ns0, paths, vs, k) && freed == KeyTokensSeq(gone)
        invariant k > 0 ==> KeyTokensSeq(KeysOf(ns0, paths, vs, k - 1)) < need
        invariant Contents() == m0 - SetOf(gone)
        invariant resident == KeyTokens(Contents().Keys) && resident + freed == old(resident)
        invariant |evicted| == k && forall i :: 0 <= i < k ==> evicted[i] == vs[i].handle
      {
        var more := SweepOne(vs, k, ns0);
        freed := freed + more;
        evicted := evicted + [vs[k].handle];
        k := k + 1;
        gone := KeysOf(ns0, paths, vs, k);
      }
      SweepDone(ns0, paths, vs, k, need);
      KeysOfFacts(ns0, paths, vs, k);
      KeptLess(m0, SetOf(gone), clock);
    }

    /** Bring the cache back within its capacity. */
    method EvictToCapacity() returns (ghost gone: seq<Key>)
      requires Valid()
      modifies this`nodes, this`resident
      ensures Valid() && Contents() == old(Contents()) - SetOf(gone)
      ensures if Over(old(resident), capacity)
              then ColdestFirst(old(Contents()), gone, old(resident) - capacity.value) else gone == []
      ensures capacity.Some? ==> resident <= capacity.value
    {
      hide Entries, Distinct, Dense, Edges, ColdestFirst, Listing, KeysOf, KeyTokens, WellKept;
      gone := [];
      if capacity.Some? && resident > capacity.value {
        ghost var m0 := Contents();
        var overflow := resident - capacity.value;
        var evicted;
        evicted, gone := EvictColdest(overflow);
        EvictionFits(m0, gone, capacity.value);
        assert (m0 - SetOf(gone)).Keys == m0.Keys - SetOf(gone);
      } else {
        assert Contents() - SetOf([]) == Contents();
      }
    }

    method SetCapacityTokens(cap: Option<nat>) returns (ghost gone: seq<Key>)
      requires Valid()
      modifies this`nodes, this`resident, this`capacity
      ensures Valid() && capacity == cap && Contents() == old(Contents()) - SetOf(gone)
      ensures if Over(old(resident), cap)
              then ColdestFirst(old(Contents()), gone, old(resident) - cap.value) else gone == []
      ensures cap.Some? ==> resident <= cap.value
    {
      capacity := cap;
      gone := EvictToCapacity();
    }
  }

  ghost predicate Over(resident: nat, cap: Option<nat>) {
    cap.Some? && resident > cap.value
  }
}
