/** The plain map a prefix cache stands for: keys to entries, longest-prefix lookup, and
    eviction in order of last access. Nothing here mentions a tree. */
module PrefixMap {
  import opened Common
  import opened RadixTree

  /** Handles are as long as their keys, and nothing was accessed in the future. */
  ghost predicate WellKept(m: map<Key, Entry>, clock: nat) {
    forall k :: k in m ==> m[k].handle.tokenLen == |k| && m[k].tick <= clock
  }

  lemma KeptLess(m: map<Key, Entry>, gone: set<Key>, clock: nat)
    requires WellKept(m, clock)
    ensures WellKept(m - gone, clock)
  {}

  /** Refresh the entry of every stored prefix of `q`. */
  ghost function Touch(m: map<Key, Entry>, q: Key, tick: nat): map<Key, Entry> {
    map k | k in m :: if k <= q then Entry(m[k].handle, tick) else m[k]
  }

  /** A lookup refreshes the stored prefixes of its query, and nothing else. */
  lemma TouchRefreshes(m: map<Key, Entry>, q: Key, tick: nat, clock: nat)
    requires WellKept(m, clock) && clock <= tick
    ensures var m' := Touch(m, q, tick);
            && WellKept(m', tick) && m'.Keys == m.Keys
            && forall k :: k in m ==> m'[k].handle == m[k].handle && m'[k].tick == if k <= q then tick else m[k].tick
  {}

  /** The map after an insertion: the root key, a prefix of everything, is refreshed on the way. */
  ghost function Inserted(m: map<Key, Entry>, key: Key, h: Handle, tick: nat): map<Key, Entry> {
    Touch(m, [], tick)[key := Entry(h, tick)]
  }

  /** `n` is the length of the longest stored prefix of `q`. */
  ghost predicate IsLongest(m: map<Key, Entry>, q: Key, n: nat) {
    && n <= |q|
    && q[..n] in m
    && forall i :: n < i <= |q| ==> q[..i] !in m
  }

  /** What a longest-prefix lookup answers: the longest stored prefix with its handle, or nothing. */
  ghost predicate LookupAnswer(m: map<Key, Entry>, q: Key, n: nat, h: Option<Handle>) {
    if h.Some? then IsLongest(m, q, n) && m[q[..n]].handle == h.value
    else n == 0 && forall i :: 0 <= i <= |q| ==> q[..i] !in m
  }

  /** The answer is determined by the map and the query. */
  lemma LookupDeterministic(m: map<Key, Entry>, q: Key, n: nat, h: Option<Handle>, n': nat, h': Option<Handle>)
    requires LookupAnswer(m, q, n, h) && LookupAnswer(m, q, n', h')
    ensures n == n' && h == h'
  {}

  /** Total length of a finite set of keys. */
  ghost function KeyTokens(ks: set<Key>): nat {
    if ks == {} then 0 else var k :| k in ks; |k| + KeyTokens(ks - {k})
  }

  lemma {:induction false} KeyTokensRemove(ks: set<Key>, x: Key)
    requires x in ks
    ensures KeyTokens(ks) == |x| + KeyTokens(ks - {x})
    decreases ks
  {
    var k :| k in ks && KeyTokens(ks) == |k| + KeyTokens(ks - {k});
    if k != x {
      KeyTokensRemove(ks - {k}, x);
      KeyTokensRemove(ks - {x}, k);
      assert ks - {k} - {x} == ks - {x} - {k};
    }
  }

  ghost function KeyTokensSeq(ks: seq<Key>): nat {
    if ks == [] then 0 else KeyTokensSeq(ks[..|ks| - 1]) + |ks[|ks| - 1]|
  }

  lemma {:induction false} KeyTokensSubtract(ks: set<Key>, gone: seq<Key>)
    requires Distinct(gone) && SetOf(gone) <= ks
    ensures KeyTokens(ks - SetOf(gone)) + KeyTokensSeq(gone) == KeyTokens(ks)
  {
    if gone == [] {
      assert ks - SetOf(gone) == ks;
    } else {
      var n := |gone| - 1;
      KeyTokensSubtract(ks, gone[..n]);
      assert gone[n] in SetOf(gone) && gone[n] !in SetOf(gone[..n]);
      assert ks - SetOf(gone) == ks - SetOf(gone[..n]) - {gone[n]};
      KeyTokensRemove(ks - SetOf(gone[..n]), gone[n]);
    }
  }

  lemma NoTokens()
    ensures KeyTokensSeq([]) == 0
  {}

  lemma NothingGone(m: map<Key, Entry>)
    ensures m - SetOf([]) == m
  {}

  /** `gone` lists the keys dropped from `m` to free `need` tokens: coldest first, none warmer
      than a survivor, and no further than necessary. */
  ghost predicate ColdestFirst(m: map<Key, Entry>, gone: seq<Key>, need: nat) {
    && Distinct(gone)
    && SetOf(gone) <= m.Keys
    && (forall i, j :: 0 <= i < j < |gone| ==> m[gone[i]].tick <= m[gone[j]].tick)
    && (forall i, k :: 0 <= i < |gone| && k in m.Keys - SetOf(gone) ==> m[gone[i]].tick <= m[k].tick)
    && (gone != [] ==> KeyTokensSeq(gone[..|gone| - 1]) < need)
    && (KeyTokensSeq(gone) >= need || SetOf(gone) == m.Keys)
  }

  /** Dropping the overflow coldest-first always lands at or below the capacity. */
  lemma EvictionFits(m: map<Key, Entry>, gone: seq<Key>, cap: nat)
    requires KeyTokens(m.Keys) > cap && ColdestFirst(m, gone, KeyTokens(m.Keys) - cap)
    ensures KeyTokens(m.Keys - SetOf(gone)) <= cap
  {
    KeyTokensSubtract(m.Keys, gone);
    if SetOf(gone) == m.Keys {
      assert m.Keys - SetOf(gone) == {};
    }
  }

  /** A looked-up prefix outlives every entry last accessed before the lookup and not part of it. */
  lemma LookupProtects(m: map<Key, Entry>, q: Key, clock: nat, gone: seq<Key>, need: nat, k: Key, other: Key)
    requires WellKept(m, clock) && ColdestFirst(Touch(m, q, clock + 1), gone, need)
    requires k in m && k <= q && other in m && !(other <= q) && k in gone
    ensures other in gone
  {
    hide KeyTokensSeq, Distinct, ColdestFirst;
    var i: nat :| i < |gone| && gone[i] == k;
    if other !in gone {
      AsWarm(Touch(m, q, clock + 1), gone, need, i, other);
    }
  }

  /** An eviction drops something exactly when something is asked for and something is stored. */
  lemma DropsSomething(m: map<Key, Entry>, gone: seq<Key>, need: nat)
    requires ColdestFirst(m, gone, need)
    ensures SetOf(gone) <= m.Keys && (SetOf(gone) == {} <==> need == 0 || m == map[])
    ensures KeyTokens(m.Keys) > 0 ==> m != map[]
  {
    if gone != [] {
      assert gone[0] in SetOf(gone);
    }
    if m.Keys == {} {
      assert m == map[];
    }
  }

  /** Everything dropped after `gone[i]`, and everything kept, is at least as warm. */
  lemma AsWarm(m: map<Key, Entry>, gone: seq<Key>, need: nat, i: nat, k: Key)
    requires ColdestFirst(m, gone, need) && i < |gone| && k in m && k !in SetOf(gone[..i]) && k != gone[i]
    ensures m[gone[i]].tick <= m[k].tick
  {
    hide KeyTokensSeq;
    assert forall j :: 0 <= j < i ==> gone[j] in SetOf(gone[..i]);
    if k in gone {
      var j: nat :| j < |gone| && gone[j] == k;
    } else {
      assert k in m.Keys - SetOf(gone);
    }
  }

  /** The most recently touched key survives if it fits, provided only zero-length keys share its tick. */
  lemma NewestKeySurvives(m: map<Key, Entry>, gone: seq<Key>, cap: nat, newest: Key)
    requires KeyTokens(m.Keys) > cap && ColdestFirst(m, gone, KeyTokens(m.Keys) - cap)
    requires newest in m && |newest| <= cap
    requires forall k :: k in m && k != newest ==> m[k].tick < m[newest].tick || k == []
    ensures newest !in gone
  {
    hide ColdestFirst, KeyTokensSeq, KeyTokens, Distinct;
    ColdestFacts(m, gone, KeyTokens(m.Keys) - cap);
    if newest in gone {
      var i: nat :| 0 <= i < |gone| && gone[i] == newest;
      var rest := m.Keys - SetOf(gone[..i]) - {newest};
      forall k | k in rest ensures k == [] {
        AsWarm(m, gone, KeyTokens(m.Keys) - cap, i, k);
      }
      EmptyKeysWeighNothing(rest);
      DistinctPrefix(gone, i);
      KeyTokensRemove(m.Keys - SetOf(gone[..i]), newest);
      KeyTokensSubtract(m.Keys, gone[..i]);
      PrefixTokens(gone, i);
    }
  }

  lemma ColdestFacts(m: map<Key, Entry>, gone: seq<Key>, need: nat)
    requires ColdestFirst(m, gone, need)
    ensures Distinct(gone) && SetOf(gone) <= m.Keys
    ensures gone != [] ==> KeyTokensSeq(gone[..|gone| - 1]) < need
  {}

  lemma DistinctPrefix(gone: seq<Key>, i: nat)
    requires Distinct(gone) && i < |gone|
    ensures Distinct(gone[..i]) && gone[i] !in SetOf(gone[..i]) && SetOf(gone[..i]) <= SetOf(gone)
  {}

  lemma EmptyKeysWeighNothing(ks: set<Key>)
    requires forall k :: k in ks ==> k == []
    ensures KeyTokens(ks) == 0
  {
    if ks != {} {
      KeyTokensRemove(ks, []);
      assert ks - {[]} == {};
    }
  }

  lemma {:induction false} PrefixTokens(gone: seq<Key>, i: nat)
    requires i < |gone|
    ensures KeyTokensSeq(gone[..i]) <= KeyTokensSeq(gone[..|gone| - 1])
  {
    var n := |gone| - 1;
    if i < n {
      PrefixTokens(gone[..n], i);
      assert gone[..n][..i] == gone[..i];
      assert gone[..n][..n - 1] == gone[..n - 1];
    }
  }

  /** An insertion adds its key's length unless the key was there, and keeps the map well kept. */
  lemma InsertedTokens(m: map<Key, Entry>, key: Key, h: Handle, tick: nat)
    requires h.tokenLen == |key| && WellKept(m, tick)
    ensures WellKept(Inserted(m, key, h, tick), tick)
    ensures KeyTokens(Inserted(m, key, h, tick).Keys) == KeyTokens(m.Keys) + if key in m then 0 else |key|
    ensures key in m ==> |key| <= KeyTokens(m.Keys)
  {
    var m' := Inserted(m, key, h, tick);
    assert m'.Keys == m.Keys + {key};
    if key in m {
      assert m'.Keys == m.Keys;
      KeyTokensRemove(m.Keys, key);
    } else {
      KeyTokensRemove(m'.Keys, key);
      assert m'.Keys - {key} == m.Keys;
    }
  }
}
