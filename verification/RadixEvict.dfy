/** Changing one node's handle, and the eviction sweep over nodes ordered by last access. */
module RadixEvict {
  import opened Common
  import opened RadixTree
  import opened PrefixMap
  import opened RadixWalk

  /** Giving node `i` a handle stores its key; what it held before is what the map held. */
  lemma StoreHandle(ns: seq<Node>, ps: seq<Key>, i: nat, h: Handle, tick: nat, hits: nat)
    requires Tree(ns, ps) && i < |ns|
    ensures var ns' := ns[i := ns[i].(handle := Some(h), tick := tick, hits := hits)];
            Tree(ns', ps) && Entries(ns', ps) == Entries(ns, ps)[ps[i] := Entry(h, tick)]
    ensures ns[i].handle == if ps[i] in Entries(ns, ps) then Some(Entries(ns, ps)[ps[i]].handle) else None
  {
    var ns' := ns[i := ns[i].(handle := Some(h), tick := tick, hits := hits)];
    SameShape(ns, ps, ns');
    var m, m' := Entries(ns, ps)[ps[i] := Entry(h, tick)], Entries(ns', ps);
    assert ns'[i].handle.Some?;
    forall k | k in m ensures k in m' && m'[k] == m[k] {
      if k != ps[i] {
        var j := StoredAt(ns, ps, k);
        assert ns'[j].handle.Some?;
      }
    }
    forall k | k in m' ensures k in m {
      var j := StoredAt(ns', ps, k);
      if j != i {
        assert ns[j].handle.Some?;
      }
    }
    if ps[i] in Entries(ns, ps) {
      var j := StoredAt(ns, ps, ps[i]);
    }
  }

  /** Clearing node `i`'s handle removes exactly its key. */
  lemma ClearHandle(ns: seq<Node>, ps: seq<Key>, i: nat)
    requires Tree(ns, ps) && i < |ns|
    ensures var ns' := ns[i := ns[i].(handle := None)];
            Tree(ns', ps) && Entries(ns', ps) == Entries(ns, ps) - {ps[i]}
  {
    var ns' := ns[i := ns[i].(handle := None)];
    SameShape(ns, ps, ns');
    var m, m' := Entries(ns, ps) - {ps[i]}, Entries(ns', ps);
    forall k | k in m ensures k in m' && m'[k] == m[k] {
      var j := StoredAt(ns, ps, k);
      assert ns'[j].handle.Some?;
    }
    forall k | k in m' ensures k in m {
      var j := StoredAt(ns', ps, k);
      assert ns[j].handle.Some?;
    }
  }

  /** A node that holds a handle, as `evict_coldest` lists it. */
  datatype Victim = Victim(tick: nat, id: nat, handle: Handle)

  /** Colder, or as cold and earlier in the arena: the order of a stable sort by tick. */
  ghost predicate Before(v: Victim, w: Victim) {
    v.tick < w.tick || (v.tick == w.tick && v.id < w.id)
  }

  ghost predicate SortedByTick(vs: seq<Victim>) {
    forall i, j :: 0 <= i < j < |vs| ==> Before(vs[i], vs[j])
  }

  /** `vs` lists the arena's handles, each once, coldest first, ties by arena index. */
  ghost predicate Listing(ns: seq<Node>, vs: seq<Victim>) {
    && SortedByTick(vs)
    && (forall a :: 0 <= a < |vs| ==> Lists(ns, vs[a]))
    && (forall i :: 0 <= i < |ns| && ns[i].handle.Some? ==> Victim(ns[i].tick, i, ns[i].handle.value) in vs)
  }

  ghost predicate Lists(ns: seq<Node>, v: Victim) {
    v.id < |ns| && ns[v.id].handle == Some(v.handle) && ns[v.id].tick == v.tick
  }

  lemma ListedAt(ns: seq<Node>, vs: seq<Victim>, k: nat)
    requires Listing(ns, vs) && k < |vs|
    ensures Lists(ns, vs[k])
  {}

  lemma ListedIsStored(ns: seq<Node>, ps: seq<Key>, v: Victim)
    requires Tree(ns, ps) && Lists(ns, v)
    ensures ps[v.id] in Entries(ns, ps) && Entries(ns, ps)[ps[v.id]] == Entry(v.handle, v.tick)
  {}

  /** The keys of the first `k` victims. */
  ghost function KeysOf(ns: seq<Node>, ps: seq<Key>, vs: seq<Victim>, k: nat): (gone: seq<Key>)
    requires |ns| == |ps| && Listing(ns, vs) && k <= |vs|
    ensures |gone| == k && forall a :: 0 <= a < k ==> vs[a].id < |ps| && gone[a] == ps[vs[a].id]
  {
    if k == 0 then [] else ListedAt(ns, vs, k - 1); KeysOf(ns, ps, vs, k - 1) + [ps[vs[k - 1].id]]
  }

  /** Two victims are different nodes with different keys. */
  lemma VictimsDiffer(ns: seq<Node>, ps: seq<Key>, vs: seq<Victim>, a: nat, b: nat)
    requires Tree(ns, ps) && Listing(ns, vs) && a < b < |vs|
    ensures vs[a].id < |ps| && vs[b].id < |ps| && ps[vs[a].id] != ps[vs[b].id]
  {
    ListedAt(ns, vs, a);
    ListedAt(ns, vs, b);
    assert Before(vs[a], vs[b]);
    KeysDiffer(ps, vs[a].id, vs[b].id);
  }

  lemma KeysOfFacts(ns: seq<Node>, ps: seq<Key>, vs: seq<Victim>, k: nat)
    requires Tree(ns, ps) && Listing(ns, vs) && k <= |vs|
    ensures Distinct(KeysOf(ns, ps, vs, k)) && SetOf(KeysOf(ns, ps, vs, k)) <= Entries(ns, ps).Keys
    ensures forall a :: 0 <= a < k ==>
      KeysOf(ns, ps, vs, k)[a] in Entries(ns, ps) && Entries(ns, ps)[KeysOf(ns, ps, vs, k)[a]] == Entry(vs[a].handle, vs[a].tick)
    ensures k < |vs| ==> vs[k].id < |ps| && ps[vs[k].id] !in KeysOf(ns, ps, vs, k)
  {
    hide Entries, Edges, Dense, Listing;
    var gone := KeysOf(ns, ps, vs, k);
    forall a, b | 0 <= a < b < k ensures gone[a] != gone[b] {
      VictimsDiffer(ns, ps, vs, a, b);
    }
    forall a | 0 <= a < k
      ensures gone[a] in Entries(ns, ps) && Entries(ns, ps)[gone[a]] == Entry(vs[a].handle, vs[a].tick)
    {
      ListedAt(ns, vs, a);
      ListedIsStored(ns, ps, vs[a]);
    }
    if k < |vs| {
      ListedAt(ns, vs, k);
      forall a | 0 <= a < k ensures gone[a] != ps[vs[k].id] {
        VictimsDiffer(ns, ps, vs, a, k);
      }
    }
  }

  /** Every stored key is some victim's. */
  lemma KeyIsListed(ns: seq<Node>, ps: seq<Key>, vs: seq<Victim>, key: Key) returns (a: nat)
    requires Tree(ns, ps) && Listing(ns, vs) && key in Entries(ns, ps)
    ensures a < |vs| && vs[a].id < |ps| && ps[vs[a].id] == key && Entries(ns, ps)[key].tick == vs[a].tick
  {
    var n := StoredAt(ns, ps, key);
    a :| 0 <= a < |vs| && vs[a] == Victim(ns[n].tick, n, ns[n].handle.value);
  }

  lemma SweepOrdered(ns: seq<Node>, ps: seq<Key>, vs: seq<Victim>, k: nat)
    requires Tree(ns, ps) && Listing(ns, vs) && k <= |vs|
    ensures var m, gone := Entries(ns, ps), KeysOf(ns, ps, vs, k);
            && SetOf(gone) <= m.Keys && Distinct(gone)
            && forall i, j :: 0 <= i < j < |gone| ==> gone[i] in m && gone[j] in m && m[gone[i]].tick <= m[gone[j]].tick
  {
    hide Entries, Edges, Dense, Listing, Distinct;
    KeysOfFacts(ns, ps, vs, k);
    forall i: nat, j: nat | i < j < k ensures vs[i].tick <= vs[j].tick {
      VictimsInOrder(ns, vs, i, j);
    }
  }

  lemma SweepSurvivors(ns: seq<Node>, ps: seq<Key>, vs: seq<Victim>, k: nat)
    requires Tree(ns, ps) && Listing(ns, vs) && k <= |vs|
    ensures var m, gone := Entries(ns, ps), KeysOf(ns, ps, vs, k);
            && (forall i, key :: 0 <= i < |gone| && key in m.Keys - SetOf(gone) ==> gone[i] in m && m[gone[i]].tick <= m[key].tick)
            && (k == |vs| ==> m.Keys <= SetOf(gone))
  {
    hide Entries, Edges, Dense, Listing, Distinct;
    var m, gone := Entries(ns, ps), KeysOf(ns, ps, vs, k);
    KeysOfFacts(ns, ps, vs, k);
    forall i: nat, key | i < k && key in m.Keys - SetOf(gone) ensures m[gone[i]].tick <= m[key].tick {
      var a := SurvivorIsLater(ns, ps, vs, k, key);
      VictimsInOrder(ns, vs, i, a);
    }
    if k == |vs| {
      forall key | key in m.Keys ensures key in SetOf(gone) {
        if key !in SetOf(gone) {
          var a := SurvivorIsLater(ns, ps, vs, k, key);
        }
      }
    }
  }

  /** The first `k` victims are a coldest-first eviction, if the sweep stopped as soon as enough was freed. */
  lemma SweepDone(ns: seq<Node>, ps: seq<Key>, vs: seq<Victim>, k: nat, need: nat)
    requires Tree(ns, ps) && Listing(ns, vs) && k <= |vs|
    requires k < |vs| ==> KeyTokensSeq(KeysOf(ns, ps, vs, k)) >= need
    requires k > 0 ==> KeyTokensSeq(KeysOf(ns, ps, vs, k - 1)) < need
    ensures ColdestFirst(Entries(ns, ps), KeysOf(ns, ps, vs, k), need)
  {
    hide Entries, Edges, Dense, KeyTokensSeq, Listing, Distinct, KeysOf;
    SweepOrdered(ns, ps, vs, k);
    SweepSurvivors(ns, ps, vs, k);
    KeysOfFront(ns, ps, vs, k);
  }

  lemma KeysOfFront(ns: seq<Node>, ps: seq<Key>, vs: seq<Victim>, k: nat)
    requires |ns| == |ps| && Listing(ns, vs) && k <= |vs|
    ensures k > 0 ==> KeysOf(ns, ps, vs, k)[..k - 1] == KeysOf(ns, ps, vs, k - 1)
  {
    hide Listing;
  }

  lemma VictimsInOrder(ns: seq<Node>, vs: seq<Victim>, a: nat, b: nat)
    requires Listing(ns, vs) && a < b < |vs|
    ensures vs[a].tick <= vs[b].tick
  {
    assert Before(vs[a], vs[b]);
  }

  /** A key that is not among the first `k` victims' is a later victim's. */
  lemma SurvivorIsLater(ns: seq<Node>, ps: seq<Key>, vs: seq<Victim>, k: nat, key: Key) returns (a: nat)
    requires Tree(ns, ps) && Listing(ns, vs) && k <= |vs| && key in Entries(ns, ps) && key !in SetOf(KeysOf(ns, ps, vs, k))
    ensures k <= a < |vs| && Entries(ns, ps)[key].tick == vs[a].tick
  {
    hide Entries, Edges, Dense, Listing, Distinct;
    a := KeyIsListed(ns, ps, vs, key);
    var gone := KeysOf(ns, ps, vs, k);
    assert forall i :: 0 <= i < k ==> gone[i] in SetOf(gone);
  }

  /** A victim whose key has not been dropped yet still holds its handle. */
  lemma HandleAt(ns0: seq<Node>, ps: seq<Key>, ns: seq<Node>, gone: seq<Key>, v: Victim)
    requires Tree(ns0, ps) && Tree(ns, ps) && |ns| == |ns0| && Lists(ns0, v) && ps[v.id] !in gone
    requires Entries(ns, ps) == Entries(ns0, ps) - SetOf(gone)
    ensures ns[v.id].handle == Some(v.handle)
  {
    assert ps[v.id] in Entries(ns0, ps);
    var j := StoredAt(ns, ps, ps[v.id]);
  }

  /** The book-keeping after dropping one more key. */
  lemma DropOne(m: map<Key, Entry>, gone: seq<Key>, key: Key)
    requires key in m && key !in gone && SetOf(gone) <= m.Keys
    ensures (m - SetOf(gone)) - {key} == m - SetOf(gone + [key])
    ensures KeyTokensSeq(gone + [key]) == KeyTokensSeq(gone) + |key|
  {
    assert (gone + [key])[..|gone|] == gone;
    assert SetOf(gone + [key]) == SetOf(gone) + {key};
  }
}
