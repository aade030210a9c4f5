/** The walk down the tree that `lookup` makes, one edge at a time. */
module RadixWalk {
  import opened Common
  import opened RadixTree
  import opened PrefixMap

  /** A match made on the way down: a stored prefix of this length. */
  datatype Found = Found(len: nat, handle: Handle)

  /** `ns` is `ns0` with every node whose key is a prefix of `q` of length at most `n` touched. */
  ghost predicate Touched(ns0: seq<Node>, ps: seq<Key>, ns: seq<Node>, q: Key, n: nat, tick: nat) {
    && |ns0| == |ns| == |ps|
    && forall i {:trigger ns[i]} :: 0 <= i < |ns| ==>
      && ns[i].edge == ns0[i].edge
      && ns[i].children == ns0[i].children
      && ns[i].handle == ns0[i].handle
      && ns[i].tick == if ps[i] <= q && |ps[i]| <= n then tick else ns0[i].tick
  }

  lemma TouchedAt(ns0: seq<Node>, ps: seq<Key>, ns: seq<Node>, q: Key, n: nat, tick: nat, i: nat)
    requires Touched(ns0, ps, ns, q, n, tick) && i < |ns0|
    ensures |ns| == |ns0|
    ensures ns[i].edge == ns0[i].edge && ns[i].children == ns0[i].children && ns[i].handle == ns0[i].handle
  {
    assert ns[i].edge == ns0[i].edge;
  }

  lemma SameShape(ns0: seq<Node>, ps: seq<Key>, ns: seq<Node>)
    requires Tree(ns0, ps) && |ns| == |ns0|
    requires forall i {:trigger ns[i]} :: 0 <= i < |ns| ==> ns[i].edge == ns0[i].edge && ns[i].children == ns0[i].children
    ensures Tree(ns, ps)
  {
    forall i, t | 0 <= i < |ns| && t in ns[i].children ensures ChildOk(ns, ps, i, t) {
      assert ChildOk(ns0, ps, i, t);
    }
    forall i, j | 0 <= i < |ns| && 0 <= j < |ns| && ps[i] < ps[j] ensures LeadsTo(ns, ps, i, ps[j]) {
      assert LeadsTo(ns0, ps, i, ps[j]);
    }
  }

  /** A stored key is some node's key. */
  lemma StoredAt(ns: seq<Node>, ps: seq<Key>, k: Key) returns (i: nat)
    requires Tree(ns, ps) && k in Entries(ns, ps)
    ensures i < |ns| && ps[i] == k && ns[i].handle == Some(Entries(ns, ps)[k].handle) && ns[i].tick == Entries(ns, ps)[k].tick
  {
    i :| 0 <= i < |ns| && ns[i].handle.Some? && ps[i] == k;
  }

  lemma TouchedEntries(ns0: seq<Node>, ps: seq<Key>, ns: seq<Node>, q: Key, n: nat, tick: nat)
    requires Tree(ns0, ps) && Tree(ns, ps) && Touched(ns0, ps, ns, q, n, tick)
    requires forall j :: 0 <= j < |ps| && ps[j] <= q ==> |ps[j]| <= n
    ensures Entries(ns, ps) == Touch(Entries(ns0, ps), q, tick)
  {
    hide Entries, Tree, Touched;
    var m, m' := Touch(Entries(ns0, ps), q, tick), Entries(ns, ps);
    forall k | k in m ensures k in m' && m'[k] == m[k] {
      TouchedEntry(ns0, ps, ns, q, n, tick, k);
    }
    forall k | k in m' ensures k in m {
      TouchedBack(ns0, ps, ns, q, n, tick, k);
    }
  }

  lemma TouchedEntry(ns0: seq<Node>, ps: seq<Key>, ns: seq<Node>, q: Key, n: nat, tick: nat, k: Key)
    requires Tree(ns0, ps) && Tree(ns, ps) && Touched(ns0, ps, ns, q, n, tick) && k in Entries(ns0, ps)
    requires forall j :: 0 <= j < |ps| && ps[j] <= q ==> |ps[j]| <= n
    ensures k in Entries(ns, ps) && Entries(ns, ps)[k] == Touch(Entries(ns0, ps), q, tick)[k]
  {
    var i := StoredAt(ns0, ps, k);
    assert ns[i].handle.Some?;
  }

  lemma TouchedBack(ns0: seq<Node>, ps: seq<Key>, ns: seq<Node>, q: Key, n: nat, tick: nat, k: Key)
    requires Tree(ns0, ps) && Tree(ns, ps) && Touched(ns0, ps, ns, q, n, tick) && k in Entries(ns, ps)
    ensures k in Entries(ns0, ps)
  {
    var i := StoredAt(ns, ps, k);
    assert ns0[i].handle.Some?;
  }

  /** Where the walk stops, no node's key is a longer prefix of the query. */
  lemma DeadEnd(ns: seq<Node>, ps: seq<Key>, node: nat, q: Key, n: nat, j: nat)
    requires Tree(ns, ps) && node < |ns| && n < |q| && ps[node] == q[..n] && j < |ns|
    requires q[n] in ns[node].children ==> ns[node].children[q[n]] < |ns| && !(ps[ns[node].children[q[n]]] <= q)
    ensures ps[j] <= q ==> |ps[j]| <= n
  {
    if ps[node] < ps[j] {
      assert LeadsTo(ns, ps, node, ps[j]);
    }
  }

  /** Following an edge reaches the only node with a key between the two cursors. */
  lemma OneEdge(ns: seq<Node>, ps: seq<Key>, node: nat, child: nat, q: Key, n: nat, n': nat, j: nat)
    requires Tree(ns, ps) && node < |ns| && child < |ns| && j < |ns| && n < n' <= |q|
    requires ps[node] == q[..n] && ps[child] == q[..n']
    requires q[n] in ns[node].children && ns[node].children[q[n]] == child
    ensures ps[j] <= q && n < |ps[j]| <= n' ==> j == child
  {
    if ps[j] <= q && n < |ps[j]| {
      assert ps[node] < ps[j];
      assert LeadsTo(ns, ps, node, ps[j]);
      if |ps[j]| <= n' && j != child {
        KeysDiffer(ps, j, child);
      }
    }
  }

  /** `best` answers the lookup restricted to prefixes of length at most `n`. */
  ghost predicate BestSoFar(m: map<Key, Entry>, q: Key, n: nat, best: Option<Found>)
    requires n <= |q|
  {
    match best
    case None => forall i :: 0 <= i <= n ==> q[..i] !in m
    case Some(b) =>
      && b.len <= n && q[..b.len] in m && m[q[..b.len]].handle == b.handle
      && forall i :: b.len < i <= n ==> q[..i] !in m
  }

  /** Moving from length `n` to `n'` when only the node `child` lies in between. */
  lemma BestStep(ns: seq<Node>, ps: seq<Key>, q: Key, n: nat, n': nat, best: Option<Found>, child: nat)
    requires Tree(ns, ps) && n < n' <= |q| && child < |ns| && ps[child] == q[..n']
    requires forall j :: 0 <= j < |ns| && ps[j] <= q && n < |ps[j]| <= n' ==> j == child
    requires BestSoFar(Entries(ns, ps), q, n, best)
    ensures BestSoFar(Entries(ns, ps), q, n', if ns[child].handle.Some? then Some(Found(n', ns[child].handle.value)) else best)
  {
    var m := Entries(ns, ps);
    forall i | n < i <= n' && q[..i] in m ensures i == n' && ns[child].handle.Some? {
      var j := StoredAt(ns, ps, q[..i]);
    }
    if ns[child].handle.Some? {
      assert ps[child] in m;
    }
  }

  lemma BestAtEnd(ns: seq<Node>, ps: seq<Key>, q: Key, n: nat, best: Option<Found>)
    requires Tree(ns, ps) && n <= |q|
    requires forall j :: 0 <= j < |ps| && ps[j] <= q ==> |ps[j]| <= n
    requires BestSoFar(Entries(ns, ps), q, n, best)
    ensures BestSoFar(Entries(ns, ps), q, |q|, best)
  {
    var m := Entries(ns, ps);
    forall i | n < i <= |q| ensures q[..i] !in m {
      if q[..i] in m {
        var j := StoredAt(ns, ps, q[..i]);
      }
    }
  }

  /** The walk starts at the root, which spells the empty prefix. */
  lemma BestAtRoot(ns: seq<Node>, ps: seq<Key>, q: Key)
    requires Tree(ns, ps)
    ensures BestSoFar(Entries(ns, ps), q, 0, if ns[0].handle.Some? then Some(Found(0, ns[0].handle.value)) else None)
  {
    var m := Entries(ns, ps);
    assert q[..0] == ps[0];
    if q[..0] in m {
      var j := StoredAt(ns, ps, q[..0]);
    }
  }

  /** The edge to the child spells the next tokens of the query. */
  lemma Match(ns: seq<Node>, ps: seq<Key>, node: nat, child: nat, q: Key, n: nat)
    requires node < |ns| == |ps| && child < |ns| && n < |q| && ps[node] == q[..n]
    requires ps[child] == ps[node] + ns[child].edge
    requires |ns[child].edge| <= |q| - n && q[n..][..|ns[child].edge|] == ns[child].edge
    ensures ps[child] == q[..n + |ns[child].edge|]
  {
    assert q[..n] + q[n..][..|ns[child].edge|] == q[..n + |ns[child].edge|];
  }

  lemma Mismatch(ns: seq<Node>, ps: seq<Key>, node: nat, child: nat, q: Key, n: nat, matched: nat)
    requires node < |ns| == |ps| && child < |ns| && n < |q| && ps[node] == q[..n]
    requires ps[child] == ps[node] + ns[child].edge
    requires matched < |ns[child].edge| && matched <= |q| - n
    requires matched < |q| - n ==> q[n + matched] != ns[child].edge[matched]
    ensures !(ps[child] <= q)
  {
    assert ps[child][n + matched] == ns[child].edge[matched];
  }

  /** The best match over the whole query answers it. */
  lemma BestIsAnswer(m: map<Key, Entry>, q: Key, best: Option<Found>)
    requires BestSoFar(m, q, |q|, best)
    ensures match best
            case Some(b) => LookupAnswer(m, q, b.len, Some(b.handle))
            case None => LookupAnswer(m, q, 0, None)
  {}

  /** One iteration that follows an edge keeps the walk's invariants. */
  lemma EdgeStep(ns0: seq<Node>, ps: seq<Key>, ns: seq<Node>, node: nat, child: nat, q: Key, n: nat,
                 best: Option<Found>, tick: nat, hits: nat)
    requires Tree(ns0, ps) && node < |ns0| && child < |ns0| && n < |q| && ps[node] == q[..n]
    requires Touched(ns0, ps, ns, q, n, tick) && BestSoFar(Entries(ns0, ps), q, n, best)
    requires q[n] in ns0[node].children && ns0[node].children[q[n]] == child && ns0[child].edge != []
    requires ps[child] == ps[node] + ns0[child].edge
    requires |ns0[child].edge| <= |q| - n && q[n..][..|ns0[child].edge|] == ns0[child].edge
    ensures var n' := n + |ns0[child].edge|;
            && ps[child] == q[..n']
            && Touched(ns0, ps, ns[child := ns[child].(tick := tick, hits := hits)], q, n', tick)
            && BestSoFar(Entries(ns0, ps), q, n', if ns0[child].handle.Some? then Some(Found(n', ns0[child].handle.value)) else best)
  {
    var n' := n + |ns0[child].edge|;
    Match(ns0, ps, node, child, q, n);
    forall j | 0 <= j < |ns0| ensures ps[j] <= q && n < |ps[j]| <= n' ==> j == child {
      OneEdge(ns0, ps, node, child, q, n, n', j);
    }
    BestStep(ns0, ps, q, n, n', best, child);
  }

  /** When the walk stops at `node`, its best match is the answer and exactly the stored prefixes
      of the query have been touched. */
  lemma WalkDone(ns0: seq<Node>, ps: seq<Key>, ns: seq<Node>, node: nat, q: Key, n: nat,
                 best: Option<Found>, tick: nat)
    requires Tree(ns0, ps) && node < |ns0| && n <= |q| && ps[node] == q[..n]
    requires Touched(ns0, ps, ns, q, n, tick) && BestSoFar(Entries(ns0, ps), q, n, best)
    requires n < |q| && q[n] in ns0[node].children ==>
      ns0[node].children[q[n]] < |ns0| && !(ps[ns0[node].children[q[n]]] <= q)
    ensures Tree(ns, ps) && Entries(ns, ps) == Touch(Entries(ns0, ps), q, tick)
    ensures Entries(ns, ps).Keys == Entries(ns0, ps).Keys
    ensures BestSoFar(Entries(ns0, ps), q, |q|, best)
  {
    forall j | 0 <= j < |ns0| ensures ps[j] <= q ==> |ps[j]| <= n {
      if n < |q| {
        DeadEnd(ns0, ps, node, q, n, j);
      }
    }
    BestAtEnd(ns0, ps, q, n, best);
    SameShape(ns0, ps, ns);
    TouchedEntries(ns0, ps, ns, q, n, tick);
  }

  lemma StoredKey(ns: seq<Node>, ps: seq<Key>, i: nat)
    requires Tree(ns, ps) && i < |ns| && ns[i].handle.Some?
    ensures ps[i] in Entries(ns, ps)
  {}

  lemma ChildAt(ns: seq<Node>, ps: seq<Key>, i: nat, t: TokenId)
    requires Tree(ns, ps) && i < |ns| && t in ns[i].children
    ensures ChildOk(ns, ps, i, t)
  {}

  lemma TouchedRoot(ns0: seq<Node>, ps: seq<Key>, q: Key, tick: nat, hits: nat)
    requires Tree(ns0, ps)
    ensures Touched(ns0, ps, ns0[0 := ns0[0].(tick := tick, hits := hits)], q, 0, tick)
  {}

  /** Refreshing the root touches the empty key alone. */
  lemma TouchRoot(ns: seq<Node>, ps: seq<Key>, tick: nat, hits: nat)
    requires Tree(ns, ps)
    ensures var ns' := ns[0 := ns[0].(tick := tick, hits := hits)];
            Tree(ns', ps) && Entries(ns', ps) == Touch(Entries(ns, ps), [], tick)
  {
    var ns' := ns[0 := ns[0].(tick := tick, hits := hits)];
    TouchedRoot(ns, ps, [], tick, hits);
    SameShape(ns, ps, ns');
    TouchedEntries(ns, ps, ns', [], 0, tick);
  }
}
