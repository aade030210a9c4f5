/** The shape of the radix tree's node arena, and the two steps that grow it. */
module RadixTree {
  import opened Common

  type Key = seq<TokenId>

  /** One arena cell. `children` maps the first token of an outgoing edge to the child's arena index. */
  datatype Node = Node(edge: Key, children: map<TokenId, nat>, handle: Option<Handle>, tick: nat, hits: nat)

  /** What the cache stores for a key, seen from outside. */
  datatype Entry = Entry(handle: Handle, tick: nat)

  /** The edge filed under `t` at node `i` starts with `t` and leads to the path it spells. */
  ghost predicate ChildOk(ns: seq<Node>, ps: seq<Key>, i: nat, t: TokenId)
    requires i < |ns| == |ps| && t in ns[i].children
  {
    var c := ns[i].children[t];
    && c < |ns|
    && ns[c].edge != []
    && ns[c].edge[0] == t
    && ps[c] == ps[i] + ns[c].edge
  }

  /** Node `i` has a child on the way to `key`. */
  ghost predicate LeadsTo(ns: seq<Node>, ps: seq<Key>, i: nat, key: Key)
    requires i < |ns| == |ps| && ps[i] < key
  {
    var t := key[|ps[i]|];
    && t in ns[i].children
    && ns[i].children[t] < |ns|
    && ps[ns[i].children[t]] <= key
  }

  /** The arena is a radix tree in which node `i` spells the key `ps[i]`: edges spell what they
      claim, no two nodes spell the same key, and whenever a node's key extends another's, the
      shorter one has a child leading towards it. */
  ghost predicate Tree(ns: seq<Node>, ps: seq<Key>) {
    && |ns| == |ps| > 0
    && ps[0] == []
    && Edges(ns, ps)
    && Dense(ns, ps)
    && Distinct(ps)
  }

  ghost predicate Edges(ns: seq<Node>, ps: seq<Key>)
    requires |ns| == |ps|
  {
    forall i, t {:trigger ChildOk(ns, ps, i, t)} :: 0 <= i < |ns| && t in ns[i].children ==> ChildOk(ns, ps, i, t)
  }

  ghost predicate Dense(ns: seq<Node>, ps: seq<Key>)
    requires |ns| == |ps|
  {
    forall i, j {:trigger LeadsTo(ns, ps, i, ps[j])} ::
      0 <= i < |ns| && 0 <= j < |ns| && ps[i] < ps[j] ==> LeadsTo(ns, ps, i, ps[j])
  }

  lemma KeysDiffer(ps: seq<Key>, i: nat, j: nat)
    requires Distinct(ps) && i < |ps| && j < |ps| && i != j
    ensures ps[i] != ps[j]
  {}

  /** The plain map the tree stands for. */
  ghost function Entries(ns: seq<Node>, ps: seq<Key>): map<Key, Entry>
    requires Tree(ns, ps)
  {
    map i | 0 <= i < |ns| && ns[i].handle.Some? :: ps[i] := Entry(ns[i].handle.value, ns[i].tick)
  }

  /** `ns'` is `ns` with handle-free nodes appended and edges and children rearranged. */
  ghost predicate Grown(ns: seq<Node>, ps: seq<Key>, ns': seq<Node>, ps': seq<Key>, tick: nat) {
    && |ns| == |ps| <= |ns'| == |ps'|
    && ps <= ps'
    && (forall i :: 0 <= i < |ns| ==> ns'[i].handle == ns[i].handle && ns'[i].tick == ns[i].tick)
    && (forall i :: |ns| <= i < |ns'| ==> ns'[i].handle == None && ns'[i].tick == tick)
  }

  lemma GrownKeepsEntries(ns: seq<Node>, ps: seq<Key>, ns': seq<Node>, ps': seq<Key>, tick: nat)
    requires Tree(ns, ps) && Tree(ns', ps') && Grown(ns, ps, ns', ps', tick)
    ensures Entries(ns', ps') == Entries(ns, ps)
  {
    var m, m' := Entries(ns, ps), Entries(ns', ps');
    forall k | k in m ensures k in m' && m'[k] == m[k] {
      var i :| 0 <= i < |ns| && ns[i].handle.Some? && ps[i] == k;
      assert ps'[i] == ps[i] && ns'[i].handle.Some?;
    }
    forall k | k in m' ensures k in m {
      var i :| 0 <= i < |ns'| && ns'[i].handle.Some? && ps'[i] == k;
      assert i < |ns| && ps[i] == ps'[i];
    }
  }

  /** A key extending node `p`'s key continues along one of `p`'s edges. */
  lemma NextToken(ns: seq<Node>, ps: seq<Key>, p: nat, j: nat)
    requires Tree(ns, ps) && p < |ns| && j < |ns| && ps[p] < ps[j]
    ensures ps[j][|ps[p]|] in ns[p].children
  {
    assert LeadsTo(ns, ps, p, ps[j]);
  }

  /** If `p` has no child in the direction of `key`, no stored key lies on or beyond that way. */
  lemma NoChildNoKey(ns: seq<Node>, ps: seq<Key>, p: nat, key: Key, j: nat)
    requires Tree(ns, ps) && p < |ns| && j < |ns|
    requires ps[p] < key && key[|ps[p]|] !in ns[p].children
    ensures !(key <= ps[j]) && (ps[j] <= key ==> ps[j] <= ps[p])
  {
    if ps[p] < ps[j] {
      NextToken(ns, ps, p, j);
    }
  }

  /** `push_node` for a missing child: a fresh leaf below `p` spelling `ps[p] + tokens`. */
  function Attach(ns: seq<Node>, p: nat, tokens: Key, tick: nat): seq<Node>
    requires p < |ns| && tokens != []
  {
    ns[p := ns[p].(children := ns[p].children[tokens[0] := |ns|])] + [Node(tokens, map[], None, tick, 0)]
  }

  lemma AttachLeads(ns: seq<Node>, ps: seq<Key>, p: nat, tokens: Key, tick: nat, i: nat, j: nat)
    requires Tree(ns, ps) && p < |ns| && tokens != [] && tokens[0] !in ns[p].children
    requires i <= |ns| && j <= |ns|
    requires var ps' := ps + [ps[p] + tokens]; ps'[i] < ps'[j]
    ensures var ns', ps' := Attach(ns, p, tokens, tick), ps + [ps[p] + tokens];
            LeadsTo(ns', ps', i, ps'[j])
  {
    var key := ps[p] + tokens;
    if i < |ns| && j < |ns| {
      assert LeadsTo(ns, ps, i, ps[j]);
      NoChildNoKey(ns, ps, p, key, j);
    } else if i < |ns| {
      NoChildNoKey(ns, ps, p, key, i);
      if i != p {
        KeysDiffer(ps, i, p);
        assert ps[i] < ps[p];
        assert LeadsTo(ns, ps, i, ps[p]);
        assert key[|ps[i]|] == ps[p][|ps[i]|];
      }
    } else {
      NoChildNoKey(ns, ps, p, key, j);
    }
  }

  lemma AttachEdges(ns: seq<Node>, ps: seq<Key>, p: nat, tokens: Key, tick: nat)
    requires Tree(ns, ps) && p < |ns| && tokens != [] && tokens[0] !in ns[p].children
    ensures Edges(Attach(ns, p, tokens, tick), ps + [ps[p] + tokens])
  {
    var ns', ps' := Attach(ns, p, tokens, tick), ps + [ps[p] + tokens];
    forall i, t | 0 <= i < |ns'| && t in ns'[i].children ensures ChildOk(ns', ps', i, t) {
      if !(i == p && t == tokens[0]) {
        assert ChildOk(ns, ps, i, t);
      }
    }
  }

  lemma AttachKeepsTree(ns: seq<Node>, ps: seq<Key>, p: nat, tokens: Key, tick: nat)
    requires Tree(ns, ps) && p < |ns| && tokens != [] && tokens[0] !in ns[p].children
    ensures Tree(Attach(ns, p, tokens, tick), ps + [ps[p] + tokens])
    ensures Grown(ns, ps, Attach(ns, p, tokens, tick), ps + [ps[p] + tokens], tick)
  {
    var key := ps[p] + tokens;
    var ns', ps' := Attach(ns, p, tokens, tick), ps + [key];
    AttachEdges(ns, ps, p, tokens, tick);
    assert Dense(ns', ps') by {
      forall i, j | 0 <= i < |ns'| && 0 <= j < |ns'| && ps'[i] < ps'[j] ensures LeadsTo(ns', ps', i, ps'[j]) {
        AttachLeads(ns, ps, p, tokens, tick, i, j);
      }
    }
    forall j | 0 <= j < |ns| ensures ps[j] != key {
      NoChildNoKey(ns, ps, p, key, j);
    }
    DistinctSnoc(ps, key);
  }

  lemma DistinctSnoc(ps: seq<Key>, key: Key)
    requires Distinct(ps) && forall j :: 0 <= j < |ps| ==> ps[j] != key
    ensures Distinct(ps + [key])
  {}

  /** `split_child`: cut the edge to `c` after `at` tokens and put a new node at the cut. */
  function Split(ns: seq<Node>, p: nat, c: nat, at: nat, tick: nat): seq<Node>
    requires p < |ns| && c < |ns| && p != c && 0 < at < |ns[c].edge|
  {
    var edge := ns[c].edge;
    ns[c := ns[c].(edge := edge[at..])]
      [p := ns[p].(children := ns[p].children[edge[0] := |ns|])]
    + [Node(edge[..at], map[edge[at] := c], None, tick, ns[c].hits)]
  }

  /** `c` is the child of `p` reached by its edge's first token, and `at` cuts inside that edge. */
  ghost predicate SplitPoint(ns: seq<Node>, ps: seq<Key>, p: nat, c: nat, at: nat) {
    && Tree(ns, ps) && p < |ns| && c < |ns| && p != c
    && 0 < at < |ns[c].edge|
    && ns[c].edge[0] in ns[p].children
    && ns[p].children[ns[c].edge[0]] == c
  }

  /** The key spelled at the cut. */
  ghost function CutKey(ns: seq<Node>, ps: seq<Key>, p: nat, c: nat, at: nat): Key
    requires SplitPoint(ns, ps, p, c, at)
  {
    ps[p] + ns[c].edge[..at]
  }

  /** The cut lies strictly between parent and child. */
  lemma CutBetween(ns: seq<Node>, ps: seq<Key>, p: nat, c: nat, at: nat)
    requires SplitPoint(ns, ps, p, c, at)
    ensures ps[c] == ps[p] + ns[c].edge
    ensures var cut := CutKey(ns, ps, p, c, at);
            && ps[p] < cut < ps[c]
            && ps[c][|cut|] == ns[c].edge[at]
            && cut[|ps[p]|] == ns[c].edge[0]
            && ps[c] == cut + ns[c].edge[at..]
  {
    assert ChildOk(ns, ps, p, ns[c].edge[0]);
  }

  /** Every stored key on or beyond the cut passes through the child. */
  lemma BeyondCut(ns: seq<Node>, ps: seq<Key>, p: nat, c: nat, at: nat, j: nat)
    requires SplitPoint(ns, ps, p, c, at) && j < |ns| && CutKey(ns, ps, p, c, at) <= ps[j]
    ensures ps[c] <= ps[j]
  {
    CutBetween(ns, ps, p, c, at);
    assert ps[p] < ps[j];
    assert LeadsTo(ns, ps, p, ps[j]);
    assert ps[j][|ps[p]|] == CutKey(ns, ps, p, c, at)[|ps[p]|];
  }

  /** Only `p` has an edge to `c`. */
  lemma OneParent(ns: seq<Node>, ps: seq<Key>, p: nat, c: nat, i: nat, t: TokenId)
    requires Tree(ns, ps) && p < |ns| && c < |ns| && i < |ns|
    requires ns[c].edge != [] && ps[c] == ps[p] + ns[c].edge
    requires t in ns[i].children && ns[i].children[t] == c
    ensures i == p && t == ns[c].edge[0]
  {
    assert ChildOk(ns, ps, i, t);
    assert ps[i] == ps[c][..|ps[c]| - |ns[c].edge|] == ps[p];
    if i != p {
      KeysDiffer(ps, i, p);
    }
  }

  lemma LeadsToCut(ns: seq<Node>, ps: seq<Key>, p: nat, c: nat, at: nat, i: nat)
    requires SplitPoint(ns, ps, p, c, at) && i < |ns| && i != p
    requires ps[i] < CutKey(ns, ps, p, c, at)
    ensures LeadsTo(ns, ps, i, CutKey(ns, ps, p, c, at))
  {
    var cut := CutKey(ns, ps, p, c, at);
    CutBetween(ns, ps, p, c, at);
    assert ps[i] < ps[c];
    assert LeadsTo(ns, ps, i, ps[c]);
    var t := ps[c][|ps[i]|];
    assert t == cut[|ps[i]|];
    var d := ns[i].children[t];
    if d == c {
      OneParent(ns, ps, p, c, i, t);
    } else if cut <= ps[d] {
      BeyondCut(ns, ps, p, c, at, d);
      KeysDiffer(ps, c, d);
    }
  }

  lemma SplitLeads(ns: seq<Node>, ps: seq<Key>, p: nat, c: nat, at: nat, tick: nat, i: nat, j: nat)
    requires SplitPoint(ns, ps, p, c, at) && i <= |ns| && j <= |ns|
    requires var ps' := ps + [CutKey(ns, ps, p, c, at)]; ps'[i] < ps'[j]
    ensures var ns', ps' := Split(ns, p, c, at, tick), ps + [CutKey(ns, ps, p, c, at)];
            LeadsTo(ns', ps', i, ps'[j])
  {
    var cut := CutKey(ns, ps, p, c, at);
    CutBetween(ns, ps, p, c, at);
    if i == |ns| {
      BeyondCut(ns, ps, p, c, at, j);
    } else if j == |ns| {
      if i != p {
        LeadsToCut(ns, ps, p, c, at, i);
      }
    } else {
      assert LeadsTo(ns, ps, i, ps[j]);
    }
  }

  lemma SplitEdges(ns: seq<Node>, ps: seq<Key>, p: nat, c: nat, at: nat, tick: nat)
    requires SplitPoint(ns, ps, p, c, at)
    ensures Edges(Split(ns, p, c, at, tick), ps + [CutKey(ns, ps, p, c, at)])
  {
    var ns', ps', n := Split(ns, p, c, at, tick), ps + [CutKey(ns, ps, p, c, at)], |ns|;
    CutBetween(ns, ps, p, c, at);
    forall i, t | 0 <= i < |ns'| && t in ns'[i].children ensures ChildOk(ns', ps', i, t) {
      if i < n && !(i == p && t == ns[c].edge[0]) {
        assert ChildOk(ns, ps, i, t);
        if ns[i].children[t] == c {
          OneParent(ns, ps, p, c, i, t);
        }
      }
    }
  }

  lemma SplitKeepsTree(ns: seq<Node>, ps: seq<Key>, p: nat, c: nat, at: nat, tick: nat)
    requires SplitPoint(ns, ps, p, c, at)
    ensures Tree(Split(ns, p, c, at, tick), ps + [CutKey(ns, ps, p, c, at)])
    ensures Grown(ns, ps, Split(ns, p, c, at, tick), ps + [CutKey(ns, ps, p, c, at)], tick)
  {
    var cut := CutKey(ns, ps, p, c, at);
    var ns', ps', n := Split(ns, p, c, at, tick), ps + [cut], |ns|;
    SplitEdges(ns, ps, p, c, at, tick);
    assert Dense(ns', ps') by {
      forall i, j | 0 <= i < |ns'| && 0 <= j < |ns'| && ps'[i] < ps'[j] ensures LeadsTo(ns', ps', i, ps'[j]) {
        SplitLeads(ns, ps, p, c, at, tick, i, j);
      }
    }
    CutBetween(ns, ps, p, c, at);
    forall j | 0 <= j < n ensures ps[j] != cut {
      if ps[j] == cut {
        BeyondCut(ns, ps, p, c, at, j);
      }
    }
    DistinctSnoc(ps, cut);
  }
}
