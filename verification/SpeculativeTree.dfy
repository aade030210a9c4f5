/** Trees of alternative drafts and the search for the longest branch the target agrees with. */
module SpeculativeTrees {
  import opened Common
  import opened GreedyDecoding
  import opened Speculative

  datatype TreeNode = TreeNode(token: TokenId, parent: Option<nat>)

  /** Node 0 is the root; every other node's parent comes before it. */
  ghost predicate WellFormed(ns: seq<TreeNode>) {
    && |ns| > 0 && ns[0].parent == None
    && forall i :: 0 < i < |ns| ==> ns[i].parent.Some? && ns[i].parent.value < i
  }

  /** The tokens from the root down to node `i`. */
  ghost function Path(ns: seq<TreeNode>, i: nat): (p: seq<TokenId>)
    requires WellFormed(ns) && i < |ns|
    ensures p != [] && p[0] == ns[0].token
  {
    if i == 0 then [ns[0].token] else Path(ns, ns[i].parent.value) + [ns[i].token]
  }

  /** Every edge on the way from the root to `i` is the token expected after its parent. */
  ghost predicate Agreed(ns: seq<TreeNode>, expected: seq<TokenId>, i: nat)
    requires WellFormed(ns) && i < |ns|
  {
    i == 0 || (
      var p := ns[i].parent.value;
      p < |expected| && Agreed(ns, expected, p) && ns[i].token == expected[p])
  }

  /** `expected[i]` is the target's token after the context and the path to node `i`. */
  ghost predicate Judged(T: Target, ctx: seq<TokenId>, ns: seq<TreeNode>, expected: seq<TokenId>)
    requires WellFormed(ns)
  {
    |expected| == |ns| && forall i :: 0 <= i < |ns| ==> expected[i] == T(ctx + Path(ns, i))
  }

  /** A node is agreed exactly when its path, after the root, is the target's own continuation. */
  lemma {:induction false} AgreedIsGreedy(T: Target, ctx: seq<TokenId>, ns: seq<TreeNode>, expected: seq<TokenId>, i: nat)
    requires WellFormed(ns) && i < |ns| && Judged(T, ctx, ns, expected)
    ensures Agreed(ns, expected, i) <==> Follows(T, ctx + [ns[0].token], Path(ns, i)[1..])
  {
    if i > 0 {
      var p := ns[i].parent.value;
      AgreedIsGreedy(T, ctx, ns, expected, p);
      var root, tail := [ns[0].token], Path(ns, p)[1..];
      assert Path(ns, i)[1..] == tail + [ns[i].token];
      FollowsAppend(T, ctx + root, tail, [ns[i].token]);
      assert Path(ns, p) == root + tail;
      assert ctx + root + tail == ctx + Path(ns, p);
      assert Follows(T, ctx + root + tail, [ns[i].token]) <==> ns[i].token == T(ctx + root + tail) by {
        assert ctx + root + tail + [ns[i].token][..0] == ctx + root + tail;
      }
    }
  }

  /** Any two agreed paths are prefix-comparable as token sequences. */
  lemma AgreedPathsComparable(T: Target, ctx: seq<TokenId>, ns: seq<TreeNode>, expected: seq<TokenId>, i: nat, j: nat)
    requires WellFormed(ns) && i < |ns| && j < |ns| && Judged(T, ctx, ns, expected)
    requires Agreed(ns, expected, i) && Agreed(ns, expected, j) && |Path(ns, i)| <= |Path(ns, j)|
    ensures Path(ns, i) <= Path(ns, j)
  {
    var root := ctx + [ns[0].token];
    var a, b := Path(ns, i)[1..], Path(ns, j)[1..];
    AgreedIsGreedy(T, ctx, ns, expected, i);
    AgreedIsGreedy(T, ctx, ns, expected, j);
    FollowsIsGreedy(T, root, a);
    FollowsIsGreedy(T, root, b);
    GreedyPrefix(T, root, |a|, |b|);
    assert Path(ns, i) == [ns[0].token] + a && Path(ns, j) == [ns[0].token] + b;
  }

  /** `b` is the last of the longest agreed nodes. */
  ghost predicate BestNode(ns: seq<TreeNode>, expected: seq<TokenId>, b: nat)
    requires WellFormed(ns)
  {
    && b < |ns| && Agreed(ns, expected, b)
    && forall i :: 0 <= i < |ns| && Agreed(ns, expected, i) ==>
         |Path(ns, i)| <= |Path(ns, b)| && (i > b ==> |Path(ns, i)| < |Path(ns, b)|)
  }

  /** No branch that follows the target is longer than the best one. */
  lemma BestPathIsMaximal(T: Target, ctx: seq<TokenId>, ns: seq<TreeNode>, expected: seq<TokenId>, b: nat, i: nat)
    requires WellFormed(ns) && Judged(T, ctx, ns, expected) && BestNode(ns, expected, b)
    requires i < |ns| && Follows(T, ctx + [ns[0].token], Path(ns, i)[1..])
    ensures |Path(ns, i)| <= |Path(ns, b)|
  {
    hide Path, Follows, Judged;
    AgreedIsGreedy(T, ctx, ns, expected, i);
  }

  /** Soundness: the best path plus the token after it is the root followed by the target's own
      continuation. Maximality: no branch that follows the target is longer. */
  lemma BestPathIsGreedy(T: Target, ctx: seq<TokenId>, ns: seq<TreeNode>, expected: seq<TokenId>, b: nat)
    requires WellFormed(ns) && Judged(T, ctx, ns, expected) && BestNode(ns, expected, b)
    ensures var root := [ns[0].token];
            Path(ns, b) + [expected[b]] == root + Greedy(T, ctx + root, |Path(ns, b)|)
    ensures forall i :: 0 <= i < |ns| && Follows(T, ctx + [ns[0].token], Path(ns, i)[1..]) ==> |Path(ns, i)| <= |Path(ns, b)|
  {
    hide Follows, Greedy, Path, BestNode, Agreed;
    BestIsAgreed(ns, expected, b);
    forall i: nat | i < |ns| && Follows(T, ctx + [ns[0].token], Path(ns, i)[1..]) ensures |Path(ns, i)| <= |Path(ns, b)| {
      BestPathIsMaximal(T, ctx, ns, expected, b, i);
    }
    var root, tail, x := [ns[0].token], Path(ns, b)[1..], expected[b];
    AgreedIsGreedy(T, ctx, ns, expected, b);
    assert Path(ns, b) == root + tail;
    assert ctx + root + tail == ctx + Path(ns, b);
    FollowsSnoc(T, ctx + root, tail, x);
    FollowsIsGreedy(T, ctx + root, tail + [x]);
    assert root + tail + [x] == root + (tail + [x]);
  }

  lemma BestIsAgreed(ns: seq<TreeNode>, expected: seq<TokenId>, b: nat)
    requires WellFormed(ns) && BestNode(ns, expected, b)
    ensures b < |ns| && Agreed(ns, expected, b)
  {}

  /** The root token itself is never checked: the whole result is the target's continuation of the
      context if and only if the drafted root was the target's token. */
  lemma RootUnchecked(T: Target, ctx: seq<TokenId>, ns: seq<TreeNode>, expected: seq<TokenId>, b: nat)
    requires WellFormed(ns) && Judged(T, ctx, ns, expected) && BestNode(ns, expected, b)
    ensures Follows(T, ctx, Path(ns, b) + [expected[b]]) <==> ns[0].token == T(ctx)
  {
    var root := [ns[0].token];
    var rest := Greedy(T, ctx + root, |Path(ns, b)|);
    BestPathIsGreedy(T, ctx, ns, expected, b);
    FollowsIsGreedy(T, ctx + root, rest);
    FollowsAppend(T, ctx, root, rest);
    assert Follows(T, ctx, root) <==> ns[0].token == T(ctx) by {
      assert ctx + root[..0] == ctx;
    }
  }

  class SpeculativeTree {
    var nodes: seq<TreeNode>

    ghost predicate Valid()
      reads this
    {
      WellFormed(nodes)
    }

    constructor (token: TokenId)
      ensures Valid() && nodes == [TreeNode(token, None)]
    {
      nodes := [TreeNode(token, None)];
    }

    /** Append a child. The tree stays well formed exactly when the parent exists; then no other path changes. */
    method AddChild(parent: nat, token: TokenId) returns (idx: nat)
      requires Valid()
      modifies this
      ensures idx == old(|nodes|) && nodes == old(nodes) + [TreeNode(token, Some(parent))]
      ensures Valid() <==> parent < |old(nodes)|
      ensures parent < |old(nodes)| ==> Path(nodes, idx) == old(Path(nodes, parent)) + [token]
      ensures parent < |old(nodes)| ==> forall i :: 0 <= i < |old(nodes)| ==> Path(nodes, i) == old(Path(nodes, i))
    {
      idx := |nodes|;
      nodes := nodes + [TreeNode(token, Some(parent))];
      assert nodes[idx].parent == Some(parent);
      if parent < idx {
        forall i | 0 <= i < |old(nodes)| ensures Path(nodes, i) == old(Path(nodes, i)) {
          PathStable(old(nodes), nodes, i);
        }
      }
    }

    /** Walk to the root, then reverse. */
    method GetPath(idx: nat) returns (path: seq<TokenId>)
      requires Valid() && idx < |nodes|
      ensures path == Path(nodes, idx)
    {
      path := [];
      var node: nat := idx;
      while nodes[node].parent.Some?
        invariant node < |nodes|
        invariant Path(nodes, idx) == Path(nodes, node) + Reversed(path)
        decreases node
      {
        path := path + [nodes[node].token];
        node := nodes[node].parent.value;
      }
      path := path + [nodes[node].token];
      path := Reversed(path);
    }

    /** One pass in index order: parents are settled before their children. */
    method MarkAgreed(expected: seq<TokenId>) returns (valid: seq<bool>)
      requires Valid()
      requires forall i :: 0 < i < |nodes| ==> nodes[i].parent.value < |expected|
      ensures |valid| == |nodes| && forall i :: 0 <= i < |nodes| ==> valid[i] == Agreed(nodes, expected, i)
    {
      valid := seq(|nodes|, i => i == 0);
      for i := 1 to |nodes|
        invariant |valid| == |nodes|
        invariant forall k :: 0 <= k < i ==> valid[k] == Agreed(nodes, expected, k)
        invariant forall k :: i <= k < |nodes| ==> !valid[k]
      {
        var parent := nodes[i].parent;
        if parent.Some? && valid[parent.value] && nodes[i].token == expected[parent.value] {
          valid := valid[i := true];
        }
      }
    }

    /** The longest agreed branch and the token expected after it. */
    method FindBestPath(expected: seq<TokenId>) returns (best: seq<TokenId>, rejected: Option<TokenId>)
      requires Valid()
      requires forall i :: 0 < i < |nodes| ==> nodes[i].parent.value < |expected|
      ensures exists b: nat ::
        && BestNode(nodes, expected, b) && best == Path(nodes, b)
        && rejected == if b < |expected| then Some(expected[b]) else None
    {
      var valid := MarkAgreed(expected);
      assert Agreed(nodes, expected, 0);
      hide Agreed, Path, WellFormed;
      best, rejected := [], None;
      ghost var b: nat := 0;
      var maxLen := 0;
      for i := 0 to |nodes|
        invariant maxLen == |best| && (i == 0 ==> maxLen == 0)
        invariant i > 0 ==> b < i && Agreed(nodes, expected, b) && best == Path(nodes, b)
        invariant i > 0 ==> rejected == if b < |expected| then Some(expected[b]) else None
        invariant forall k :: 0 <= k < i && Agreed(nodes, expected, k) ==>
          |Path(nodes, k)| <= maxLen && (k > b ==> |Path(nodes, k)| < maxLen)
      {
        if valid[i] {
          var path := GetPath(i);
          if |path| >= maxLen {
            maxLen, best, b := |path|, path, i;
            rejected := if i < |expected| then Some(expected[i]) else None;
          }
        }
      }
      assert BestNode(nodes, expected, b);
    }
  }

  function Reversed(s: seq<TokenId>): (r: seq<TokenId>)
    ensures |r| == |s| && forall i :: 0 <= i < |s| ==> r[i] == s[|s| - 1 - i]
  {
    seq(|s|, i requires 0 <= i < |s| => s[|s| - 1 - i])
  }

  lemma {:induction false} PathStable(ns: seq<TreeNode>, ns': seq<TreeNode>, i: nat)
    requires WellFormed(ns) && WellFormed(ns') && ns <= ns' && i < |ns|
    ensures Path(ns', i) == Path(ns, i)
  {
    assert ns'[i] == ns[i] && ns'[0] == ns[0];
    if i > 0 {
      PathStable(ns, ns', ns[i].parent.value);
    }
  }

  // ----- The default `verify_tree` -----

  /** `c` is the first node, in index order, whose parent is `i`. */
  ghost predicate FirstChild(ns: seq<TreeNode>, i: nat, c: nat) {
    c < |ns| && ns[c].parent == Some(i) && forall k :: 0 <= k < c ==> ns[k].parent != Some(i)
  }

  /** The branch that always takes the first child, down to a leaf. */
  ghost predicate LeftmostBranch(ns: seq<TreeNode>, branch: seq<nat>) {
    && branch != [] && branch[0] == 0
    && (forall k :: 0 <= k < |branch| ==> branch[k] < |ns|)
    && (forall k :: 0 < k < |branch| ==> FirstChild(ns, branch[k - 1], branch[k]))
    && (forall i :: 0 <= i < |ns| ==> ns[i].parent != Some(branch[|branch| - 1]))
  }

  function BranchTokens(ns: seq<TreeNode>, branch: seq<nat>): (r: seq<TokenId>)
    requires forall k :: 0 <= k < |branch| ==> branch[k] < |ns|
    ensures |r| == |branch| && forall k :: 0 <= k < |branch| ==> r[k] == ns[branch[k]].token
  {
    seq(|branch|, k requires 0 <= k < |branch| => ns[branch[k]].token)
  }

  /** What the default verification records: `verify`'s answer for position `k` of the leftmost
      branch goes to the branch's `k`-th node, and every other node gets the placeholder 0. */
  ghost predicate DefaultJudged(ns: seq<TreeNode>, branch: seq<nat>, steps: seq<VerifyStep>, expected: seq<TokenId>) {
    && |expected| == |ns| && LeftmostBranch(ns, branch)
    && (forall k :: 0 <= k < |branch| && k < |steps| ==> expected[branch[k]] == steps[k].expected)
    && (forall i :: 0 <= i < |ns| && (forall k :: 0 <= k < |branch| && k < |steps| ==> branch[k] != i) ==> expected[i] == 0)
  }

  /** The outcome of the default verification, given what `verify` said about the branch. */
  ghost predicate DefaultAnswer(ns: seq<TreeNode>, branch: seq<nat>, steps: Result<seq<VerifyStep>, SpecError>,
                                r: Result<seq<TokenId>, SpecError>)
  {
    if steps.Err? then r == Err(steps.error)
    else r.Ok? && DefaultJudged(ns, branch, steps.value, r.value)
  }

  method FindFirstChild(ns: seq<TreeNode>, i: nat) returns (c: Option<nat>)
    ensures c.Some? ==> FirstChild(ns, i, c.value)
    ensures c.None? ==> forall k :: 0 <= k < |ns| ==> ns[k].parent != Some(i)
  {
    for k := 0 to |ns|
      invariant forall j :: 0 <= j < k ==> ns[j].parent != Some(i)
    {
      if ns[k].parent == Some(i) {
        return Some(k);
      }
    }
    c := None;
  }

  method DefaultVerifyTree(ns: seq<TreeNode>, ctx: seq<TokenId>, verify: VerifyFn, call: nat)
      returns (r: Result<seq<TokenId>, SpecError>)
    requires WellFormed(ns)
    ensures exists branch: seq<nat> :: LeftmostBranch(ns, branch) && DefaultAnswer(ns, branch, verify(call, ctx, BranchTokens(ns, branch)), r)
  {
    var indices: seq<nat> := [0];
    var curr: nat := 0;
    var next := FindFirstChild(ns, curr);
    while next.Some?
      invariant indices != [] && indices[0] == 0 && indices[|indices| - 1] == curr < |ns|
      invariant forall k :: 0 <= k < |indices| ==> indices[k] < |ns|
      invariant forall k :: 0 < k < |indices| ==> FirstChild(ns, indices[k - 1], indices[k])
      invariant forall j, k :: 0 <= j < k < |indices| ==> indices[j] < indices[k]
      invariant next.Some? ==> FirstChild(ns, curr, next.value)
      invariant next.None? ==> forall k :: 0 <= k < |ns| ==> ns[k].parent != Some(curr)
      decreases |ns| - curr, next.Some?
    {
      curr := next.value;
      indices := indices + [curr];
      next := FindFirstChild(ns, curr);
    }
    assert LeftmostBranch(ns, indices);
    var steps := verify(call, ctx, BranchTokens(ns, indices));
    if steps.Err? {
      return Err(steps.error);
    }
    var expected := seq(|ns|, i => 0);
    var n := Min(|indices|, |steps.value|);
    for k := 0 to n
      invariant |expected| == |ns|
      invariant forall j :: 0 <= j < k ==> expected[indices[j]] == steps.value[j].expected
      invariant forall i :: 0 <= i < |ns| && (forall j :: 0 <= j < k ==> indices[j] != i) ==> expected[i] == 0
    {
      expected := expected[indices[k] := steps.value[k].expected];
    }
    r := Ok(expected);
    assert DefaultAnswer(ns, indices, steps, r);
  }

  // ----- When the default verification is right -----

  lemma {:induction false} BranchPath(ns: seq<TreeNode>, branch: seq<nat>, k: nat)
    requires WellFormed(ns) && LeftmostBranch(ns, branch) && k < |branch|
    ensures Path(ns, branch[k]) == BranchTokens(ns, branch)[..k + 1]
  {
    var tokens := BranchTokens(ns, branch);
    if k == 0 {
      assert tokens[..1] == [ns[0].token];
    } else {
      BranchPath(ns, branch, k - 1);
      assert FirstChild(ns, branch[k - 1], branch[k]);
      assert tokens[..k + 1] == tokens[..k] + [ns[branch[k]].token];
    }
  }

  /** The path to a node without its own token. */
  ghost function Above(ns: seq<TreeNode>, i: nat): seq<TokenId>
    requires WellFormed(ns) && i < |ns|
  {
    Path(ns, i)[..|Path(ns, i)| - 1]
  }

  /** As far as it goes, the answer says what the target wants at each position of the draft. */
  ghost predicate InTurn(T: Target, ctx: seq<TokenId>, drafted: seq<TokenId>, steps: seq<VerifyStep>) {
    forall i :: 0 <= i < |drafted| && i < |steps| ==> steps[i].expected == T(ctx + drafted[..i])
  }

  /** The nodes an answer of `n` steps reaches. */
  ghost function Seen(branch: seq<nat>, n: nat): (seen: seq<nat>)
    ensures |seen| == Min(n, |branch|) && seen <= branch
  {
    branch[..Min(n, |branch|)]
  }

  /** What the default verification records for node `i`: if the answer reaches it the target's token *before* the
      node, otherwise the placeholder. */
  ghost function Recorded(T: Target, ctx: seq<TokenId>, ns: seq<TreeNode>, seen: seq<nat>, i: nat): TokenId
    requires WellFormed(ns) && i < |ns|
  {
    if i in seen then T(ctx + Above(ns, i)) else 0
  }

  lemma RecordedIs(T: Target, ctx: seq<TokenId>, ns: seq<TreeNode>, branch: seq<nat>, steps: seq<VerifyStep>,
                   expected: seq<TokenId>, i: nat)
    requires WellFormed(ns) && i < |ns| && DefaultJudged(ns, branch, steps, expected)
    requires InTurn(T, ctx, BranchTokens(ns, branch), steps)
    ensures expected[i] == Recorded(T, ctx, ns, Seen(branch, |steps|), i)
  {
    var seen := Seen(branch, |steps|);
    if i in seen {
      var k: nat :| k < |seen| && seen[k] == i;
      assert branch[k] == i;
      BranchPath(ns, branch, k);
      assert BranchTokens(ns, branch)[..k + 1][..k] == BranchTokens(ns, branch)[..k];
    } else {
      forall k | 0 <= k < |branch| && k < |steps| ensures branch[k] != i {
        assert seen[k] == branch[k];
      }
    }
  }

  /** At every node on the way to `i` the recorded token happens to be the target's token *after* that node. */
  ghost predicate Harmless(T: Target, ctx: seq<TokenId>, ns: seq<TreeNode>, seen: seq<nat>, i: nat)
    requires WellFormed(ns) && i < |ns|
  {
    && Recorded(T, ctx, ns, seen, i) == T(ctx + Path(ns, i))
    && (i > 0 ==> Harmless(T, ctx, ns, seen, ns[i].parent.value))
  }

  /** On every tree, for every target and any number of answers, what the search emits from node `i` follows the target
      exactly when the recorded tokens on the way were harmless. */
  lemma {:induction false} DefaultTreeExact(T: Target, ctx: seq<TokenId>, ns: seq<TreeNode>, branch: seq<nat>,
                                            steps: seq<VerifyStep>, expected: seq<TokenId>, i: nat)
    requires WellFormed(ns) && i < |ns| && DefaultJudged(ns, branch, steps, expected)
    requires InTurn(T, ctx, BranchTokens(ns, branch), steps) && Agreed(ns, expected, i)
    ensures Follows(T, ctx + [ns[0].token], Path(ns, i)[1..] + [expected[i]]) <==> Harmless(T, ctx, ns, Seen(branch, |steps|), i)
  {
    hide Follows, InTurn, Recorded, Seen;
    var root, tail := [ns[0].token], Path(ns, i)[1..];
    RecordedIs(T, ctx, ns, branch, steps, expected, i);
    FollowsSnoc(T, ctx + root, tail, expected[i]);
    assert Path(ns, i) == root + tail;
    assert ctx + root + tail == ctx + Path(ns, i);
    assert |expected| == |ns|;
    if i == 0 {
      FollowsNothing(T, ctx + root);
      assert tail == [];
    } else {
      var p := ns[i].parent.value;
      DefaultTreeExact(T, ctx, ns, branch, steps, expected, p);
      assert tail == Path(ns, p)[1..] + [expected[p]];
    }
  }

  lemma {:induction false} HarmlessAtRoot(T: Target, ctx: seq<TokenId>, ns: seq<TreeNode>, seen: seq<nat>, i: nat)
    requires WellFormed(ns) && i < |ns| && 0 in seen && Harmless(T, ctx, ns, seen, i)
    ensures T(ctx) == T(ctx + [ns[0].token])
  {
    if i > 0 {
      HarmlessAtRoot(T, ctx, ns, seen, ns[i].parent.value);
    } else {
      assert ctx + Above(ns, 0) == ctx;
    }
  }

  /** However the default verification records `T`'s answers, if there are any, the search emits a token `T` would not. */
  ghost predicate Misled(T: Target, ctx: seq<TokenId>, ns: seq<TreeNode>)
    requires WellFormed(ns)
  {
    forall branch: seq<nat>, steps: seq<VerifyStep>, expected: seq<TokenId>, b: nat ::
      DefaultJudged(ns, branch, steps, expected) && steps != []
      && InTurn(T, ctx, BranchTokens(ns, branch), steps) && BestNode(ns, expected, b)
      ==> !Follows(T, ctx + [ns[0].token], Path(ns, b)[1..] + [expected[b]])
  }

  lemma RootIsSeen(ns: seq<TreeNode>, branch: seq<nat>, n: nat)
    requires LeftmostBranch(ns, branch) && n > 0
    ensures 0 in Seen(branch, n)
  {
    assert Seen(branch, n)[0] == branch[0];
  }

  /** On every tree, a target whose choice changes with the root token is misled. */
  lemma DefaultVerifyTreeShifted(T: Target, ctx: seq<TokenId>, ns: seq<TreeNode>)
    requires WellFormed(ns) && T(ctx) != T(ctx + [ns[0].token])
    ensures Misled(T, ctx, ns)
  {
    hide Follows, Path, Agreed, InTurn, Seen;
    forall branch: seq<nat>, steps: seq<VerifyStep>, expected: seq<TokenId>, b: nat |
      DefaultJudged(ns, branch, steps, expected) && steps != []
      && InTurn(T, ctx, BranchTokens(ns, branch), steps) && BestNode(ns, expected, b)
      ensures !Follows(T, ctx + [ns[0].token], Path(ns, b)[1..] + [expected[b]])
    {
      DefaultTreeExact(T, ctx, ns, branch, steps, expected, b);
      RootIsSeen(ns, branch, |steps|);
      if Harmless(T, ctx, ns, Seen(branch, |steps|), b) {
        HarmlessAtRoot(T, ctx, ns, Seen(branch, |steps|), b);
      }
    }
  }

  // ----- The condition on tree and target alone -----

  ghost function Records(T: Target, ctx: seq<TokenId>, ns: seq<TreeNode>, seen: seq<nat>): (r: seq<TokenId>)
    requires WellFormed(ns)
    ensures |r| == |ns| && forall i :: 0 <= i < |ns| ==> r[i] == Recorded(T, ctx, ns, seen, i)
  {
    seq(|ns|, i requires 0 <= i < |ns| => Recorded(T, ctx, ns, seen, i))
  }

  /** With `n` answers, what this target would have recorded on this tree leads the search to a harmless path. Nothing
      here depends on a call: the tree has one leftmost branch and one best node. */
  ghost predicate TreeSuits(T: Target, ctx: seq<TokenId>, ns: seq<TreeNode>, n: nat)
    requires WellFormed(ns)
  {
    forall branch: seq<nat>, b: nat :: LeftmostBranch(ns, branch) && BestNode(ns, Records(T, ctx, ns, Seen(branch, n)), b) ==>
      Harmless(T, ctx, ns, Seen(branch, n), b)
  }

  lemma {:induction false} BranchesMeet(ns: seq<TreeNode>, branch: seq<nat>, other: seq<nat>, k: nat)
    requires LeftmostBranch(ns, branch) && LeftmostBranch(ns, other) && k < |branch|
    ensures k < |other| && branch[k] == other[k]
  {
    if k > 0 {
      BranchesMeet(ns, branch, other, k - 1);
      assert FirstChild(ns, branch[k - 1], branch[k]);
      if k < |other| {
        assert FirstChild(ns, other[k - 1], other[k]);
      }
    }
  }

  lemma OneBranch(ns: seq<TreeNode>, branch: seq<nat>, other: seq<nat>)
    requires LeftmostBranch(ns, branch) && LeftmostBranch(ns, other)
    ensures branch == other
  {
    hide LeftmostBranch;
    BranchHasRoot(ns, branch);
    BranchHasRoot(ns, other);
    BranchesMeet(ns, branch, other, |branch| - 1);
    BranchesMeet(ns, other, branch, |other| - 1);
    forall k | 0 <= k < |branch| ensures branch[k] == other[k] {
      BranchesMeet(ns, branch, other, k);
    }
  }

  lemma BranchHasRoot(ns: seq<TreeNode>, branch: seq<nat>)
    requires LeftmostBranch(ns, branch)
    ensures branch != []
  {}

  lemma OneBest(ns: seq<TreeNode>, expected: seq<TokenId>, b: nat, c: nat)
    requires WellFormed(ns) && BestNode(ns, expected, b) && BestNode(ns, expected, c)
    ensures b == c
  {
    hide Agreed, Path;
  }

  /** The emission follows the target exactly when tree and target suit each other. */
  lemma DefaultTreeSuits(T: Target, ctx: seq<TokenId>, ns: seq<TreeNode>, branch: seq<nat>, steps: seq<VerifyStep>,
                         expected: seq<TokenId>, b: nat)
    requires WellFormed(ns) && DefaultJudged(ns, branch, steps, expected)
    requires InTurn(T, ctx, BranchTokens(ns, branch), steps) && BestNode(ns, expected, b)
    ensures expected == Records(T, ctx, ns, Seen(branch, |steps|))
    ensures Follows(T, ctx + [ns[0].token], Path(ns, b)[1..] + [expected[b]]) <==> TreeSuits(T, ctx, ns, |steps|)
  {
    hide Follows, InTurn, Recorded, Seen, Harmless, Path, Agreed;
    DefaultTreeExact(T, ctx, ns, branch, steps, expected, b);
    var records := Records(T, ctx, ns, Seen(branch, |steps|));
    forall i: nat | i < |ns| ensures expected[i] == records[i] {
      RecordedIs(T, ctx, ns, branch, steps, expected, i);
    }
    assert expected == records;
    forall other: seq<nat>, c: nat | LeftmostBranch(ns, other) && BestNode(ns, Records(T, ctx, ns, Seen(other, |steps|)), c)
      ensures other == branch && c == b
    {
      OneBranch(ns, branch, other);
      OneBest(ns, expected, b, c);
    }
  }

  // ----- Chains, as the default `draft_tree` builds them -----

  /** The tree that strings `tokens` one below the other. */
  function ChainTree(tokens: seq<TokenId>): (ns: seq<TreeNode>)
    requires tokens != []
    ensures |ns| == |tokens| && WellFormed(ns)
    ensures forall i :: 0 <= i < |ns| ==> ns[i] == TreeNode(tokens[i], if i == 0 then None else Some(i - 1))
  {
    seq(|tokens|, i requires 0 <= i < |tokens| => TreeNode(tokens[i], if i == 0 then None else Some(i - 1)))
  }

  lemma {:induction false} ChainPath(tokens: seq<TokenId>, i: nat)
    requires tokens != [] && i < |tokens|
    ensures Path(ChainTree(tokens), i) == tokens[..i + 1]
  {
    if i > 0 {
      ChainPath(tokens, i - 1);
      assert tokens[..i + 1] == tokens[..i] + [tokens[i]];
    } else {
      assert tokens[..1] == [tokens[0]];
    }
  }

  lemma {:induction false} ChainBranch(tokens: seq<TokenId>, branch: seq<nat>, i: nat)
    requires tokens != [] && LeftmostBranch(ChainTree(tokens), branch) && i < |tokens|
    ensures i < |branch| && branch[i] == i
  {
    var ns := ChainTree(tokens);
    if i > 0 {
      ChainBranch(tokens, branch, i - 1);
      assert ns[i].parent == Some(branch[i - 1]);
      assert i < |branch|;
      assert FirstChild(ns, branch[i - 1], branch[i]);
    }
  }

  /** The target's choice is the same after every prefix of `path`. */
  ghost predicate Steady(T: Target, ctx: seq<TokenId>, path: seq<TokenId>) {
    forall j :: 0 <= j <= |path| ==> T(ctx + path[..j]) == T(ctx)
  }

  lemma SteadySnoc(T: Target, ctx: seq<TokenId>, path: seq<TokenId>, x: TokenId)
    ensures Steady(T, ctx, path + [x]) <==> Steady(T, ctx, path) && T(ctx + path + [x]) == T(ctx)
  {
    var p := path + [x];
    assert forall j :: 0 <= j <= |path| ==> p[..j] == path[..j];
    assert p[..|p|] == p;
    assert ctx + path + [x] == ctx + p;
  }

  lemma {:induction false} ChainHarmless(T: Target, ctx: seq<TokenId>, tokens: seq<TokenId>, branch: seq<nat>, i: nat)
    requires tokens != [] && i < |tokens| && LeftmostBranch(ChainTree(tokens), branch)
    ensures Harmless(T, ctx, ChainTree(tokens), branch, i) <==> Steady(T, ctx, tokens[..i + 1])
  {
    hide Steady, LeftmostBranch;
    var ns, p := ChainTree(tokens), tokens[..i];
    ChainPath(tokens, i);
    ChainBranch(tokens, branch, i);
    assert tokens[..i + 1] == p + [tokens[i]];
    assert Above(ns, i) == p;
    assert ctx + p + [tokens[i]] == ctx + tokens[..i + 1];
    SteadySnoc(T, ctx, p, tokens[i]);
    if i == 0 {
      SteadyNil(T, ctx);
      assert ctx + p == ctx;
    } else {
      ChainHarmless(T, ctx, tokens, branch, i - 1);
      if Steady(T, ctx, p) {
        SteadyEnd(T, ctx, p);
      }
    }
  }

  lemma SteadyNil(T: Target, ctx: seq<TokenId>)
    ensures Steady(T, ctx, [])
  {
    assert ctx + [] == ctx;
  }

  lemma SteadyEnd(T: Target, ctx: seq<TokenId>, path: seq<TokenId>)
    requires Steady(T, ctx, path)
    ensures T(ctx + path) == T(ctx)
  {
    assert path[..|path|] == path;
  }

  /** How many tokens after the root are `c`, before the first that is not. */
  function Leading(tokens: seq<TokenId>, c: TokenId): (m: nat)
    requires tokens != []
    ensures m < |tokens| && forall i :: 0 < i <= m ==> tokens[i] == c
    ensures m + 1 < |tokens| ==> tokens[m + 1] != c
  {
    LeadingFrom(tokens, c, 0)
  }

  function LeadingFrom(tokens: seq<TokenId>, c: TokenId, k: nat): (m: nat)
    requires k < |tokens| && forall i :: 0 < i <= k ==> tokens[i] == c
    ensures k <= m < |tokens| && forall i :: 0 < i <= m ==> tokens[i] == c
    ensures m + 1 < |tokens| ==> tokens[m + 1] != c
    decreases |tokens| - k
  {
    if k + 1 < |tokens| && tokens[k + 1] == c then LeadingFrom(tokens, c, k + 1) else k
  }

  lemma {:induction false} ChainAgreed(T: Target, ctx: seq<TokenId>, tokens: seq<TokenId>, expected: seq<TokenId>, i: nat)
    requires tokens != [] && i < |tokens| && |expected| == |tokens|
    requires forall k :: 0 <= k < |tokens| ==> expected[k] == T(ctx + tokens[..k])
    ensures Agreed(ChainTree(tokens), expected, i) <==> forall k :: 0 <= k < i ==> T(ctx + tokens[..k]) == tokens[k + 1]
  {
    if i > 0 {
      ChainAgreed(T, ctx, tokens, expected, i - 1);
    }
  }

  /** On a chain the emission is right exactly when the target chooses one and the same token after the context, the
      root, and each of the draft's repetitions of that token. */
  lemma ChainExact(T: Target, ctx: seq<TokenId>, tokens: seq<TokenId>, branch: seq<nat>, steps: seq<VerifyStep>,
                   expected: seq<TokenId>, b: nat)
    requires tokens != [] && DefaultJudged(ChainTree(tokens), branch, steps, expected) && |steps| == |branch|
    requires InTurn(T, ctx, BranchTokens(ChainTree(tokens), branch), steps) && BestNode(ChainTree(tokens), expected, b)
    ensures Follows(T, ctx + [tokens[0]], tokens[1..b + 1] + [expected[b]]) <==> Steady(T, ctx, tokens[..b + 1])
    ensures Steady(T, ctx, tokens[..b + 1]) <==> Steady(T, ctx, tokens[..Leading(tokens, T(ctx)) + 1])
  {
    hide Follows, InTurn, Leading;
    var ns := ChainTree(tokens);
    assert Seen(branch, |steps|) == branch;
    forall k | 0 <= k < |tokens| ensures expected[k] == T(ctx + tokens[..k]) {
      RecordedIs(T, ctx, ns, branch, steps, expected, k);
      ChainPath(tokens, k);
      ChainBranch(tokens, branch, k);
      assert tokens[..k + 1][..k] == tokens[..k];
    }
    ChainPath(tokens, b);
    assert tokens[..b + 1][1..] == tokens[1..b + 1];
    DefaultTreeExact(T, ctx, ns, branch, steps, expected, b);
    ChainHarmless(T, ctx, tokens, branch, b);
    ChainBest(T, ctx, tokens, expected, b);
  }

  /** Where the target is steady, the best node is the last repetition. */
  lemma ChainBest(T: Target, ctx: seq<TokenId>, tokens: seq<TokenId>, expected: seq<TokenId>, b: nat)
    requires tokens != [] && |expected| == |tokens| && BestNode(ChainTree(tokens), expected, b)
    requires forall k :: 0 <= k < |tokens| ==> expected[k] == T(ctx + tokens[..k])
    ensures Steady(T, ctx, tokens[..b + 1]) <==> Steady(T, ctx, tokens[..Leading(tokens, T(ctx)) + 1])
  {
    hide Agreed, WellFormed, Path;
    var ns, c := ChainTree(tokens), T(ctx);
    var m := Leading(tokens, c);
    ChainAgreed(T, ctx, tokens, expected, b);
    var next := T(ctx + tokens[..m]);
    if Steady(T, ctx, tokens[..b + 1]) {
      SteadyAt(T, ctx, tokens, b + 1);
      if m > b {
        ChainAgreed(T, ctx, tokens, expected, b + 1);
        ChainPath(tokens, b);
        ChainPath(tokens, b + 1);
      }
    } else if Steady(T, ctx, tokens[..m + 1]) {
      SteadyAt(T, ctx, tokens, m + 1);
      ChainAgreed(T, ctx, tokens, expected, m);
      ChainPath(tokens, m);
      ChainPath(tokens, b);
    }
  }

  lemma SteadyAt(T: Target, ctx: seq<TokenId>, tokens: seq<TokenId>, n: nat)
    requires n <= |tokens| && Steady(T, ctx, tokens[..n])
    ensures forall k :: 0 <= k <= n ==> T(ctx + tokens[..k]) == T(ctx)
  {
    assert forall k :: 0 <= k <= n ==> tokens[..n][..k] == tokens[..k];
  }

  /** The default `draft_tree`: a linear draft strung into a chain; an empty draft is an error. */
  method DraftTree(draft: DraftFn, call: nat, ctx: seq<TokenId>, maxTokens: nat) returns (r: Result<SpeculativeTree, SpecError>)
    ensures var linear := draft(call, ctx, maxTokens);
            if linear.Err? then r == Err(linear.error)
            else if linear.value == [] then r == Err(ModelError)
            else r.Ok? && fresh(r.value) && r.value.nodes == ChainTree(Tokens(linear.value))
  {
    var linear := draft(call, ctx, maxTokens);
    if linear.Err? {
      return Err(linear.error);
    }
    if linear.value == [] {
      return Err(ModelError);
    }
    var tokens := Tokens(linear.value);
    var tree := new SpeculativeTree(tokens[0]);
    var last := 0;
    for i := 1 to |tokens|
      invariant fresh(tree) && tree.Valid() && last == i - 1 && |tree.nodes| == i
      invariant tree.nodes == ChainTree(tokens)[..i]
    {
      last := tree.AddChild(last, tokens[i]);
    }
    assert ChainTree(tokens)[..|tokens|] == ChainTree(tokens);
    r := Ok(tree);
  }

  /** Whenever it answers, one step per drafted token. */
  ghost predicate Complete(verify: VerifyFn) {
    forall call, ctx, drafted :: verify(call, ctx, drafted).Ok? ==> |verify(call, ctx, drafted).value| == |drafted|
  }

  /** Whenever it answers, with any number of steps, each step is what the target wants there. */
  ghost predicate FaithfulInTurn(T: Target, verify: VerifyFn) {
    forall call, ctx, drafted :: verify(call, ctx, drafted).Ok? ==> InTurn(T, ctx, drafted, verify(call, ctx, drafted).value)
  }

  lemma FaithfulIsInTurn(T: Target, verify: VerifyFn)
    requires Faithful(T, verify) && Complete(verify)
    ensures FaithfulInTurn(T, verify)
  {
    forall call, ctx, drafted | verify(call, ctx, drafted).Ok? ensures InTurn(T, ctx, drafted, verify(call, ctx, drafted).value) {
      assert Verifies(T, ctx, drafted, verify(call, ctx, drafted).value);
    }
  }

  /** A round on a tree with the default verification, for every tree, target and verifier that is right as far as it
      answers: the tokens after the root follow the target exactly when tree and target suit each other, never if the
      target's choice changes with the root, and on a chain that is answered in full exactly when the target is steady
      over the draft's repetitions of its first choice. */
  method DefaultTreeRound(tree: SpeculativeTree, ctx: seq<TokenId>, verify: VerifyFn, call: nat, ghost T: Target)
      returns (r: Result<(seq<TokenId>, TokenId), SpecError>)
    requires tree.Valid() && FaithfulInTurn(T, verify)
    ensures exists branch: seq<nat> ::
      && LeftmostBranch(tree.nodes, branch)
      && RoundAnswer(T, ctx, tree.nodes, branch, verify(call, ctx, BranchTokens(tree.nodes, branch)), r)
    ensures r.Ok? && Complete(verify) && T(ctx) != T(ctx + [tree.nodes[0].token]) ==> !RightAfterRoot(T, ctx, r.value)
    ensures r.Ok? && Complete(verify) ==> forall tokens: seq<TokenId> :: tokens != [] && tree.nodes == ChainTree(tokens) ==>
      (RightAfterRoot(T, ctx, r.value) <==> Steady(T, ctx, tokens[..Leading(tokens, T(ctx)) + 1]))
  {
    hide Follows, Path, Agreed, DefaultJudged, FaithfulInTurn, InTurn, FirstChild, Harmless, Steady, TreeSuits, Seen;
    var verified := DefaultVerifyTree(tree.nodes, ctx, verify, call);
    ghost var branch: seq<nat> :| LeftmostBranch(tree.nodes, branch)
      && DefaultAnswer(tree.nodes, branch, verify(call, ctx, BranchTokens(tree.nodes, branch)), verified);
    ghost var answer := verify(call, ctx, BranchTokens(tree.nodes, branch));
    if verified.Err? {
      r := Err(verified.error);
      assert RoundAnswer(T, ctx, tree.nodes, branch, answer, r);
      return;
    }
    ghost var steps := answer.value;
    InTurnAt(T, verify, call, ctx, BranchTokens(tree.nodes, branch));
    JudgedAll(tree.nodes, branch, steps, verified.value);
    var best, rejected := tree.FindBestPath(verified.value);
    ghost var b: nat :| BestNode(tree.nodes, verified.value, b) && best == Path(tree.nodes, b)
      && rejected == if b < |verified.value| then Some(verified.value[b]) else None;
    r := Ok((best, rejected.value));
    DefaultTreeSuits(T, ctx, tree.nodes, branch, steps, verified.value, b);
    assert RoundAnswer(T, ctx, tree.nodes, branch, answer, r);
    if T(ctx) != T(ctx + [tree.nodes[0].token]) && steps != [] {
      DefaultVerifyTreeShifted(T, ctx, tree.nodes);
    }
    forall tokens: seq<TokenId> | tokens != [] && tree.nodes == ChainTree(tokens) && |steps| == |branch|
      ensures RightAfterRoot(T, ctx, r.value) <==> Steady(T, ctx, tokens[..Leading(tokens, T(ctx)) + 1])
    {
      ChainExact(T, ctx, tokens, branch, steps, verified.value, b);
      ChainPath(tokens, b);
      assert tokens[..b + 1][1..] == tokens[1..b + 1];
    }
  }

  /** The verifier's error, or the best path under what was recorded and the token recorded after it; this is right
      exactly when tree and target suit each other. */
  ghost predicate RoundAnswer(T: Target, ctx: seq<TokenId>, ns: seq<TreeNode>, branch: seq<nat>, answer: Result<seq<VerifyStep>, SpecError>,
                              r: Result<(seq<TokenId>, TokenId), SpecError>)
    requires WellFormed(ns)
  {
    match answer
    case Err(e) => r == Err(e)
    case Ok(steps) =>
      var records := Records(T, ctx, ns, Seen(branch, |steps|));
      && r.Ok? && (exists b: nat :: BestNode(ns, records, b) && r.value == (Path(ns, b), records[b]))
      && (RightAfterRoot(T, ctx, r.value) <==> TreeSuits(T, ctx, ns, |steps|))
  }

  /** After its unchecked root the path and the token after it are the target's own continuation. */
  ghost predicate RightAfterRoot(T: Target, ctx: seq<TokenId>, emitted: (seq<TokenId>, TokenId)) {
    emitted.0 != [] && Follows(T, ctx + [emitted.0[0]], emitted.0[1..] + [emitted.1])
  }

  lemma InTurnAt(T: Target, verify: VerifyFn, call: nat, ctx: seq<TokenId>, drafted: seq<TokenId>)
    requires FaithfulInTurn(T, verify) && verify(call, ctx, drafted).Ok?
    ensures InTurn(T, ctx, drafted, verify(call, ctx, drafted).value)
  {}

  lemma JudgedAll(ns: seq<TreeNode>, branch: seq<nat>, steps: seq<VerifyStep>, expected: seq<TokenId>)
    requires DefaultJudged(ns, branch, steps, expected)
    ensures |expected| == |ns|
  {}
}
