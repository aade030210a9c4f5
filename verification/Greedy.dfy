/** Target-only greedy decoding: the yardstick for every speculative form. */
module GreedyDecoding {
  import opened Common

  /** The token the target model alone would emit after a context. */
  type Target = seq<TokenId> -> TokenId

  /** The first `n` tokens of decoding with the target alone. */
  function Greedy(T: Target, ctx: seq<TokenId>, n: nat): (r: seq<TokenId>)
    ensures |r| == n
  {
    if n == 0 then []
    else var r := Greedy(T, ctx, n - 1); r + [T(ctx + r)]
  }

  /** Every token of `s` is the one the target wants next. */
  ghost predicate Follows(T: Target, ctx: seq<TokenId>, s: seq<TokenId>) {
    forall i :: 0 <= i < |s| ==> s[i] == T(ctx + s[..i])
  }

  lemma FollowsNothing(T: Target, ctx: seq<TokenId>)
    ensures Follows(T, ctx, [])
  {}

  lemma FollowsSnoc(T: Target, ctx: seq<TokenId>, s: seq<TokenId>, x: TokenId)
    ensures Follows(T, ctx, s + [x]) <==> Follows(T, ctx, s) && x == T(ctx + s)
  {
    var t := s + [x];
    assert t[..|s|] == s;
    assert forall i :: 0 <= i < |s| ==> t[i] == s[i] && t[..i] == s[..i];
  }

  lemma GreedySnoc(T: Target, ctx: seq<TokenId>, s: seq<TokenId>, x: TokenId)
    ensures s + [x] == Greedy(T, ctx, |s| + 1) <==> s == Greedy(T, ctx, |s|) && x == T(ctx + s)
  {
    var g := Greedy(T, ctx, |s|);
    assert Greedy(T, ctx, |s| + 1) == g + [T(ctx + g)];
    assert s + [x] == g + [T(ctx + g)] ==> s == (g + [T(ctx + g)])[..|s|] == g;
  }

  lemma {:induction false} FollowsIsGreedy(T: Target, ctx: seq<TokenId>, s: seq<TokenId>)
    ensures Follows(T, ctx, s) <==> s == Greedy(T, ctx, |s|)
  {
    if s != [] {
      hide Follows, Greedy;
      var n := |s| - 1;
      FollowsIsGreedy(T, ctx, s[..n]);
      assert s == s[..n] + [s[n]];
      FollowsSnoc(T, ctx, s[..n], s[n]);
      GreedySnoc(T, ctx, s[..n], s[n]);
    }
  }

  /** Greedy decoding can be cut anywhere and resumed. */
  lemma FollowsAppend(T: Target, ctx: seq<TokenId>, a: seq<TokenId>, b: seq<TokenId>)
    ensures Follows(T, ctx, a + b) <==> Follows(T, ctx, a) && Follows(T, ctx + a, b)
  {
    var s := a + b;
    forall i | 0 <= i < |a| ensures s[i] == a[i] && s[..i] == a[..i] {}
    forall j | 0 <= j < |b| ensures s[|a| + j] == b[j] && ctx + s[..|a| + j] == ctx + a + b[..j] {
      assert s[..|a| + j] == a + b[..j];
    }
    if Follows(T, ctx, a) && Follows(T, ctx + a, b) {
      forall i | 0 <= i < |s| ensures s[i] == T(ctx + s[..i]) {
        if i >= |a| {
          assert s[|a| + (i - |a|)] == b[i - |a|];
        }
      }
    }
    if Follows(T, ctx, s) {
      forall j | 0 <= j < |b| ensures b[j] == T(ctx + a + b[..j]) {
        assert s[|a| + j] == T(ctx + s[..|a| + j]);
      }
    }
  }

  /** A shorter greedy continuation is a prefix of a longer one. */
  lemma {:induction false} GreedyPrefix(T: Target, ctx: seq<TokenId>, n: nat, m: nat)
    requires n <= m
    ensures Greedy(T, ctx, n) <= Greedy(T, ctx, m)
  {
    if n < m {
      GreedyPrefix(T, ctx, n, m - 1);
    }
  }
}
