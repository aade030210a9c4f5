/** From stored bytes to products: loading every device's shard and running the feed-forward block on them. */
module ShardedWeights {
  import opened Common
  import opened Arithmetic
  import opened Chunks
  import opened Quantized
  import opened Sharding
  import opened TensorParallel

  /** `ss[p]` is what `shard_weight` hands to device `p`. */
  ghost predicate Loaded(t: Sharded, q: Quant, strategy: Strategy, ss: seq<Sharded>) {
    forall p: nat :: p < |ss| ==> LoadedAt(t, q, strategy, |ss|, p, ss[p])
  }

  ghost predicate LoadedAt(t: Sharded, q: Quant, strategy: Strategy, degree: nat, p: nat, s: Sharded) {
    if !Splits(strategy, degree) then s == t
    else
      && Splittable(strategy, t.shape, degree, p)
      && Refusal(t.shape, q, strategy, degree).None?
      && if strategy.Column? then IsBand(t.data, t.shape, degree, p, s) else IsStripe(t.data, t.shape, degree, p, s)
  }

  /** The loader's loop over devices, for one tensor. */
  method LoadShards(t: Sharded, q: Quant, strategy: Strategy, degree: nat) returns (r: Result<seq<Sharded>, ShardError>)
    requires t.shape != [] && LastDim(t.shape) > 0 && SecondDim(t.shape) > 0 && degree > 0
    ensures r.Ok? ==> |r.value| == degree && Loaded(t, q, strategy, r.value)
    ensures r.Err? <==> Splits(strategy, degree) && Refusal(t.shape, q, strategy, degree).Some?
  {
    hide IsBand, IsStripe, BlockSize;
    var ss := [];
    for p := 0 to degree
      invariant |ss| == p
      invariant p > 0 ==> !Splits(strategy, degree) || Refusal(t.shape, q, strategy, degree).None?
      invariant forall p': nat :: p' < p ==> LoadedAt(t, q, strategy, degree, p', ss[p'])
    {
      var one := ShardWeight(t.data, t.shape, q, strategy, degree, p);
      if one.Err? {
        return Err(one.error);
      }
      assert LoadedAt(t, q, strategy, degree, p, one.value);
      ss := ss + [one.value];
    }
    r := Ok(ss);
  }

  // ----- Which tensor is split how -----

  predicate OccursAt(s: string, sub: string, i: nat) {
    i + |sub| <= |s| && s[i..i + |sub|] == sub
  }

  predicate Contains(s: string, sub: string) {
    exists i: nat | i <= |s| :: OccursAt(s, sub, i)
  }

  function GetShardStrategy(name: string): Strategy {
    if Contains(name, "attention.wq") || Contains(name, "attention.wk") || Contains(name, "attention.wv") then Column
    else if Contains(name, "attention.wo") then Row
    else if Contains(name, "feed_forward.w1") || Contains(name, "feed_forward.w3") then Column
    else if Contains(name, "feed_forward.w2") then Row
    else if name == "output.weight" then Column
    else Replicated
  }

  lemma OccursChar(s: string, sub: string, i: nat, k: nat)
    requires OccursAt(s, sub, i) && k < |sub|
    ensures s[i + k] == sub[k]
  {
    assert s[i..i + |sub|][k] == s[i + k];
  }

  lemma Infix(pre: string, sub: string, post: string)
    ensures Contains(pre + sub + post, sub)
  {
    assert (pre + sub + post)[|pre|..|pre| + |sub|] == sub;
    assert OccursAt(pre + sub + post, sub, |pre|);
  }

  /** What has a character missing from `s` does not occur in `s`. */
  lemma MissingChar(s: string, sub: string, k: nat)
    requires k < |sub| && sub[k] !in s
    ensures !Contains(s, sub)
  {
    forall i: nat | i <= |s| ensures !OccursAt(s, sub, i) {
      if OccursAt(s, sub, i) {
        OccursChar(s, sub, i, k);
      }
    }
  }

  /** The underscore stands in one place only, so what follows it decides. */
  lemma OneUnderscore(s: string, sub: string, at: nat, k: nat, j: nat)
    requires k < |sub| && sub[k] == '_' && k < j < |sub|
    requires forall i :: 0 <= i < |s| && s[i] == '_' ==> i == at
    requires k <= at && (at - k + j < |s| ==> s[at - k + j] != sub[j])
    ensures !Contains(s, sub)
  {
    forall i: nat | i <= |s| ensures !OccursAt(s, sub, i) {
      if OccursAt(s, sub, i) {
        OccursChar(s, sub, i, k);
        OccursChar(s, sub, i, j);
      }
    }
  }

  function FeedForwardName(layer: string, which: char): string {
    "layers." + layer + ".feed_forward.w" + [which] + ".weight"
  }

  /** In every layer the gate and up projections are split by columns and the down projection by rows. */
  lemma FeedForwardPlan(layer: string)
    requires forall i :: 0 <= i < |layer| ==> '0' <= layer[i] <= '9'
    ensures GetShardStrategy(FeedForwardName(layer, '1')) == Column
    ensures GetShardStrategy(FeedForwardName(layer, '3')) == Column
    ensures GetShardStrategy(FeedForwardName(layer, '2')) == Row
  {
    hide Contains;
    assert "feed_forward.w" + ['1'] == "feed_forward.w1";
    assert "feed_forward.w" + ['2'] == "feed_forward.w2";
    assert "feed_forward.w" + ['3'] == "feed_forward.w3";
    NotAttention(layer, '1');
    NotAttention(layer, '2');
    NotAttention(layer, '3');
    FeedForwardOnly(layer, '1', '1');
    FeedForwardOnly(layer, '3', '3');
    FeedForwardOnly(layer, '2', '2');
    FeedForwardOnly(layer, '2', '1');
    FeedForwardOnly(layer, '2', '3');
  }

  function AttentionName(layer: string, which: char): string {
    "layers." + layer + ".attention.w" + [which] + ".weight"
  }

  /** In every layer the query, key and value projections are split by columns and the attention output by rows; the
      output weights are split by columns, and a norm is not split. */
  lemma AttentionPlan(layer: string)
    requires forall i :: 0 <= i < |layer| ==> '0' <= layer[i] <= '9'
    ensures GetShardStrategy(AttentionName(layer, 'q')) == Column
    ensures GetShardStrategy(AttentionName(layer, 'k')) == Column
    ensures GetShardStrategy(AttentionName(layer, 'v')) == Column
    ensures GetShardStrategy(AttentionName(layer, 'o')) == Row
    ensures GetShardStrategy("output.weight") == Column
    ensures GetShardStrategy("output_norm.weight") == Replicated
  {
    hide Contains, AttentionName;
    AttentionHas(layer, 'q', "attention.wq");
    AttentionHas(layer, 'k', "attention.wk");
    AttentionHas(layer, 'v', "attention.wv");
    AttentionHas(layer, 'o', "attention.wo");
    OutputIsRow(layer);
    OutputNames("output.weight");
    OutputNames("output_norm.weight");
  }

  lemma AttentionHas(layer: string, which: char, sub: string)
    requires sub == "attention.w" + [which]
    ensures Contains(AttentionName(layer, which), sub)
  {
    hide Contains;
    assert AttentionName(layer, which) == ("layers." + layer + ".") + sub + ".weight";
    Infix("layers." + layer + ".", sub, ".weight");
  }

  lemma OutputIsRow(layer: string)
    requires forall i :: 0 <= i < |layer| ==> '0' <= layer[i] <= '9'
    ensures var s := AttentionName(layer, 'o'); !Contains(s, "attention.wq") && !Contains(s, "attention.wk") && !Contains(s, "attention.wv")
  {
    hide Contains;
    var s := AttentionName(layer, 'o');
    assert 'q' !in s && 'k' !in s && 'v' !in s;
    MissingChar(s, "attention.wq", 11);
    MissingChar(s, "attention.wk", 11);
    MissingChar(s, "attention.wv", 11);
  }

  /** Names without an `a` or an `f` are no attention or feed-forward weights. */
  lemma OutputNames(s: string)
    requires 'a' !in s && 'f' !in s
    ensures !Contains(s, "attention.wq") && !Contains(s, "attention.wk") && !Contains(s, "attention.wv") && !Contains(s, "attention.wo")
    ensures !Contains(s, "feed_forward.w1") && !Contains(s, "feed_forward.w2") && !Contains(s, "feed_forward.w3")
  {
    hide Contains;
    MissingChar(s, "attention.wq", 0);
    MissingChar(s, "attention.wk", 0);
    MissingChar(s, "attention.wv", 0);
    MissingChar(s, "attention.wo", 0);
    MissingChar(s, "feed_forward.w1", 0);
    MissingChar(s, "feed_forward.w2", 0);
    MissingChar(s, "feed_forward.w3", 0);
  }

  lemma NotAttention(layer: string, which: char)
    requires forall i :: 0 <= i < |layer| ==> '0' <= layer[i] <= '9'
    requires '0' <= which <= '9'
    ensures var s := FeedForwardName(layer, which);
            !Contains(s, "attention.wq") && !Contains(s, "attention.wk") && !Contains(s, "attention.wv") && !Contains(s, "attention.wo")
  {
    hide Contains;
    var s := FeedForwardName(layer, which);
    assert 'n' !in s;
    MissingChar(s, "attention.wq", 4);
    MissingChar(s, "attention.wk", 4);
    MissingChar(s, "attention.wv", 4);
    MissingChar(s, "attention.wo", 4);
  }

  lemma FeedForwardOnly(layer: string, which: char, asked: char)
    requires forall i :: 0 <= i < |layer| ==> '0' <= layer[i] <= '9'
    requires '0' <= which <= '9'
    ensures Contains(FeedForwardName(layer, which), "feed_forward.w" + [asked]) <==> which == asked
  {
    hide Contains;
    var s, sub := FeedForwardName(layer, which), "feed_forward.w" + [asked];
    if which == asked {
      assert s == ("layers." + layer + ".") + sub + ".weight";
      Infix("layers." + layer + ".", sub, ".weight");
    } else {
      OneUnderscore(s, sub, |layer| + 12, 4, 14);
    }
  }

  // ----- The matrix a tensor holds -----

  /** Blocks per row. */
  function RowBlocks(q: Quant, shape: seq<nat>): nat
    requires shape != []
  {
    shape[0] / BlockSize(q)
  }

  /** A two-dimensional tensor of whole rows of whole blocks. */
  ghost predicate IsMatrix(q: Quant, t: Sharded) {
    && |t.shape| == 2 && Blocked(q)
    && WellFormed(q, t.data, t.shape, RowBlocks(q, t.shape), RowBlocks(q, t.shape) * BlockBytes(q))
  }

  ghost function MatOf(c: Codec, q: Quant, t: Sharded): (m: Mat)
    requires IsMatrix(q, t)
    ensures |m| == t.shape[1] && Width(m, t.shape[0])
  {
    Matrix(c, q, t.data, t.shape[1], RowBlocks(q, t.shape), RowBlocks(q, t.shape) * BlockBytes(q))
  }

  lemma MatrixFrom(c: Codec, q: Quant, t: Sharded, n: nat, w: nat)
    requires WellFormed(q, t.data, t.shape, n, w)
    ensures IsMatrix(q, t) && MatOf(c, q, t) == Matrix(c, q, t.data, t.shape[1], n, w)
  {
    hide Matrix, BlockSize, Blocked, BlockBytes;
    MulDiv(n, BlockSize(q));
  }

  lemma MatrixIs(c: Codec, q: Quant, t: Sharded) returns (n: nat, w: nat)
    requires IsMatrix(q, t)
    ensures WellFormed(q, t.data, t.shape, n, w) && MatOf(c, q, t) == Matrix(c, q, t.data, t.shape[1], n, w)
  {
    n := RowBlocks(q, t.shape);
    w := n * BlockBytes(q);
  }

  lemma WholeChunk<T>(s: seq<T>, k: nat)
    requires k == |s|
    ensures Chunk(s, 0, k) == s
  {}

  /** A column-sharded tensor: the devices' matrices are consecutive bands of the whole one. */
  lemma LoadedBand(c: Codec, q: Quant, t: Sharded, ss: seq<Sharded>, p: nat)
    requires IsMatrix(q, t) && Loaded(t, q, Column, ss) && p < |ss|
    ensures IsMatrix(q, ss[p]) && ss[p].shape[0] == t.shape[0] && t.shape[1] == |ss| * ss[p].shape[1]
    ensures p * ss[p].shape[1] + ss[p].shape[1] <= t.shape[1]
    ensures MatOf(c, q, ss[p]) == Chunk(MatOf(c, q, t), p, ss[p].shape[1])
  {
    hide Matrix, MatOf, BlockSize, Blocked, BlockBytes, WellFormed, IsMatrix, IsBand, Chunk;
    MatrixShape(q, t);
    assert LoadedAt(t, q, Column, |ss|, p, ss[p]);
    if |ss| == 1 {
      WholeChunk(MatOf(c, q, t), t.shape[1]);
    } else {
      var n, w := MatrixIs(c, q, t);
      ColumnShard(c, q, t.data, t.shape, n, w, |ss|, p, ss[p]);
      MatrixFrom(c, q, ss[p], n, w);
    }
  }

  lemma MatrixShape(q: Quant, t: Sharded)
    requires IsMatrix(q, t)
    ensures |t.shape| == 2 && t.shape[1] > 0
  {}

  /** A row-sharded tensor: the devices' matrices are consecutive stripes of the whole one. */
  lemma LoadedStripe(c: Codec, q: Quant, t: Sharded, ss: seq<Sharded>, p: nat)
    requires IsMatrix(q, t) && Loaded(t, q, Row, ss) && p < |ss|
    ensures IsMatrix(q, ss[p]) && ss[p].shape[1] == t.shape[1] && t.shape[0] == |ss| * ss[p].shape[0]
    ensures IsStripeOf(MatOf(c, q, t), MatOf(c, q, ss[p]), p, ss[p].shape[0])
  {
    hide Matrix, MatOf, BlockSize, Blocked, BlockBytes, WellFormed, IsMatrix, IsStripe, Chunk;
    MatrixShape(q, t);
    assert LoadedAt(t, q, Row, |ss|, p, ss[p]);
    if |ss| == 1 {
      forall r: nat | r < t.shape[1] ensures MatOf(c, q, t)[r] == Chunk(MatOf(c, q, t)[r], 0, t.shape[0]) {
        WholeChunk(MatOf(c, q, t)[r], t.shape[0]);
      }
    } else {
      var n, w := MatrixIs(c, q, t);
      var k, part := RowShard(c, q, t.data, t.shape, n, w, |ss|, p, ss[p]);
      MatrixFrom(c, q, ss[p], k, part);
    }
  }

  ghost function Mats(c: Codec, q: Quant, ss: seq<Sharded>): (ms: seq<Mat>)
    requires forall p :: 0 <= p < |ss| ==> IsMatrix(q, ss[p])
    ensures |ms| == |ss| && forall p :: 0 <= p < |ms| ==> ms[p] == MatOf(c, q, ss[p])
  {
    seq(|ss|, p requires 0 <= p < |ss| => MatOf(c, q, ss[p]))
  }

  lemma LoadedBands(c: Codec, q: Quant, t: Sharded, ss: seq<Sharded>, k: nat)
    requires IsMatrix(q, t) && Loaded(t, q, Column, ss) && ss != [] && t.shape[1] == |ss| * k
    ensures forall p :: 0 <= p < |ss| ==> IsMatrix(q, ss[p]) && ss[p].shape == [t.shape[0], k]
    ensures Bands(MatOf(c, q, t), Mats(c, q, ss), k)
  {
    hide MatOf, BlockSize, Blocked, BlockBytes, IsMatrix, Loaded, Chunk;
    MatrixShape(q, t);
    forall p: nat | p < |ss|
      ensures IsMatrix(q, ss[p]) && ss[p].shape == [t.shape[0], k] && p * k + k <= t.shape[1]
      ensures MatOf(c, q, ss[p]) == Chunk(MatOf(c, q, t), p, k)
    {
      LoadedBand(c, q, t, ss, p);
      MatrixShape(q, ss[p]);
      MulCancel(ss[p].shape[1], k, |ss|);
    }
  }

  lemma LoadedStripes(c: Codec, q: Quant, t: Sharded, ss: seq<Sharded>, k: nat)
    requires IsMatrix(q, t) && Loaded(t, q, Row, ss) && ss != [] && t.shape[0] == |ss| * k
    ensures forall p :: 0 <= p < |ss| ==> IsMatrix(q, ss[p]) && ss[p].shape == [k, t.shape[1]]
    ensures Stripes(MatOf(c, q, t), Mats(c, q, ss), k)
  {
    hide MatOf, BlockSize, Blocked, BlockBytes, IsMatrix, Loaded, Chunk, IsStripeOf, Width;
    MatrixShape(q, t);
    forall p: nat | p < |ss|
      ensures IsMatrix(q, ss[p]) && ss[p].shape == [k, t.shape[1]]
      ensures IsStripeOf(MatOf(c, q, t), MatOf(c, q, ss[p]), p, k)
    {
      LoadedStripe(c, q, t, ss, p);
      MatrixShape(q, ss[p]);
      MulCancel(ss[p].shape[0], k, |ss|);
    }
  }

  lemma ColumnWidth(c: Codec, q: Quant, t: Sharded, ss: seq<Sharded>) returns (k: nat)
    requires IsMatrix(q, t) && Loaded(t, q, Column, ss) && ss != []
    ensures t.shape[1] == |ss| * k
  {
    LoadedBand(c, q, t, ss, 0);
    k := ss[0].shape[1];
  }

  /** Column-sharded output weights: each device multiplies its stored shard, and gathering gives the full product. */
  lemma LogitsFromShards(c: Codec, q: Quant, t: Sharded, ss: seq<Sharded>, x: seq<real>)
    requires IsMatrix(q, t) && Loaded(t, q, Column, ss) && ss != [] && |x| == t.shape[0]
    ensures forall p :: 0 <= p < |ss| ==> IsMatrix(q, ss[p]) && ss[p].shape[0] == |x|
    ensures Join(BandProducts(Mats(c, q, ss), x)) == MatVec(MatOf(c, q, t), x)
  {
    hide MatOf, BlockSize, Blocked, BlockBytes, IsMatrix, Loaded, Chunk;
    var k := ColumnWidth(c, q, t, ss);
    LoadedBands(c, q, t, ss, k);
    GatheredIsFull(MatOf(c, q, t), Mats(c, q, ss), x, k);
  }

  /**
   * The feed-forward block from stored shards. Device `p` runs the block on its own dequantised shards of w1, w3
   * (columns) and w2 (rows); the sum of the devices' outputs is the block on the unsharded weights.
   */
  lemma MlpFromShards(c: Codec, q: Quant, act: real -> real, t1: Sharded, t3: Sharded, t2: Sharded,
                      ss1: seq<Sharded>, ss3: seq<Sharded>, ss2: seq<Sharded>, x: seq<real>, parts: Mat, i: nat)
    requires IsMatrix(q, t1) && IsMatrix(q, t3) && IsMatrix(q, t2)
    requires t1.shape == t3.shape && t1.shape[0] == |x| && t2.shape[0] == t1.shape[1]
    requires ss1 != [] && |ss3| == |ss2| == |parts| == |ss1|
    requires Loaded(t1, q, Column, ss1) && Loaded(t3, q, Column, ss3) && Loaded(t2, q, Row, ss2)
    requires forall p: nat :: p < |parts| ==> DeviceOutput(c, q, act, ss1[p], ss3[p], ss2[p], x, parts[p])
    requires i < t2.shape[1]
    ensures Width(parts, t2.shape[1])
    ensures SumAt(parts, i) == Mlp(act, MatOf(c, q, t1), MatOf(c, q, t3), MatOf(c, q, t2), x)[i]
  {
    hide MatOf, BlockSize, Blocked, BlockBytes, IsMatrix, Loaded, Chunk, Bands, Stripes, Mlp, DeviceOutput;
    MatrixShape(q, t1);
    MatrixShape(q, t2);
    var k := ColumnWidth(c, q, t1, ss1);
    LoadedBands(c, q, t1, ss1, k);
    LoadedBands(c, q, t3, ss3, k);
    LoadedStripes(c, q, t2, ss2, k);
    var m1, m3, m2 := Mats(c, q, ss1), Mats(c, q, ss3), Mats(c, q, ss2);
    forall p: nat | p < |parts|
      ensures && Width(m1[p], |x|) && Width(m3[p], |x|) && |m1[p]| == |m3[p]| == k && Width(m2[p], k)
              && |parts[p]| == t2.shape[1] && parts[p] == Mlp(act, m1[p], m3[p], m2[p], x)
    {
      DeviceOutputIs(c, q, act, ss1[p], ss3[p], ss2[p], x, parts[p]);
    }
    ShardedMlp(act, MatOf(c, q, t1), MatOf(c, q, t3), MatOf(c, q, t2), m1, m3, m2, x, parts, k, i);
  }

  /** `out` is the block computed from one device's shards. */
  ghost predicate DeviceOutput(c: Codec, q: Quant, act: real -> real, s1: Sharded, s3: Sharded, s2: Sharded,
                               x: seq<real>, out: seq<real>)
  {
    IsMatrix(q, s1) && IsMatrix(q, s3) && IsMatrix(q, s2)
    && s1.shape == s3.shape && s1.shape[0] == |x| && s2.shape[0] == s1.shape[1]
    ==> out == Mlp(act, MatOf(c, q, s1), MatOf(c, q, s3), MatOf(c, q, s2), x)
  }

  lemma DeviceOutputIs(c: Codec, q: Quant, act: real -> real, s1: Sharded, s3: Sharded, s2: Sharded,
                       x: seq<real>, out: seq<real>)
    requires DeviceOutput(c, q, act, s1, s3, s2, x, out)
    requires IsMatrix(q, s1) && IsMatrix(q, s3) && IsMatrix(q, s2)
    requires s1.shape == s3.shape && s1.shape[0] == |x| && s2.shape[0] == s1.shape[1]
    ensures out == Mlp(act, MatOf(c, q, s1), MatOf(c, q, s3), MatOf(c, q, s2), x) && |out| == s2.shape[1]
  {}
}
