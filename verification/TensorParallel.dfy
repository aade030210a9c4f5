/** Sharded matrix products and the sharded feed-forward block give the unsharded results. */
module TensorParallel {
  import opened Chunks
  import opened Attention

  type Mat = seq<seq<real>>

  ghost predicate Width(m: Mat, n: nat) {
    forall r :: 0 <= r < |m| ==> |m[r]| == n
  }

  /** Matrix times vector. */
  function MatVec(m: Mat, x: seq<real>): (y: seq<real>)
    requires Width(m, |x|)
    ensures |y| == |m| && forall r :: 0 <= r < |m| ==> y[r] == Dot(m[r], x)
  {
    seq(|m|, r requires 0 <= r < |m| => Dot(m[r], x))
  }

  /** The gate through an activation, times the other branch, element by element. */
  function Gated(act: real -> real, gate: seq<real>, up: seq<real>): (y: seq<real>)
    requires |gate| == |up|
    ensures |y| == |gate| && forall i :: 0 <= i < |y| ==> y[i] == Product(act(gate[i]), up[i])
  {
    seq(|gate|, i requires 0 <= i < |gate| => Product(act(gate[i]), up[i]))
  }

  /** Element by element, the activated gate times the other branch. */
  lemma GatedIsProduct(act: real -> real, gate: seq<real>, up: seq<real>, i: nat)
    requires |gate| == |up| && i < |gate|
    ensures Gated(act, gate, up)[i] == act(gate[i]) * up[i]
  {
    hide Gated;
  }

  /** The feed-forward block: `w2 (act(w1 x) * w3 x)`. */
  function Mlp(act: real -> real, w1: Mat, w3: Mat, w2: Mat, x: seq<real>): (y: seq<real>)
    requires Width(w1, |x|) && Width(w3, |x|) && |w1| == |w3| && Width(w2, |w1|)
    ensures |y| == |w2|
  {
    MatVec(w2, Gated(act, MatVec(w1, x), MatVec(w3, x)))
  }

  // ----- Dot products over pieces -----

  lemma {:induction false} DotConcat(a: seq<real>, b: seq<real>, c: seq<real>, d: seq<real>)
    requires |a| == |b| && |c| == |d|
    ensures Dot(a + c, b + d) == Dot(a, b) + Dot(c, d)
  {
    hide Product;
    if c == [] {
      assert a + c == a && b + d == b;
    } else {
      var n := |c| - 1;
      DotConcat(a, b, c[..n], d[..n]);
      assert a + c == (a + c[..n]) + [c[n]] && b + d == (b + d[..n]) + [d[n]];
      DotStep(a + c[..n], b + d[..n], c[n], d[n]);
    }
  }

  lemma DotNil(a: seq<real>, b: seq<real>)
    requires |a| == |b| == 0
    ensures Dot(a, b) == 0.0
  {}

  lemma LastPiece(a: seq<real>, i: nat, k: nat, at: nat)
    requires at == i * k && at + k <= |a|
    ensures a[..at + k] == a[..at] + Chunk(a, i, k)
  {}

  /** The pieces' dot products, summed. */
  ghost function DotPieces(a: seq<real>, b: seq<real>, j: nat, k: nat): real
    requires j * k <= |a| && j * k <= |b|
  {
    if j == 0 then 0.0
    else
      assert (j - 1) * k + k == j * k;
      DotPieces(a, b, j - 1, k) + Dot(Chunk(a, j - 1, k), Chunk(b, j - 1, k))
  }

  lemma {:induction false} DotByPieces(a: seq<real>, b: seq<real>, j: nat, k: nat)
    requires j * k <= |a| && j * k <= |b|
    ensures DotPieces(a, b, j, k) == Dot(a[..j * k], b[..j * k])
  {
    hide Dot, Chunk;
    if j == 0 {
      DotNil(a[..0], b[..0]);
    } else {
      var at := (j - 1) * k;
      assert at + k == j * k;
      DotByPieces(a, b, j - 1, k);
      DotConcat(a[..at], b[..at], Chunk(a, j - 1, k), Chunk(b, j - 1, k));
      LastPiece(a, j - 1, k, at);
      LastPiece(b, j - 1, k, at);
    }
  }

  // ----- Collecting the devices' results -----

  /** The sum over devices of element `i`. */
  ghost function SumAt(parts: Mat, i: nat): real
    requires forall p :: 0 <= p < |parts| ==> i < |parts[p]|
  {
    if parts == [] then 0.0 else SumAt(parts[..|parts| - 1], i) + parts[|parts| - 1][i]
  }

  lemma SumStep(parts: Mat, p: nat, i: nat)
    requires p < |parts| && forall p :: 0 <= p < |parts| ==> i < |parts[p]|
    ensures SumAt(parts[..p + 1], i) == SumAt(parts[..p], i) + parts[p][i]
  {
    assert parts[..p + 1][..p] == parts[..p];
  }

  /** `all_reduce_sum_and_add`, the summation on the host. */
  method AllReduce(parts: Mat, n: nat) returns (sum: seq<real>)
    requires Width(parts, n)
    ensures |sum| == n && forall i :: 0 <= i < n ==> sum[i] == SumAt(parts, i)
  {
    var acc := new real[n](_ => 0.0);
    for p := 0 to |parts|
      invariant forall i :: 0 <= i < n ==> acc[i] == SumAt(parts[..p], i)
    {
      for i := 0 to n
        invariant forall j :: 0 <= j < i ==> acc[j] == SumAt(parts[..p + 1], j)
        invariant forall j :: i <= j < n ==> acc[j] == SumAt(parts[..p], j)
      {
        SumStep(parts, p, i);
        acc[i] := acc[i] + parts[p][i];
      }
    }
    assert parts[..|parts|] == parts;
    sum := acc[..];
  }

  /** The logits all-gather: each device's stretch copied to its place, zeros after the last one. */
  method AllGather(parts: Mat, k: nat, total: nat) returns (all: seq<real>)
    requires Width(parts, k) && |parts| * k <= total
    ensures |all| == total && all[..|parts| * k] == Join(parts)
    ensures forall i :: |parts| * k <= i < total ==> all[i] == 0.0
  {
    all := seq(total, _ => 0.0);
    assert parts[..0] == [];
    for p := 0 to |parts|
      invariant |all| == total && p * k <= total && all[..p * k] == Join(parts[..p])
      invariant forall i :: p * k <= i < total ==> all[i] == 0.0
    {
      ChunkFits(p, |parts|, k);
      ghost var before := all;
      all := all[..p * k] + parts[p] + all[p * k + k..];
      assert all[..p * k + k] == before[..p * k] + parts[p];
      assert parts[..p + 1] == parts[..p] + [parts[p]];
      JoinStep(parts[..p], parts[p]);
      assert (p + 1) * k == p * k + k;
    }
    assert parts[..|parts|] == parts;
  }

  // ----- Column shards: gathering -----

  ghost predicate Bands(m: Mat, shards: seq<Mat>, k: nat) {
    |m| == |shards| * k && forall p: nat :: p < |shards| ==> p * k + k <= |m| && shards[p] == Chunk(m, p, k)
  }

  lemma BandProduct(m: Mat, x: seq<real>, p: nat, k: nat)
    requires p * k + k <= |m| && Width(m, |x|)
    ensures Width(Chunk(m, p, k), |x|) && MatVec(Chunk(m, p, k), x) == Chunk(MatVec(m, x), p, k)
  {}

  /** Device `p` multiplies its own band. */
  ghost function BandProducts(shards: seq<Mat>, x: seq<real>): (ps: Mat)
    requires forall p :: 0 <= p < |shards| ==> Width(shards[p], |x|)
    ensures |ps| == |shards| && forall p :: 0 <= p < |ps| ==> ps[p] == MatVec(shards[p], x)
  {
    seq(|shards|, p requires 0 <= p < |shards| => MatVec(shards[p], x))
  }

  /** Gathered column shards are the full product. */
  lemma GatheredIsFull(m: Mat, shards: seq<Mat>, x: seq<real>, k: nat)
    requires Bands(m, shards, k) && Width(m, |x|)
    ensures forall p :: 0 <= p < |shards| ==> Width(shards[p], |x|)
    ensures Join(BandProducts(shards, x)) == MatVec(m, x)
  {
    hide Width, MatVec, Chunk;
    forall p: nat | p < |shards|
      ensures Width(shards[p], |x|) && MatVec(shards[p], x) == Chunk(MatVec(m, x), p, k)
    {
      BandProduct(m, x, p, k);
    }
    JoinAll(MatVec(m, x), BandProducts(shards, x), k);
  }

  // ----- Row shards: reducing -----

  ghost predicate Stripes(m: Mat, shards: seq<Mat>, k: nat) {
    && Width(m, |shards| * k)
    && forall p: nat :: p < |shards| ==> IsStripeOf(m, shards[p], p, k)
  }

  ghost predicate IsStripeOf(m: Mat, s: Mat, p: nat, k: nat) {
    |s| == |m| && forall r: nat :: r < |m| ==> p * k + k <= |m[r]| && s[r] == Chunk(m[r], p, k)
  }

  /** The partial products of the first `j` devices add up to the dot products over their columns. */
  lemma {:induction false} PartialSums(row: seq<real>, x: seq<real>, parts: Mat, k: nat, i: nat)
    requires |row| == |x| && |parts| * k <= |x|
    requires forall p: nat :: p < |parts| ==> i < |parts[p]| && p * k + k <= |x| && parts[p][i] == Dot(Chunk(row, p, k), Chunk(x, p, k))
    ensures SumAt(parts, i) == DotPieces(row, x, |parts|, k)
  {
    hide Dot, Chunk;
    if parts != [] {
      var j := |parts| - 1;
      assert j * k + k == |parts| * k;
      PartialSums(row, x, parts[..j], k, i);
    }
  }

  /** Summed row-shard products are the full product. */
  lemma ReducedIsFull(m: Mat, shards: seq<Mat>, x: seq<real>, parts: Mat, k: nat, i: nat)
    requires Stripes(m, shards, k) && |x| == |shards| * k && |parts| == |shards| && i < |m|
    requires Width(parts, |m|)
    requires forall p: nat :: p < |shards| ==>
      p * k + k <= |x| && Width(shards[p], k) && parts[p] == MatVec(shards[p], Chunk(x, p, k))
    ensures SumAt(parts, i) == MatVec(m, x)[i]
  {
    hide Dot, Chunk;
    PartialSums(m[i], x, parts, k, i);
    DotByPieces(m[i], x, |parts|, k);
    assert x[..|x|] == x && m[i][..|x|] == m[i];
  }

  // ----- The feed-forward block -----

  lemma GatedChunk(act: real -> real, gate: seq<real>, up: seq<real>, p: nat, k: nat)
    requires |gate| == |up| && p * k + k <= |gate|
    ensures Gated(act, Chunk(gate, p, k), Chunk(up, p, k)) == Chunk(Gated(act, gate, up), p, k)
  {
    hide Product, Chunk;
    var g, c := Gated(act, Chunk(gate, p, k), Chunk(up, p, k)), Chunk(Gated(act, gate, up), p, k);
    forall i | 0 <= i < k ensures g[i] == c[i] {
      assert c[i] == Gated(act, gate, up)[p * k + i];
    }
  }

  /** What device `p` computes is its row shard applied to its stretch of the hidden vector. */
  lemma DevicePart(act: real -> real, w1: Mat, w3: Mat, s2: Mat, x: seq<real>, p: nat, k: nat)
    requires Width(w1, |x|) && Width(w3, |x|) && |w1| == |w3| && p * k + k <= |w1| && Width(s2, k)
    ensures Width(Chunk(w1, p, k), |x|) && Width(Chunk(w3, p, k), |x|)
    ensures Mlp(act, Chunk(w1, p, k), Chunk(w3, p, k), s2, x)
         == MatVec(s2, Chunk(Gated(act, MatVec(w1, x), MatVec(w3, x)), p, k))
  {
    hide Chunk, Width, MatVec, Gated;
    BandProduct(w1, x, p, k);
    BandProduct(w3, x, p, k);
    GatedChunk(act, MatVec(w1, x), MatVec(w3, x), p, k);
  }

  /** With w1 and w3 column-sharded and w2 row-sharded, the devices' outputs add up to the whole block's. */
  lemma ShardedMlp(act: real -> real, w1: Mat, w3: Mat, w2: Mat, s1: seq<Mat>, s3: seq<Mat>, s2: seq<Mat>,
                   x: seq<real>, parts: Mat, k: nat, i: nat)
    requires Width(w1, |x|) && Width(w3, |x|) && |s1| == |s3| == |s2| == |parts|
    requires Bands(w1, s1, k) && Bands(w3, s3, k) && Stripes(w2, s2, k) && Width(parts, |w2|) && i < |w2|
    requires forall p: nat :: p < |parts| ==>
      && Width(s1[p], |x|) && Width(s3[p], |x|) && |s1[p]| == |s3[p]| == k && Width(s2[p], k)
      && parts[p] == Mlp(act, s1[p], s3[p], s2[p], x)
    ensures SumAt(parts, i) == Mlp(act, w1, w3, w2, x)[i]
  {
    hide Width, MatVec, Gated, Mlp, Chunk;
    var h := Gated(act, MatVec(w1, x), MatVec(w3, x));
    forall p: nat | p < |parts| ensures p * k + k <= |h| && parts[p] == MatVec(s2[p], Chunk(h, p, k)) {
      DevicePart(act, w1, w3, s2[p], x, p, k);
    }
    ReducedIsFull(w2, s2, h, parts, k, i);
    MlpIs(act, w1, w3, w2, x);
  }

  lemma MlpIs(act: real -> real, w1: Mat, w3: Mat, w2: Mat, x: seq<real>)
    requires Width(w1, |x|) && Width(w3, |x|) && |w1| == |w3| && Width(w2, |w1|)
    ensures Mlp(act, w1, w3, w2, x) == MatVec(w2, Gated(act, MatVec(w1, x), MatVec(w3, x)))
  {}
}
