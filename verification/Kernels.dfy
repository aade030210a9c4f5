/** The attention loops themselves: one pass over pages, two passes over flat memory. */
module Kernels {
  import opened Arithmetic
  import opened PagedKv
  import opened Attention
  import opened Chunks

  /** One head's vector inside the token stored at `at`. */
  ghost function HeadVec(g: Layout, buf: seq<real>, at: nat, head: nat): (v: seq<real>)
    requires head < g.heads && at + Stride(g) <= |buf|
    ensures |v| == g.dim
  {
    MulLess(head, g.heads, g.dim);
    buf[at + head * g.dim..at + head * g.dim + g.dim]
  }

  lemma SamePart(a: seq<real>, at: nat, b: seq<real>, bt: nat, len: nat, lo: nat, n: nat)
    requires at + len <= |a| && bt + len <= |b| && a[at..at + len] == b[bt..bt + len] && lo + n <= len
    ensures a[at + lo..at + lo + n] == b[bt + lo..bt + lo + n]
  {
    SliceOfSlice(a, at, len, lo, n);
    SliceOfSlice(b, bt, len, lo, n);
  }

  lemma HeadPart(g: Layout, head: nat)
    requires head < g.heads
    ensures head * g.dim + g.dim <= Stride(g)
  {
    MulLess(head, g.heads, g.dim);
  }

  lemma HeadVecIs(g: Layout, buf: seq<real>, at: nat, head: nat, lo: nat)
    requires head < g.heads && at + Stride(g) <= |buf| && lo == head * g.dim && lo + g.dim <= Stride(g)
    ensures HeadVec(g, buf, at, head) == buf[at + lo..at + lo + g.dim]
  {
    hide Stride;
  }

  lemma HeadVecsMatch(g: Layout, a: seq<real>, at: nat, b: seq<real>, bt: nat, head: nat, lo: nat, len: nat)
    requires head < g.heads && lo == head * g.dim && len == Stride(g) && lo + g.dim <= len
    requires at + len <= |a| && bt + len <= |b| && a[at..at + len] == b[bt..bt + len]
    ensures HeadVec(g, a, at, head) == HeadVec(g, b, bt, head)
  {
    hide Stride, HeadVec;
    HeadVecIs(g, a, at, head, lo);
    HeadVecIs(g, b, bt, head, lo);
    SamePart(a, at, b, bt, len, lo, g.dim);
  }

  /** Equal tokens have equal heads. */
  lemma HeadVecSame(g: Layout, a: seq<real>, at: nat, b: seq<real>, bt: nat, head: nat)
    requires head < g.heads && at + Stride(g) <= |a| && bt + Stride(g) <= |b|
    requires a[at..at + Stride(g)] == b[bt..bt + Stride(g)]
    ensures HeadVec(g, a, at, head) == HeadVec(g, b, bt, head)
  {
    hide Stride, HeadVec;
    HeadPart(g, head);
    HeadVecsMatch(g, a, at, b, bt, head, head * g.dim, Stride(g));
  }

  /** The first `n` positions of a slot are on its pages, inside the pool. */
  ghost predicate Readable(g: Layout, cache: seq<real>, rows: seq<seq<nat>>, slot: nat, n: nat)
    requires LayoutOk(g)
  {
    forall t: nat :: t < n ==> Covered(g, rows, slot, t) && Home(g, rows, slot, t) + Stride(g) <= |cache|
  }

  /** One head of the first `n` positions, read through the pages. */
  ghost function PagedVecs(g: Layout, cache: seq<real>, rows: seq<seq<nat>>, slot: nat, head: nat, n: nat): (vs: seq<seq<real>>)
    requires LayoutOk(g) && head < g.heads && Readable(g, cache, rows, slot, n)
    ensures |vs| == n && forall t :: 0 <= t < n ==> vs[t] == HeadVec(g, cache, Home(g, rows, slot, t), head)
  {
    seq(n, t requires 0 <= t < n => HeadVec(g, cache, Home(g, rows, slot, t), head))
  }

  /** One head of the first `n` positions of a flat cache. */
  ghost function FlatVecs(g: Layout, flat: seq<real>, head: nat, n: nat): (vs: seq<seq<real>>)
    requires head < g.heads && forall t: nat :: t < n ==> FlatAddr(g, t) + Stride(g) <= |flat|
    ensures |vs| == n && forall t :: 0 <= t < n ==> vs[t] == HeadVec(g, flat, FlatAddr(g, t), head)
  {
    seq(n, t requires 0 <= t < n => HeadVec(g, flat, FlatAddr(g, t), head))
  }

  ghost function Scores(q: seq<real>, ks: seq<seq<real>>, root: real): (ss: seq<real>)
    requires root > 0.0 && forall t :: 0 <= t < |ks| ==> |ks[t]| == |q|
    ensures |ss| == |ks| && forall t :: 0 <= t < |ks| ==> ss[t] == Dot(q, ks[t]) / root
  {
    seq(|ks|, t requires 0 <= t < |ks| => Dot(q, ks[t]) / root)
  }

  lemma LIsBlend(l: real, decay: real, weight: real)
    ensures l * decay + weight == Blend(l, decay, weight, 1.0)
  {}

  method DotAt(q: seq<real>, buf: seq<real>, off: nat) returns (r: real)
    requires off + |q| <= |buf|
    ensures r == Dot(q, buf[off..off + |q|])
  {
    hide Product;
    ghost var w := buf[off..off + |q|];
    r := 0.0;
    assert q[..0] == [] && w[..0] == [];
    for d := 0 to |q|
      invariant r == Dot(q[..d], w[..d])
    {
      assert q[..d + 1] == q[..d] + [q[d]] && w[..d + 1] == w[..d] + [w[d]];
      DotStep(q[..d], w[..d], q[d], w[d]);
      r := r + Product(q[d], buf[off + d]);
    }
    assert q[..|q|] == q && w[..|q|] == w;
  }

  /** `paged_attention_flash` for one query head: a single sweep with a running maximum. `root` stands for
      the square root of the head dimension. */
  method FlashHead(g: Layout, exp: real -> real, root: real, q: seq<real>, kCache: seq<real>, vCache: seq<real>,
                   pos: nat, slot: nat, table: seq<nat>, kvHead: nat, ghost rows: seq<seq<nat>>)
      returns (o: seq<real>)
    requires LayoutOk(g) && g.dim <= 128 && kvHead < g.heads && |q| == g.dim && root > 0.0 && IsExp(exp)
    requires Bound(g, table, rows) && |kCache| == |vCache| == PoolLen(g)
    requires Readable(g, kCache, rows, slot, pos + 1) && Readable(g, vCache, rows, slot, pos + 1)
    ensures |o| == g.dim
    ensures var ss := Scores(q, PagedVecs(g, kCache, rows, slot, kvHead, pos + 1), root);
            var vs := PagedVecs(g, vCache, rows, slot, kvHead, pos + 1);
            forall d :: 0 <= d < g.dim ==> o[d] == Attended(exp, ss, vs, d)
  {
    hide IsExp, Bound, PoolLen, Stride, OnePass, Attended, Dot, Addr, TokenAddr, HeadVec, Page, Home, RowBase, PageIdx, TokIdx;
    ghost var ks := PagedVecs(g, kCache, rows, slot, kvHead, pos + 1);
    ghost var vs := PagedVecs(g, vCache, rows, slot, kvHead, pos + 1);
    ghost var ss := Scores(q, ks, root);
    var inv := 1.0 / root;
    var m: Running := NegInf;
    var l := 0.0;
    var acc := seq(g.dim, i => 0.0);
    assert ss[..0] == [] && vs[..0] == [];
    OnePassStart(exp, acc);
    for t := 0 to pos + 1
      invariant |acc| == g.dim
      invariant OnePass(exp, ss[..t], vs[..t], m, l, acc)
    {
      TableLookup(g, table, rows, slot, t);
      var block := table[RowBase(g, slot) + PageIdx(g, t)];
      var off := Addr(g, block, TokIdx(g, t), kvHead, 0);
      HeadAt(g, kCache, rows, slot, kvHead, t, block);
      HeadAt(g, vCache, rows, slot, kvHead, t, block);
      assert kCache[off..off + g.dim] == ks[t] && vCache[off..off + g.dim] == vs[t];
      var dot := DotAt(q, kCache, off);
      var score := dot * inv;
      DivIsMul(dot, root);
      assert score == ss[t];
      var m' := MaxWith(m, score);
      var expScore, decay := exp(score - m'), Decay(exp, m, m');
      var acc' := seq(g.dim, d requires 0 <= d < g.dim && d < |acc| && off + g.dim <= |vCache| => Blend(acc[d], decay, expScore, vCache[off + d]));
      assert ss[..t + 1] == ss[..t] + [score] && vs[..t + 1] == vs[..t] + [vs[t]];
      var l' := l * decay + expScore;
      LIsBlend(l, decay, expScore);
      OnePassStep(exp, ss[..t], vs[..t], m, l, acc, score, vs[t], m', l', acc');
      m, l, acc := Fin(m'), l', acc';
    }
    assert ss[..pos + 1] == ss && vs[..pos + 1] == vs;
    OnePassDone(exp, ss, vs, m, l, acc);
    o := seq(g.dim, d requires 0 <= d < |acc| && l > 0.0 => acc[d] / l);
  }

  lemma OnePassStart(exp: real -> real, acc: seq<real>)
    requires forall d :: 0 <= d < |acc| ==> acc[d] == 0.0
    ensures OnePass(exp, [], [], NegInf, 0.0, acc)
  {}

  lemma OnePassDone(exp: real -> real, ss: seq<real>, vs: seq<seq<real>>, m: Running, l: real, acc: seq<real>)
    requires ss != [] && |vs| == |ss| && IsExp(exp) && forall t :: 0 <= t < |vs| ==> |vs[t]| == |acc|
    requires OnePass(exp, ss, vs, m, l, acc)
    ensures l > 0.0 && forall d :: 0 <= d < |acc| ==> acc[d] / l == Attended(exp, ss, vs, d)
  {
    hide IsExp, Norm, Weighted, Attended, MaxOf;
    NormPositive(exp, ss, m.value);
    forall d | 0 <= d < |acc| ensures acc[d] / l == Attended(exp, ss, vs, d) {
      OnePassIsTwoPass(exp, ss, vs, m.value, d);
    }
  }

  lemma DivIsMul(x: real, root: real)
    requires root > 0.0
    ensures x * (1.0 / root) == x / root
  {}

  /** The kernel's offset is where the head's vector begins. */
  lemma HeadAt(g: Layout, cache: seq<real>, rows: seq<seq<nat>>, slot: nat, head: nat, t: nat, block: nat)
    requires LayoutOk(g) && head < g.heads && Covered(g, rows, slot, t) && block == Page(g, rows, slot, t)
    requires Home(g, rows, slot, t) + Stride(g) <= |cache|
    ensures var off := Addr(g, block, TokIdx(g, t), head, 0);
            off + g.dim <= |cache| && cache[off..off + g.dim] == HeadVec(g, cache, Home(g, rows, slot, t), head)
  {
    AddrInToken(g, block, TokIdx(g, t), head, 0);
    MulLess(head, g.heads, g.dim);
  }

  // ----- Two passes over flat memory -----

  method MaxOfArray(x: array<real>) returns (max: real)
    requires x.Length > 0
    ensures max == MaxOf(x[..])
  {
    hide MaxOf;
    ghost var ss := x[..];
    max := x[0];
    MaxOne(ss);
    for i := 1 to x.Length
      invariant max == MaxOf(ss[..i])
    {
      assert ss[..i + 1] == ss[..i] + [ss[i]];
      MaxStep(ss[..i], ss[i]);
      if x[i] > max {
        max := x[i];
      }
    }
    assert ss[..x.Length] == ss;
  }

  lemma MaxOne(ss: seq<real>)
    requires ss != []
    ensures MaxOf(ss[..1]) == ss[0]
  {}

  /** Replace each score by its shifted exponential and add them up. */
  method ExpAll(exp: real -> real, x: array<real>, max: real) returns (sum: real)
    modifies x
    ensures forall j :: 0 <= j < x.Length ==> x[j] == exp(old(x[j]) - max)
    ensures sum == Norm(exp, old(x[..]), max)
  {
    hide Norm;
    ghost var ss := x[..];
    sum := 0.0;
    NormNil(exp, max);
    assert ss[..0] == [];
    for i := 0 to x.Length
      invariant forall j :: 0 <= j < i ==> x[j] == exp(ss[j] - max)
      invariant forall j :: i <= j < x.Length ==> x[j] == ss[j]
      invariant sum == Norm(exp, ss[..i], max)
    {
      assert ss[..i + 1] == ss[..i] + [ss[i]];
      NormStep(exp, ss[..i], ss[i], max);
      x[i] := exp(x[i] - max);
      sum := sum + x[i];
    }
    assert ss[..x.Length] == ss;
  }

  method ScaleAll(x: array<real>, inv: real)
    modifies x
    ensures forall j :: 0 <= j < x.Length ==> x[j] == old(x[j]) * inv
  {
    for i := 0 to x.Length
      invariant forall j :: 0 <= j < i ==> x[j] == old(x[j]) * inv
      invariant forall j :: i <= j < x.Length ==> x[j] == old(x[j])
    {
      x[i] := x[i] * inv;
    }
  }

  /** Softmax in place: maximum, exponentials and their sum, then scaling. */
  method SoftmaxInPlace(exp: real -> real, x: array<real>)
    requires x.Length > 0 && IsExp(exp)
    modifies x
    ensures x[..] == Softmax(exp, old(x[..]))
  {
    hide IsExp, Norm, MaxOf, Scaled;
    ghost var ss := x[..];
    var max := MaxOfArray(x);
    var sum := ExpAll(exp, x, max);
    NormPositive(exp, ss, max);
    ScaleAll(x, 1.0 / sum);
    ghost var ps := Scaled(exp, ss, max, Recip(sum));
    forall j | 0 <= j < x.Length ensures x[j] == ps[j] {
      assert ps[j] == exp(ss[j] - max) * Recip(sum);
    }
  }

  method FlatScores(g: Layout, root: real, q: seq<real>, k: seq<real>, n: nat, kvHead: nat) returns (scores: array<real>)
    requires kvHead < g.heads && |q| == g.dim && root > 0.0
    requires forall t: nat :: t < n ==> FlatAddr(g, t) + Stride(g) <= |k|
    ensures fresh(scores) && scores[..] == Scores(q, FlatVecs(g, k, kvHead, n), root)
  {
    hide FlatAddr, Stride, Dot, HeadVec;
    ghost var ss := Scores(q, FlatVecs(g, k, kvHead, n), root);
    scores := new real[n];
    for t := 0 to n
      invariant forall u :: 0 <= u < t ==> scores[u] == ss[u]
    {
      FlatHeadAt(g, k, kvHead, t);
      var dot := DotAt(q, k, FlatAddr(g, t) + kvHead * g.dim);
      scores[t] := dot / root;
    }
    assert scores[..] == ss;
  }

  function AddScaled(o: seq<real>, s: real, v: seq<real>): (o': seq<real>)
    requires |o| == |v|
    ensures |o'| == |o| && forall d :: 0 <= d < |o| ==> o'[d] == o[d] + s * v[d]
  {
    seq(|o|, d requires 0 <= d < |o| => o[d] + s * v[d])
  }

  lemma MixMore(ps: seq<real>, vs: seq<seq<real>>, s: real, v: seq<real>, o: seq<real>)
    requires |vs| == |ps| && (forall t :: 0 <= t < |vs| ==> |vs[t]| == |o|) && |v| == |o|
    requires forall d :: 0 <= d < |o| ==> o[d] == Mix(ps, vs, d)
    ensures forall d :: 0 <= d < |o| ==> AddScaled(o, s, v)[d] == Mix(ps + [s], vs + [v], d)
  {
    hide Mix;
    forall d | 0 <= d < |o| ensures AddScaled(o, s, v)[d] == Mix(ps + [s], vs + [v], d) {
      MixStep(ps, vs, s, v, d);
    }
  }

  /** Add up the values, weighted, token by token. */
  method FlatMix(g: Layout, ps: seq<real>, v: seq<real>, kvHead: nat) returns (o: seq<real>)
    requires kvHead < g.heads && forall t: nat :: t < |ps| ==> FlatAddr(g, t) + Stride(g) <= |v|
    ensures |o| == g.dim && forall d :: 0 <= d < g.dim ==> o[d] == Mix(ps, FlatVecs(g, v, kvHead, |ps|), d)
  {
    hide FlatAddr, Stride, HeadVec, Mix, AddScaled;
    ghost var vs := FlatVecs(g, v, kvHead, |ps|);
    o := seq(g.dim, d => 0.0);
    assert ps[..0] == [] && vs[..0] == [];
    forall d: nat | d < g.dim ensures Mix([], [], d) == 0.0 {
      MixNil(d);
    }
    for t := 0 to |ps|
      invariant |o| == g.dim
      invariant forall d :: 0 <= d < g.dim ==> o[d] == Mix(ps[..t], vs[..t], d)
    {
      FlatHeadAt(g, v, kvHead, t);
      var off, s := FlatAddr(g, t) + kvHead * g.dim, ps[t];
      assert v[off..off + g.dim] == vs[t];
      assert ps[..t + 1] == ps[..t] + [ps[t]] && vs[..t + 1] == vs[..t] + [vs[t]];
      MixMore(ps[..t], vs[..t], s, vs[t], o);
      o := AddScaled(o, s, v[off..off + g.dim]);
    }
    assert ps[..|ps|] == ps && vs[..|ps|] == vs;
  }

  /** The attention loop of the flat reference for one query head. */
  method FlatHead(g: Layout, exp: real -> real, root: real, q: seq<real>, k: seq<real>, v: seq<real>, pos: nat, kvHead: nat)
      returns (o: seq<real>)
    requires kvHead < g.heads && |q| == g.dim && root > 0.0 && IsExp(exp)
    requires forall t: nat :: t < pos + 1 ==> FlatAddr(g, t) + Stride(g) <= |k| && FlatAddr(g, t) + Stride(g) <= |v|
    ensures |o| == g.dim
    ensures var ss := Scores(q, FlatVecs(g, k, kvHead, pos + 1), root);
            var vs := FlatVecs(g, v, kvHead, pos + 1);
            forall d :: 0 <= d < g.dim ==> o[d] == Attended(exp, ss, vs, d)
  {
    hide IsExp, FlatAddr, Stride, Mix, Softmax, HeadVec;
    var scores := FlatScores(g, root, q, k, pos + 1, kvHead);
    SoftmaxInPlace(exp, scores);
    o := FlatMix(g, scores[..], v, kvHead);
  }

  lemma FlatHeadAt(g: Layout, flat: seq<real>, head: nat, t: nat)
    requires head < g.heads && FlatAddr(g, t) + Stride(g) <= |flat|
    ensures var off := FlatAddr(g, t) + head * g.dim;
            off + g.dim <= |flat| && flat[off..off + g.dim] == HeadVec(g, flat, FlatAddr(g, t), head)
  {
    MulLess(head, g.heads, g.dim);
  }

  /** When paged memory refines flat memory, the two read the same vectors. */
  lemma PagedReadsFlat(g: Layout, cache: seq<real>, rows: seq<seq<nat>>, flats: seq<seq<real>>, slot: nat, head: nat, n: nat)
    requires LayoutOk(g) && head < g.heads && Refines(g, cache, rows, flats)
    requires n > 0 && forall t: nat :: t < n ==> Covered(g, rows, slot, t)
    ensures slot < |flats| && Readable(g, cache, rows, slot, n)
    ensures forall t: nat :: t < n ==> FlatAddr(g, t) + Stride(g) <= |flats[slot]|
    ensures PagedVecs(g, cache, rows, slot, head, n) == FlatVecs(g, flats[slot], head, n)
  {
    assert Covered(g, rows, slot, 0);
    forall t: nat | t < n
      ensures Home(g, rows, slot, t) + Stride(g) <= |cache| && FlatAddr(g, t) + Stride(g) <= |flats[slot]|
      ensures HeadVec(g, cache, Home(g, rows, slot, t), head) == HeadVec(g, flats[slot], FlatAddr(g, t), head)
    {
      assert ReadsAs(g, cache, rows, flats, slot, t);
      HeadVecSame(g, cache, Home(g, rows, slot, t), flats[slot], FlatAddr(g, t), head);
    }
  }

  /** One query head computed twice, each side choosing its own KV head: by the kernel over the pages, and by the flat
      loop over the slot's own cache. The numbers are the same. */
  method FlashEqualsFlat(g: Layout, exp: real -> real, root: real, q: seq<real>, kCache: seq<real>, vCache: seq<real>,
                         kFlats: seq<seq<real>>, vFlats: seq<seq<real>>, pos: nat, slot: nat, table: seq<nat>,
                         h: nat, nHead: nat, ghost rows: seq<seq<nat>>)
      returns (paged: seq<real>, flat: seq<real>)
    requires LayoutOk(g) && g.dim <= 128 && g.heads <= nHead && nHead % g.heads == 0 && h < nHead
    requires |q| == g.dim && root > 0.0 && IsExp(exp) && Bound(g, table, rows)
    requires Refines(g, kCache, rows, kFlats) && Refines(g, vCache, rows, vFlats)
    requires forall t: nat :: t <= pos ==> Covered(g, rows, slot, t)
    ensures |paged| == g.dim && paged == flat
  {
    hide IsExp, Bound, PoolLen, Stride, Attended, Dot, HeadVec, Home, RowBase, PageIdx, TokIdx, FlatAddr, Refines, KvHeadKernel, KvHeadFlat;
    SameHeadDivides(h, nHead, g.heads);
    var kvHead := KvHeadKernel(h, nHead, g.heads);
    PagedReadsFlat(g, kCache, rows, kFlats, slot, kvHead, pos + 1);
    PagedReadsFlat(g, vCache, rows, vFlats, slot, kvHead, pos + 1);
    RefinesLen(g, kCache, rows, kFlats);
    RefinesLen(g, vCache, rows, vFlats);
    paged := FlashHead(g, exp, root, q, kCache, vCache, pos, slot, table, kvHead, rows);
    flat := FlatHead(g, exp, root, q, kFlats[slot], vFlats[slot], pos, KvHeadFlat(h, nHead, g.heads));
  }
}
