/** One-pass attention over paged memory computes the same vector as two-pass attention over flat memory. */
module Attention {
  import opened Arithmetic

  /** All that is used of the exponential: it is positive and turns sums into products. */
  ghost predicate IsExp(exp: real -> real) {
    && (forall x :: exp(x) > 0.0)
    && (forall x, y :: exp(x + y) == exp(x) * exp(y))
  }

  lemma ExpVia(exp: real -> real, a: real, b: real, c: real)
    requires IsExp(exp)
    ensures exp(a - c) == exp(a - b) * exp(b - c)
  {
    assert exp((a - b) + (b - c)) == exp(a - b) * exp(b - c);
    assert (a - b) + (b - c) == a - c;
  }

  lemma ExpPositive(exp: real -> real, x: real)
    requires IsExp(exp)
    ensures exp(x) > 0.0
  {}

  // ----- What attention means -----

  function Product(x: real, y: real): real {
    x * y
  }

  function Dot(a: seq<real>, b: seq<real>): real
    requires |a| == |b|
  {
    if a == [] then 0.0 else Dot(a[..|a| - 1], b[..|b| - 1]) + Product(a[|a| - 1], b[|b| - 1])
  }

  /** A dot product is a sum of products. */
  lemma DotIsSum(a: seq<real>, b: seq<real>, x: real, y: real)
    requires |a| == |b|
    ensures Dot([], []) == 0.0
    ensures Dot(a + [x], b + [y]) == Dot(a, b) + x * y
  {
    DotStep(a, b, x, y);
    hide Dot;
  }

  lemma DotStep(a: seq<real>, b: seq<real>, x: real, y: real)
    requires |a| == |b|
    ensures Dot(a + [x], b + [y]) == Dot(a, b) + Product(x, y)
  {
    hide Product;
    assert (a + [x])[..|a|] == a && (b + [y])[..|b|] == b;
  }

  ghost function MaxOf(ss: seq<real>): (m: real)
    requires ss != []
    ensures m in ss && forall i :: 0 <= i < |ss| ==> ss[i] <= m
  {
    if |ss| == 1 then ss[0]
    else
      var n := |ss| - 1;
      var m := MaxOf(ss[..n]);
      if m >= ss[n] then m else ss[n]
  }

  /** Sum of the shifted exponentials. */
  ghost function Norm(exp: real -> real, ss: seq<real>, m: real): real {
    if ss == [] then 0.0 else Norm(exp, ss[..|ss| - 1], m) + exp(ss[|ss| - 1] - m)
  }

  /** Sum of the values in dimension `d`, weighted by the shifted exponentials. */
  ghost function Weighted(exp: real -> real, ss: seq<real>, vs: seq<seq<real>>, m: real, d: nat): real
    requires |vs| == |ss| && forall t :: 0 <= t < |vs| ==> d < |vs[t]|
  {
    if ss == [] then 0.0
    else Weighted(exp, ss[..|ss| - 1], vs[..|vs| - 1], m, d) + exp(ss[|ss| - 1] - m) * vs[|vs| - 1][d]
  }

  function Recip(x: real): real {
    if x == 0.0 then 0.0 else 1.0 / x
  }

  ghost function Scaled(exp: real -> real, ss: seq<real>, m: real, inv: real): (ps: seq<real>)
    ensures |ps| == |ss| && forall i :: 0 <= i < |ss| ==> ps[i] == exp(ss[i] - m) * inv
  {
    seq(|ss|, i requires 0 <= i < |ss| => exp(ss[i] - m) * inv)
  }

  ghost function Softmax(exp: real -> real, ss: seq<real>): (ps: seq<real>)
    requires ss != []
    ensures |ps| == |ss|
  {
    Scaled(exp, ss, MaxOf(ss), Recip(Norm(exp, ss, MaxOf(ss))))
  }

  /** Sum of the values in dimension `d`, weighted by `ps`. */
  ghost function Mix(ps: seq<real>, vs: seq<seq<real>>, d: nat): real
    requires |vs| == |ps| && forall t :: 0 <= t < |vs| ==> d < |vs[t]|
  {
    if ps == [] then 0.0 else Mix(ps[..|ps| - 1], vs[..|vs| - 1], d) + ps[|ps| - 1] * vs[|vs| - 1][d]
  }

  /** Two-pass attention: softmax of the scores, then the weighted sum. */
  ghost function Attended(exp: real -> real, ss: seq<real>, vs: seq<seq<real>>, d: nat): real
    requires ss != [] && |vs| == |ss| && forall t :: 0 <= t < |vs| ==> d < |vs[t]|
  {
    Mix(Softmax(exp, ss), vs, d)
  }

  lemma {:induction false} NormPositive(exp: real -> real, ss: seq<real>, m: real)
    requires IsExp(exp)
    ensures Norm(exp, ss, m) >= 0.0 && (ss != [] ==> Norm(exp, ss, m) > 0.0)
  {
    hide IsExp;
    if ss != [] {
      NormPositive(exp, ss[..|ss| - 1], m);
      ExpPositive(exp, ss[|ss| - 1] - m);
    }
  }

  // Each sum, one step at a time.

  lemma NormNil(exp: real -> real, m: real)
    ensures Norm(exp, [], m) == 0.0
  {}

  lemma WeightedNil(exp: real -> real, m: real, d: nat)
    ensures Weighted(exp, [], [], m, d) == 0.0
  {}

  lemma MixNil(d: nat)
    ensures Mix([], [], d) == 0.0
  {}

  lemma NormStep(exp: real -> real, ss: seq<real>, s: real, m: real)
    ensures Norm(exp, ss + [s], m) == Norm(exp, ss, m) + exp(s - m)
  {
    assert (ss + [s])[..|ss|] == ss;
  }

  lemma WeightedStep(exp: real -> real, ss: seq<real>, vs: seq<seq<real>>, s: real, v: seq<real>, m: real, d: nat)
    requires |vs| == |ss| && (forall t :: 0 <= t < |vs| ==> d < |vs[t]|) && d < |v|
    ensures Weighted(exp, ss + [s], vs + [v], m, d) == Weighted(exp, ss, vs, m, d) + exp(s - m) * v[d]
  {
    assert (ss + [s])[..|ss|] == ss && (vs + [v])[..|vs|] == vs;
  }

  lemma MixStep(ps: seq<real>, vs: seq<seq<real>>, p: real, v: seq<real>, d: nat)
    requires |vs| == |ps| && (forall t :: 0 <= t < |vs| ==> d < |vs[t]|) && d < |v|
    ensures Mix(ps + [p], vs + [v], d) == Mix(ps, vs, d) + p * v[d]
  {
    assert (ps + [p])[..|ps|] == ps && (vs + [v])[..|vs|] == vs;
  }

  // The algebra of one step, on plain numbers.

  lemma ShiftAlg(n: real, x: real, e: real)
    ensures n * e + x * e == (n + x) * e
  {}

  lemma ScaleAlg(w: real, x: real, v: real, e: real)
    ensures w * e + x * e * v == (w + x * v) * e
  {}

  lemma {:induction false} NormShift(exp: real -> real, ss: seq<real>, m: real, m': real)
    requires IsExp(exp)
    ensures Norm(exp, ss, m') == Norm(exp, ss, m) * exp(m - m')
  {
    hide IsExp, Norm;
    if ss == [] {
      NormNil(exp, m);
      NormNil(exp, m');
    } else {
      var n := |ss| - 1;
      assert ss == ss[..n] + [ss[n]];
      NormShift(exp, ss[..n], m, m');
      NormStep(exp, ss[..n], ss[n], m);
      NormStep(exp, ss[..n], ss[n], m');
      ExpVia(exp, ss[n], m, m');
      ShiftAlg(Norm(exp, ss[..n], m), exp(ss[n] - m), exp(m - m'));
    }
  }

  lemma {:induction false} WeightedShift(exp: real -> real, ss: seq<real>, vs: seq<seq<real>>, m: real, m': real, d: nat)
    requires IsExp(exp) && |vs| == |ss| && forall t :: 0 <= t < |vs| ==> d < |vs[t]|
    ensures Weighted(exp, ss, vs, m', d) == Weighted(exp, ss, vs, m, d) * exp(m - m')
  {
    hide IsExp, Weighted;
    if ss == [] {
      WeightedNil(exp, m, d);
      WeightedNil(exp, m', d);
      assert vs == [];
    } else {
      var n := |ss| - 1;
      assert ss == ss[..n] + [ss[n]] && vs == vs[..n] + [vs[n]];
      WeightedShift(exp, ss[..n], vs[..n], m, m', d);
      WeightedStep(exp, ss[..n], vs[..n], ss[n], vs[n], m, d);
      WeightedStep(exp, ss[..n], vs[..n], ss[n], vs[n], m', d);
      ExpVia(exp, ss[n], m, m');
      ScaleAlg(Weighted(exp, ss[..n], vs[..n], m, d), exp(ss[n] - m), vs[n][d], exp(m - m'));
    }
  }

  lemma ScaledPrefix(exp: real -> real, ss: seq<real>, m: real, inv: real, n: nat)
    requires n <= |ss|
    ensures Scaled(exp, ss, m, inv)[..n] == Scaled(exp, ss[..n], m, inv)
  {
    forall i | 0 <= i < n ensures Scaled(exp, ss, m, inv)[..n][i] == Scaled(exp, ss[..n], m, inv)[i] {
      assert ss[..n][i] == ss[i];
    }
  }

  lemma {:induction false} MixScaled(exp: real -> real, ss: seq<real>, vs: seq<seq<real>>, m: real, inv: real, d: nat)
    requires |vs| == |ss| && forall t :: 0 <= t < |vs| ==> d < |vs[t]|
    ensures Mix(Scaled(exp, ss, m, inv), vs, d) == Weighted(exp, ss, vs, m, d) * inv
  {
    hide Mix, Weighted;
    if ss == [] {
      WeightedNil(exp, m, d);
      MixNil(d);
      assert vs == [] && Scaled(exp, ss, m, inv) == [];
    } else {
      var n, ps := |ss| - 1, Scaled(exp, ss, m, inv);
      ScaledPrefix(exp, ss, m, inv, n);
      assert ss == ss[..n] + [ss[n]] && vs == vs[..n] + [vs[n]] && ps == ps[..n] + [ps[n]];
      MixScaled(exp, ss[..n], vs[..n], m, inv, d);
      MixStep(ps[..n], vs[..n], ps[n], vs[n], d);
      WeightedStep(exp, ss[..n], vs[..n], ss[n], vs[n], m, d);
      ScaleAlg(Weighted(exp, ss[..n], vs[..n], m, d), exp(ss[n] - m), vs[n][d], inv);
    }
  }

  /** The one-pass quotient, at any shift, is two-pass attention. */
  lemma OnePassIsTwoPass(exp: real -> real, ss: seq<real>, vs: seq<seq<real>>, m: real, d: nat)
    requires ss != [] && |vs| == |ss| && IsExp(exp) && forall t :: 0 <= t < |vs| ==> d < |vs[t]|
    ensures Norm(exp, ss, m) > 0.0
    ensures Weighted(exp, ss, vs, m, d) / Norm(exp, ss, m) == Attended(exp, ss, vs, d)
  {
    hide IsExp, Norm, Weighted, Mix, Scaled;
    var top := MaxOf(ss);
    NormPositive(exp, ss, m);
    NormPositive(exp, ss, top);
    NormShift(exp, ss, top, m);
    WeightedShift(exp, ss, vs, top, m, d);
    MixScaled(exp, ss, vs, top, Recip(Norm(exp, ss, top)), d);
    ExpPositive(exp, top - m);
    Cancel(Weighted(exp, ss, vs, top, d), Norm(exp, ss, top), exp(top - m));
  }

  lemma Cancel(w: real, n: real, e: real)
    requires n > 0.0 && e > 0.0
    ensures n * e > 0.0 && (w * e) / (n * e) == w * (1.0 / n)
  {
    assert n * e > 0.0;
    var x := w * (1.0 / n);
    assert x * n == w by {
      assert (1.0 / n) * n == 1.0;
      assert w * (1.0 / n) * n == w * ((1.0 / n) * n);
    }
    assert x * (n * e) == (x * n) * e;
  }

  // ----- The one-pass loop -----

  /** The running maximum, which starts at minus infinity. */
  datatype Running = NegInf | Fin(value: real)

  function MaxWith(m: Running, s: real): real {
    if m.Fin? && m.value >= s then m.value else s
  }

  /** `exp(old - new)`, with `exp` of minus infinity being zero. */
  function Decay(exp: real -> real, m: Running, m': real): real {
    if m.NegInf? then 0.0 else exp(m.value - m')
  }

  /** The state of the one-pass loop after the scores `ss` and values `vs`. */
  ghost predicate OnePass(exp: real -> real, ss: seq<real>, vs: seq<seq<real>>, m: Running, l: real, acc: seq<real>)
    requires |vs| == |ss| && forall t :: 0 <= t < |vs| ==> |vs[t]| == |acc|
  {
    if ss == [] then m == NegInf && l == 0.0 && forall d :: 0 <= d < |acc| ==> acc[d] == 0.0
    else
      && m == Fin(MaxOf(ss))
      && l == Norm(exp, ss, m.value)
      && forall d :: 0 <= d < |acc| ==> acc[d] == Weighted(exp, ss, vs, m.value, d)
  }

  /** The accumulator's update: what there was, decayed, plus the new value, weighted. */
  function Blend(x: real, decay: real, weight: real, v: real): real {
    x * decay + weight * v
  }

  /** One more token: rescale what was accumulated to the new maximum and add. */
  lemma OnePassStep(exp: real -> real, ss: seq<real>, vs: seq<seq<real>>, m: Running, l: real, acc: seq<real>, s: real, v: seq<real>,
                    m': real, l': real, acc': seq<real>)
    requires IsExp(exp) && |vs| == |ss| && (forall t :: 0 <= t < |vs| ==> |vs[t]| == |acc|) && |v| == |acc| == |acc'|
    requires OnePass(exp, ss, vs, m, l, acc)
    requires m' == MaxWith(m, s) && l' == Blend(l, Decay(exp, m, m'), exp(s - m'), 1.0)
    requires forall d :: 0 <= d < |acc| ==> acc'[d] == Blend(acc[d], Decay(exp, m, m'), exp(s - m'), v[d])
    ensures OnePass(exp, ss + [s], vs + [v], Fin(m'), l', acc')
  {
    hide IsExp, Weighted, Norm, MaxOf, Decay, Blend;
    var ss', vs' := ss + [s], vs + [v];
    assert ss'[..|ss'| - 1] == ss && vs'[..|vs'| - 1] == vs;
    OnePassNorm(exp, ss, m, l, s);
    forall d | 0 <= d < |acc| ensures acc'[d] == Weighted(exp, ss', vs', m', d) {
      OnePassDim(exp, ss, vs, m, s, v, acc[d], d);
    }
  }

  lemma OnePassNorm(exp: real -> real, ss: seq<real>, m: Running, l: real, s: real)
    requires IsExp(exp)
    requires if ss == [] then m == NegInf && l == 0.0 else m == Fin(MaxOf(ss)) && l == Norm(exp, ss, m.value)
    ensures var m' := MaxWith(m, s);
            MaxOf(ss + [s]) == m' && Norm(exp, ss + [s], m') == Blend(l, Decay(exp, m, m'), exp(s - m'), 1.0)
  {
    hide IsExp, Norm, MaxOf;
    var m' := MaxWith(m, s);
    MaxStep(ss, s);
    NormStep(exp, ss, s, m');
    if ss == [] {
      NormNil(exp, m');
    } else {
      NormShift(exp, ss, m.value, m');
    }
  }

  lemma MaxStep(ss: seq<real>, s: real)
    ensures MaxOf(ss + [s]) == if ss != [] && MaxOf(ss) >= s then MaxOf(ss) else s
  {
    assert (ss + [s])[..|ss|] == ss;
  }

  lemma OnePassDim(exp: real -> real, ss: seq<real>, vs: seq<seq<real>>, m: Running, s: real, v: seq<real>, a: real, d: nat)
    requires IsExp(exp) && |vs| == |ss| && (forall t :: 0 <= t < |vs| ==> d < |vs[t]|) && d < |v|
    requires if ss == [] then m == NegInf && a == 0.0 else m.Fin? && a == Weighted(exp, ss, vs, m.value, d)
    ensures var m' := MaxWith(m, s);
            Weighted(exp, ss + [s], vs + [v], m', d) == Blend(a, Decay(exp, m, m'), exp(s - m'), v[d])
  {
    hide IsExp, Weighted;
    var m' := MaxWith(m, s);
    WeightedStep(exp, ss, vs, s, v, m', d);
    if ss == [] {
      WeightedNil(exp, m', d);
      assert vs == [];
    } else {
      WeightedShift(exp, ss, vs, m.value, m', d);
    }
  }

  // ----- Heads -----

  /** Which KV head the one-pass kernel reads for a query head, and which the flat loop reads. */
  function KvHeadKernel(h: nat, nHead: nat, nKv: nat): nat
    requires 0 < nKv <= nHead
  {
    QuotientPositive(nHead, nKv);
    h / (nHead / nKv)
  }

  function KvHeadFlat(h: nat, nHead: nat, nKv: nat): nat
    requires 0 < nHead
  {
    h * nKv / nHead
  }

  lemma QuotientPositive(a: nat, b: nat)
    requires 0 < b <= a
    ensures a / b > 0
  {
    assert a == a / b * b + a % b;
  }

  lemma SameHeadDivides(h: nat, nHead: nat, nKv: nat)
    requires 0 < nKv <= nHead && h < nHead && nHead % nKv == 0
    ensures KvHeadKernel(h, nHead, nKv) == KvHeadFlat(h, nHead, nKv) < nKv
  {
    var g := nHead / nKv;
    QuotientPositive(nHead, nKv);
    DivMod(nHead, nKv);
    DivMod(h, g);
    HeadParts(h, h / g, h % g, g, nHead, nKv);
  }

  lemma HeadParts(h: nat, a: nat, b: nat, g: nat, nHead: nat, nKv: nat)
    requires nHead == g * nKv && h == a * g + b && b < g && h < nHead && nKv > 0
    ensures h * nKv / nHead == a < nKv
  {
    assert h * nKv == a * nHead + b * nKv by {
      Spread(a * g, b, nKv);
      MulAssoc(a, g, nKv);
    }
    MulLess(b, g, nKv);
    DivIs(h * nKv, a, b * nKv, nHead);
    if a >= nKv {
      MulAtMost(nKv, a, g);
    }
  }

  lemma Spread(x: nat, y: nat, n: nat)
    ensures (x + y) * n == x * n + y * n
  {}

  /** When the KV heads do not divide the query heads, the last query head reads past the KV heads. */
  lemma LastHeadOut(nHead: nat, nKv: nat)
    requires 0 < nKv <= nHead && nHead % nKv != 0
    ensures KvHeadKernel(nHead - 1, nHead, nKv) >= nKv
  {
    var g := nHead / nKv;
    QuotientPositive(nHead, nKv);
    assert nHead == g * nKv + nHead % nKv;
    var a := (nHead - 1) / g;
    assert nHead - 1 == a * g + (nHead - 1) % g;
    if a < nKv {
      MulLess(a, nKv, g);
    }
  }

  lemma FlatHeadIn(h: nat, nHead: nat, nKv: nat)
    requires 0 < nKv && h < nHead
    ensures KvHeadFlat(h, nHead, nKv) < nKv
  {
    var f := KvHeadFlat(h, nHead, nKv);
    assert h * nKv == f * nHead + h * nKv % nHead;
    MulLess(h, nHead, nKv);
    if f >= nKv {
      MulAtMost(nKv, f, nHead);
    }
  }

  /** The two mappings agree on every head if and only if the KV heads divide the query heads. */
  lemma SameHeadIff(nHead: nat, nKv: nat)
    requires 0 < nKv <= nHead
    ensures (forall h: nat :: h < nHead ==> KvHeadKernel(h, nHead, nKv) == KvHeadFlat(h, nHead, nKv)) <==> nHead % nKv == 0
  {
    if nHead % nKv == 0 {
      forall h: nat | h < nHead ensures KvHeadKernel(h, nHead, nKv) == KvHeadFlat(h, nHead, nKv) {
        SameHeadDivides(h, nHead, nKv);
      }
    } else {
      LastHeadOut(nHead, nKv);
      FlatHeadIn(nHead - 1, nHead, nKv);
    }
  }
}
