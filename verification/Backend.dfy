/** Greedy draft and target models over a causal language-model backend. */
module Backend {
  import opened Common
  import opened GreedyDecoding
  import opened Speculative

  /** `TokenLogits`: never empty. */
  type Logits = s: seq<real> | s != [] witness [0.0]

  /** A stateless backend: the logits after a context, or an error. */
  type LogitsFn = seq<TokenId> -> Result<Logits, SpecError>

  /** A backend's verification pass: one row of logits per drafted token. */
  type VerifyLogitsFn = (seq<TokenId>, seq<TokenId>) -> Result<seq<Logits>, SpecError>

  /** The last position of the largest logit. */
  function ArgMax(logits: Logits): (t: nat)
    ensures t < |logits|
    ensures forall i :: 0 <= i < |logits| ==> logits[i] <= logits[t]
    ensures forall i :: t < i < |logits| ==> logits[i] < logits[t]
  {
    if |logits| == 1 then 0
    else
      var n := |logits| - 1;
      var t := ArgMax(logits[..n]);
      if logits[n] >= logits[t] then n else t
  }

  /** The greedy sampler's scan, in which a later equal logit wins. */
  method Sample(logits: Logits) returns (p: Prediction)
    ensures p == Prediction(ArgMax(logits), logits[ArgMax(logits)])
  {
    var max, token: nat := logits[0], 0;
    for i := 1 to |logits|
      invariant token < i && token == ArgMax(logits[..i]) && max == logits[token]
    {
      assert logits[..i + 1][..i] == logits[..i];
      if logits[i] >= max {
        max, token := logits[i], i;
      }
    }
    assert logits[..|logits|] == logits;
    p := Prediction(token, max);
  }

  function Best(logits: Logits): Prediction {
    Prediction(ArgMax(logits), logits[ArgMax(logits)])
  }

  /** The chain of `n` greedy predictions from a context, or the first error met on the way. */
  function Chain(backend: LogitsFn, ctx: seq<TokenId>, n: nat): (r: Result<seq<Prediction>, SpecError>)
    ensures r.Ok? ==> |r.value| == n
  {
    if n == 0 then Ok([])
    else
      var before := Chain(backend, ctx, n - 1);
      if before.Err? then before
      else
        var logits := backend(ctx + Tokens(before.value));
        if logits.Err? then Err(logits.error) else Ok(before.value + [Best(logits.value)])
  }

  /** The token a backend picks greedily; 0 where it fails. */
  function PickOf(backend: LogitsFn): Target {
    (ctx: seq<TokenId>) => if backend(ctx).Ok? then ArgMax(backend(ctx).value) else 0
  }

  /** Greedy drafting is greedy decoding with the draft backend. */
  lemma {:induction false} ChainIsGreedy(backend: LogitsFn, ctx: seq<TokenId>, n: nat)
    requires Chain(backend, ctx, n).Ok?
    ensures Tokens(Chain(backend, ctx, n).value) == Greedy(PickOf(backend), ctx, n)
  {
    if n > 0 {
      ChainIsGreedy(backend, ctx, n - 1);
      var before := Chain(backend, ctx, n - 1).value;
      var p := Best(backend(ctx + Tokens(before)).value);
      assert Tokens(before + [p]) == Tokens(before) + [p.token];
    }
  }

  /** Once a chain fails, every longer chain fails. */
  lemma {:induction false} ChainErrSticks(backend: LogitsFn, ctx: seq<TokenId>, n: nat, m: nat)
    requires n <= m && Chain(backend, ctx, n).Err?
    ensures Chain(backend, ctx, m) == Chain(backend, ctx, n)
  {
    if n < m {
      ChainErrSticks(backend, ctx, n, m - 1);
    }
  }

  method Draft(backend: LogitsFn, ctx: seq<TokenId>, maxTokens: nat) returns (r: Result<seq<Prediction>, SpecError>)
    ensures r == Chain(backend, ctx, maxTokens)
  {
    var context, predictions := ctx, [];
    for n := 0 to maxTokens
      invariant Chain(backend, ctx, n) == Ok(predictions)
      invariant context == ctx + Tokens(predictions)
    {
      var logits := backend(context);
      if logits.Err? {
        ChainErrSticks(backend, ctx, n + 1, maxTokens);
        return Err(logits.error);
      }
      var p := Sample(logits.value);
      assert Tokens(predictions + [p]) == Tokens(predictions) + [p.token];
      context := context + [p.token];
      predictions := predictions + [p];
    }
    r := Ok(predictions);
  }

  datatype DraftReq = DraftReq(ctx: seq<TokenId>, max: nat)

  /** Context `i` fails with `e`, and none before it fails. */
  ghost predicate FirstFailure(backend: LogitsFn, contexts: seq<seq<TokenId>>, i: nat, e: SpecError)
    requires i < |contexts|
  {
    backend(contexts[i]) == Err(e) && forall j :: 0 <= j < i ==> backend(contexts[j]).Ok?
  }

  /** The default `next_logits_batch`: one context after the other, stopping at the first error. */
  method NextLogitsBatch(backend: LogitsFn, contexts: seq<seq<TokenId>>) returns (r: Result<seq<Logits>, SpecError>)
    ensures r.Ok? ==> |r.value| == |contexts| && forall i :: 0 <= i < |contexts| ==> backend(contexts[i]) == Ok(r.value[i])
    ensures r.Err? ==> exists i: nat :: i < |contexts| && FirstFailure(backend, contexts, i, r.error)
  {
    var rows: seq<Logits> := [];
    for n := 0 to |contexts|
      invariant |rows| == n && forall i :: 0 <= i < n ==> backend(contexts[i]) == Ok(rows[i])
    {
      var row := backend(contexts[n]);
      if row.Err? {
        assert FirstFailure(backend, contexts, n, row.error);
        return Err(row.error);
      }
      rows := rows + [row.value];
    }
    r := Ok(rows);
  }

  ghost function ChainOf(backend: LogitsFn, req: DraftReq, steps: nat): Result<seq<Prediction>, SpecError> {
    Chain(backend, req.ctx, Min(steps, req.max))
  }

  /** After `steps` lock-step rounds every request holds its own chain, cut at its own limit. */
  ghost predicate InStep(backend: LogitsFn, reqs: seq<DraftReq>, contexts: seq<seq<TokenId>>,
                         results: seq<seq<Prediction>>, steps: nat)
  {
    && |contexts| == |results| == |reqs|
    && forall i :: 0 <= i < |reqs| ==>
         ChainOf(backend, reqs[i], steps) == Ok(results[i]) && contexts[i] == reqs[i].ctx + Tokens(results[i])
  }

  method MaxLimit(reqs: seq<DraftReq>) returns (m: nat)
    ensures forall i :: 0 <= i < |reqs| ==> reqs[i].max <= m
  {
    m := 0;
    for n := 0 to |reqs|
      invariant forall i :: 0 <= i < n ==> reqs[i].max <= m
    {
      if reqs[n].max > m {
        m := reqs[n].max;
      }
    }
  }

  /** The requests still short of their limit, in order. */
  method Unfinished(reqs: seq<DraftReq>, results: seq<seq<Prediction>>) returns (idx: seq<nat>)
    requires |results| == |reqs|
    ensures forall a :: 0 <= a < |idx| ==> idx[a] < |reqs|
    ensures forall a, b :: 0 <= a < b < |idx| ==> idx[a] < idx[b]
    ensures forall i: nat :: i in idx <==> i < |reqs| && |results[i]| < reqs[i].max
  {
    idx := [];
    for n := 0 to |reqs|
      invariant forall a :: 0 <= a < |idx| ==> idx[a] < n
      invariant forall a, b :: 0 <= a < b < |idx| ==> idx[a] < idx[b]
      invariant forall i: nat :: i in idx <==> i < n && |results[i]| < reqs[i].max
    {
      if |results[n]| < reqs[n].max {
        idx := idx + [n];
      }
    }
  }

  /** Batched drafting refines sequential drafting: each request gets what it would get alone, with
      exactly its own number of predictions; the batch fails exactly when some request would. */
  method DraftBatch(backend: LogitsFn, reqs: seq<DraftReq>) returns (r: Result<seq<seq<Prediction>>, SpecError>)
    ensures r.Ok? <==> forall i :: 0 <= i < |reqs| ==> Chain(backend, reqs[i].ctx, reqs[i].max).Ok?
    ensures r.Err? ==> exists step: nat, i: nat :: EarliestFailure(backend, reqs, step, i, r.error)
    ensures r.Ok? ==> |r.value| == |reqs| && forall i :: 0 <= i < |reqs| ==>
      Chain(backend, reqs[i].ctx, reqs[i].max) == Ok(r.value[i]) && |r.value[i]| == reqs[i].max
  {
    var results: seq<seq<Prediction>> := seq(|reqs|, i => []);
    var contexts := seq(|reqs|, i requires 0 <= i < |reqs| => reqs[i].ctx);
    var maxSteps := MaxLimit(reqs);
    var step := 0;
    while step < maxSteps
      invariant step <= maxSteps
      invariant InStep(backend, reqs, contexts, results, step)
    {
      var idx := Unfinished(reqs, results);
      if idx == [] {
        forall i | 0 <= i < |reqs| ensures ChainOf(backend, reqs[i], maxSteps) == ChainOf(backend, reqs[i], step) {
          assert i !in idx;
        }
        break;
      }
      var stepped := BatchStep(backend, reqs, contexts, results, idx, step);
      if stepped.Err? {
        ghost var i: nat :| EarliestFailure(backend, reqs, step, i, stepped.error);
        EarliestFailureIsOwn(backend, reqs, step, i, stepped.error);
        return Err(stepped.error);
      }
      contexts, results := stepped.value.0, stepped.value.1;
      step := step + 1;
    }
    assert InStep(backend, reqs, contexts, results, maxSteps);
    forall i | 0 <= i < |reqs| ensures Chain(backend, reqs[i].ctx, reqs[i].max) == Ok(results[i]) {
      assert ChainOf(backend, reqs[i], maxSteps) == Ok(results[i]);
    }
    r := Ok(results);
  }

  /** One lock-step round: a single batched pass extends every unfinished request by one token. */
  method BatchStep(backend: LogitsFn, reqs: seq<DraftReq>, contexts: seq<seq<TokenId>>, results: seq<seq<Prediction>>,
                   idx: seq<nat>, step: nat)
      returns (r: Result<(seq<seq<TokenId>>, seq<seq<Prediction>>), SpecError>)
    requires InStep(backend, reqs, contexts, results, step)
    requires forall a :: 0 <= a < |idx| ==> idx[a] < |reqs|
    requires forall a, b :: 0 <= a < b < |idx| ==> idx[a] < idx[b]
    requires forall i: nat :: i in idx <==> i < |reqs| && |results[i]| < reqs[i].max
    ensures r.Ok? ==> InStep(backend, reqs, r.value.0, r.value.1, step + 1)
    ensures r.Err? ==> exists i: nat :: EarliestFailure(backend, reqs, step, i, r.error)
  {
    var active := seq(|idx|, a requires 0 <= a < |idx| => contexts[idx[a]]);
    var rows := NextLogitsBatch(backend, active);
    if rows.Err? {
      ghost var a: nat :| a < |active| && FirstFailure(backend, active, a, rows.error);
      BatchFails(backend, reqs, contexts, results, idx, step, active, a, rows.error);
      return Err(rows.error);
    }
    var cs, rs := ExtendAll(backend, contexts, results, idx, rows.value);
    BatchSteps(backend, reqs, contexts, results, idx, step, cs, rs);
    r := Ok((cs, rs));
  }

  /** Sample each row and extend the request it belongs to. */
  method ExtendAll(backend: LogitsFn, contexts: seq<seq<TokenId>>, results: seq<seq<Prediction>>, idx: seq<nat>, rows: seq<Logits>)
      returns (cs: seq<seq<TokenId>>, rs: seq<seq<Prediction>>)
    requires |contexts| == |results| && |rows| == |idx|
    requires forall a :: 0 <= a < |idx| ==> idx[a] < |contexts| && backend(contexts[idx[a]]) == Ok(rows[a])
    requires forall a, b :: 0 <= a < b < |idx| ==> idx[a] < idx[b]
    ensures |cs| == |rs| == |contexts|
    ensures forall i :: 0 <= i < |contexts| && i !in idx ==> cs[i] == contexts[i] && rs[i] == results[i]
    ensures forall i :: 0 <= i < |contexts| && i in idx ==> Extended(backend, contexts[i], results[i], cs[i], rs[i])
  {
    cs, rs := contexts, results;
    for a := 0 to |idx|
      invariant |cs| == |rs| == |contexts|
      invariant forall i :: 0 <= i < |contexts| && i !in idx[..a] ==> cs[i] == contexts[i] && rs[i] == results[i]
      invariant forall i :: 0 <= i < |contexts| && i in idx[..a] ==> Extended(backend, contexts[i], results[i], cs[i], rs[i])
    {
      var p := Sample(rows[a]);
      assert idx[a] !in idx[..a];
      assert idx[..a + 1] == idx[..a] + [idx[a]];
      cs := cs[idx[a] := cs[idx[a]] + [p.token]];
      rs := rs[idx[a] := rs[idx[a]] + [p]];
    }
    assert idx[..|idx|] == idx;
  }

  /** A failed pass is the earliest failure of the requests on their own: first by step, then by position. */
  lemma BatchFails(backend: LogitsFn, reqs: seq<DraftReq>, contexts: seq<seq<TokenId>>, results: seq<seq<Prediction>>,
                   idx: seq<nat>, step: nat, active: seq<seq<TokenId>>, a: nat, e: SpecError)
    requires InStep(backend, reqs, contexts, results, step)
    requires forall k :: 0 <= k < |idx| ==> idx[k] < |reqs|
    requires forall k, l :: 0 <= k < l < |idx| ==> idx[k] < idx[l]
    requires forall i: nat :: i in idx <==> i < |reqs| && |results[i]| < reqs[i].max
    requires |active| == |idx| && forall k :: 0 <= k < |idx| ==> active[k] == contexts[idx[k]]
    requires a < |active| && FirstFailure(backend, active, a, e)
    ensures EarliestFailure(backend, reqs, step, idx[a], e)
  {
    var i := idx[a];
    assert i in idx;
    forall j: nat | j < |reqs| ensures ChainOf(backend, reqs[j], step).Ok? {
      assert ChainOf(backend, reqs[j], step) == Ok(results[j]);
    }
    assert ChainOf(backend, reqs[i], step) == Ok(results[i]);
    forall j: nat | j < i ensures ChainOf(backend, reqs[j], step + 1).Ok? {
      assert ChainOf(backend, reqs[j], step) == Ok(results[j]);
      if j in idx {
        var k: nat :| k < |idx| && idx[k] == j;
        assert k < a;
      }
    }
  }

  /** Request `i` fails with `e` at step `step`, none fails at an earlier step, and none before it at this one. */
  ghost predicate EarliestFailure(backend: LogitsFn, reqs: seq<DraftReq>, step: nat, i: nat, e: SpecError) {
    && i < |reqs| && ChainOf(backend, reqs[i], step + 1) == Err(e)
    && (forall j: nat :: j < |reqs| ==> ChainOf(backend, reqs[j], step).Ok?)
    && (forall j: nat :: j < i ==> ChainOf(backend, reqs[j], step + 1).Ok?)
  }

  /** So that request fails on its own as well, with the same error. */
  lemma EarliestFailureIsOwn(backend: LogitsFn, reqs: seq<DraftReq>, step: nat, i: nat, e: SpecError)
    requires EarliestFailure(backend, reqs, step, i, e)
    ensures Chain(backend, reqs[i].ctx, reqs[i].max) == Err(e)
  {
    ChainErrSticks(backend, reqs[i].ctx, Min(step + 1, reqs[i].max), reqs[i].max);
  }

  lemma BatchSteps(backend: LogitsFn, reqs: seq<DraftReq>, contexts: seq<seq<TokenId>>, results: seq<seq<Prediction>>,
                   idx: seq<nat>, step: nat, cs: seq<seq<TokenId>>, rs: seq<seq<Prediction>>)
    requires InStep(backend, reqs, contexts, results, step) && |cs| == |rs| == |reqs|
    requires forall i: nat :: i in idx <==> i < |reqs| && |results[i]| < reqs[i].max
    requires forall i :: 0 <= i < |reqs| && i !in idx ==> cs[i] == contexts[i] && rs[i] == results[i]
    requires forall i :: 0 <= i < |reqs| && i in idx ==> Extended(backend, contexts[i], results[i], cs[i], rs[i])
    ensures InStep(backend, reqs, cs, rs, step + 1)
  {
    hide Extended;
    forall i | 0 <= i < |reqs|
      ensures ChainOf(backend, reqs[i], step + 1) == Ok(rs[i]) && cs[i] == reqs[i].ctx + Tokens(rs[i])
    {
      assert ChainOf(backend, reqs[i], step) == Ok(results[i]);
      if i in idx {
        ExtendChain(backend, reqs[i], contexts[i], results[i], cs[i], rs[i], step);
      }
    }
  }

  ghost predicate Extended(backend: LogitsFn, c: seq<TokenId>, ps: seq<Prediction>, c': seq<TokenId>, ps': seq<Prediction>) {
    backend(c).Ok? && ps' == ps + [Best(backend(c).value)] && c' == c + [Best(backend(c).value).token]
  }

  lemma ExtendChain(backend: LogitsFn, req: DraftReq, c: seq<TokenId>, ps: seq<Prediction>, c': seq<TokenId>, ps': seq<Prediction>, step: nat)
    requires ChainOf(backend, req, step) == Ok(ps) && c == req.ctx + Tokens(ps) && |ps| < req.max
    requires Extended(backend, c, ps, c', ps')
    ensures ChainOf(backend, req, step + 1) == Ok(ps') && c' == req.ctx + Tokens(ps')
  {
    assert Min(step, req.max) == step && Min(step + 1, req.max) == step + 1;
    var p := Best(backend(c).value);
    assert Tokens(ps + [p]) == Tokens(ps) + [p.token];
  }

  // ----- Target side -----

  /** The verification pass scores each drafted position in its own context. */
  ghost predicate Positional(backend: LogitsFn, rows: VerifyLogitsFn) {
    forall ctx, drafted :: rows(ctx, drafted).Ok? ==>
      && |rows(ctx, drafted).value| == |drafted|
      && forall i :: 0 <= i < |drafted| ==> backend(ctx + drafted[..i]) == Ok(rows(ctx, drafted).value[i])
  }

  function StepsOf(rows: seq<Logits>): (r: seq<VerifyStep>)
    ensures |r| == |rows| && forall i :: 0 <= i < |rows| ==> r[i] == VerifyStep(ArgMax(rows[i]))
  {
    seq(|rows|, i requires 0 <= i < |rows| => VerifyStep(ArgMax(rows[i])))
  }

  method Verify(rows: VerifyLogitsFn, ctx: seq<TokenId>, drafted: seq<TokenId>) returns (r: Result<seq<VerifyStep>, SpecError>)
    ensures r == if rows(ctx, drafted).Err? then Err(rows(ctx, drafted).error) else Ok(StepsOf(rows(ctx, drafted).value))
  {
    var logits := rows(ctx, drafted);
    if logits.Err? {
      return Err(logits.error);
    }
    var steps := [];
    for n := 0 to |logits.value|
      invariant steps == StepsOf(logits.value)[..n]
    {
      var p := Sample(logits.value[n]);
      steps := steps + [VerifyStep(p.token)];
    }
    assert steps == StepsOf(logits.value);
    r := Ok(steps);
  }

  /** The greedy target as the `verify` of the decoder. */
  function GreedyVerify(rows: VerifyLogitsFn): VerifyFn {
    (call: nat, ctx: seq<TokenId>, drafted: seq<TokenId>) =>
      if rows(ctx, drafted).Err? then Err(rows(ctx, drafted).error) else Ok(StepsOf(rows(ctx, drafted).value))
  }

  /** Over a positional backend, the greedy target model meets the contract losslessness relies on,
      and never answers with the wrong number of steps. */
  lemma GreedyTargetFaithful(backend: LogitsFn, rows: VerifyLogitsFn)
    requires Positional(backend, rows)
    ensures Faithful(PickOf(backend), GreedyVerify(rows))
    ensures forall call, ctx, drafted :: GreedyVerify(rows)(call, ctx, drafted).Ok? ==>
      |GreedyVerify(rows)(call, ctx, drafted).value| == |drafted|
  {
    var T, verify := PickOf(backend), GreedyVerify(rows);
    forall call, ctx, drafted | verify(call, ctx, drafted).Ok?
      ensures Verifies(T, ctx, drafted, verify(call, ctx, drafted).value)
    {
      var steps := verify(call, ctx, drafted).value;
      forall i | 0 <= i < |drafted| ensures steps[i].expected == T(ctx + drafted[..i]) {
        assert backend(ctx + drafted[..i]) == Ok(rows(ctx, drafted).value[i]);
      }
    }
  }
}
