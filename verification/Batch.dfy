/** The draft-verify-commit loop over a batch of requests. */
module BatchDecoding {
  import opened Common
  import opened GreedyDecoding
  import opened Speculative
  import opened Backend

  datatype VerifyReq = VerifyReq(ctx: seq<TokenId>, drafted: seq<TokenId>)

  /** Batched models, as the answers they give. What one request gets may depend on all others. */
  type DraftBatchFn = (nat, seq<DraftReq>) -> Result<seq<seq<Prediction>>, SpecError>
  type VerifyBatchFn = (nat, seq<VerifyReq>) -> Result<seq<seq<VerifyStep>>, SpecError>

  /** One answer per request. */
  ghost predicate OnePerRequest(draft: DraftBatchFn) {
    forall call, reqs: seq<DraftReq> :: draft(call, reqs).Ok? ==> |draft(call, reqs).value| == |reqs|
  }

  /** No answer longer than asked for. The batch does not check this. */
  ghost predicate Bounded(draft: DraftBatchFn) {
    forall call, reqs: seq<DraftReq> :: draft(call, reqs).Ok? && |draft(call, reqs).value| == |reqs| ==>
      forall i :: 0 <= i < |reqs| ==> |draft(call, reqs).value[i]| <= reqs[i].max
  }

  /** No empty answer to a request for something. */
  ghost predicate Productive(draft: DraftBatchFn) {
    forall call, reqs: seq<DraftReq> :: draft(call, reqs).Ok? && |draft(call, reqs).value| == |reqs| ==>
      forall i :: 0 <= i < |reqs| && reqs[i].max > 0 ==> draft(call, reqs).value[i] != []
  }

  /** The verification contract, request by request. */
  ghost predicate FaithfulBatch(T: Target, verify: VerifyBatchFn) {
    forall call, reqs: seq<VerifyReq> :: verify(call, reqs).Ok? ==>
      && |verify(call, reqs).value| == |reqs|
      && forall i :: 0 <= i < |reqs| ==> Verifies(T, reqs[i].ctx, reqs[i].drafted, verify(call, reqs).value[i])
  }

  /** A request being decoded. */
  datatype Active = Active(session: Session, maxNew: nat, generated: seq<TokenId>)

  /** So far the request has received a greedy continuation of its own prompt. */
  ghost predicate OnTrack(T: Target, a: Active) {
    && a.session.context == a.session.prompt + a.generated
    && Follows(T, a.session.prompt, a.generated)
    && a.session.rejected == None
  }

  /** Fold one verified draft into a request, taking the pending correction along. */
  function Advanced(a: Active, drafted: seq<TokenId>, steps: seq<VerifyStep>): Active
    requires |drafted| == |steps|
  {
    a.(session := Committed(a.session, drafted, steps).(rejected := None),
       generated := a.generated + Emitted(drafted, steps))
  }

  /** Whatever was drafted, the request stays on its own greedy track. It overruns its limit exactly when the draft is
      longer than what is left and agrees with the target that far. */
  lemma AdvancedOnTrack(T: Target, a: Active, drafted: seq<TokenId>, steps: seq<VerifyStep>)
    requires OnTrack(T, a) && |drafted| == |steps|
    requires Verifies(T, a.session.context, drafted, steps)
    ensures OnTrack(T, Advanced(a, drafted, steps))
    ensures |a.generated| <= a.maxNew ==>
      var left := a.maxNew - |a.generated|;
      |Advanced(a, drafted, steps).generated| > a.maxNew <==> |drafted| > left && Follows(T, a.session.context, drafted[..left])
    ensures drafted != [] ==> |Advanced(a, drafted, steps).generated| > |a.generated|
  {
    if |a.generated| <= a.maxNew {
      EmitsBeyondIff(T, a.session.context, drafted, steps, a.maxNew - |a.generated|);
    }
    hide Follows;
    RoundFollows(T, a.session.context, drafted, steps);
    FollowsAppend(T, a.session.prompt, a.generated, Emitted(drafted, steps));
    var e := Emitted(drafted, steps);
    assert a.session.context + e == a.session.prompt + (a.generated + e);
  }

  /** Tokens still owed to the batch: the termination measure. */
  ghost function Owed(active: seq<Active>): nat {
    if active == [] then 0
    else
      var a := active[|active| - 1];
      Owed(active[..|active| - 1]) + if |a.generated| < a.maxNew then a.maxNew - |a.generated| else 0
  }

  lemma {:induction false} OwedDrops(before: seq<Active>, after: seq<Active>)
    requires |before| == |after|
    requires forall i :: 0 <= i < |before| ==> after[i].maxNew == before[i].maxNew && |after[i].generated| >= |before[i].generated|
    ensures Owed(after) <= Owed(before)
    ensures (exists i :: 0 <= i < |before| && |before[i].generated| < before[i].maxNew && |after[i].generated| > |before[i].generated|)
      ==> Owed(after) < Owed(before)
  {
    if before != [] {
      var n := |before| - 1;
      OwedDrops(before[..n], after[..n]);
    }
  }

  /** The requests that still owe tokens, in order. */
  function Live(active: seq<Active>): (idx: seq<nat>)
    ensures forall a :: 0 <= a < |idx| ==> idx[a] < |active| && |active[idx[a]].generated| < active[idx[a]].maxNew
    ensures forall a, b :: 0 <= a < b < |idx| ==> idx[a] < idx[b]
    ensures forall i: nat :: i < |active| && |active[i].generated| < active[i].maxNew ==> i in idx
  {
    if active == [] then []
    else
      var n := |active| - 1;
      Live(active[..n]) + if |active[n].generated| < active[n].maxNew then [n] else []
  }

  lemma LiveStep(active: seq<Active>, n: nat)
    requires n < |active|
    ensures Live(active[..n + 1]) == Live(active[..n]) + if |active[n].generated| < active[n].maxNew then [n] else []
  {
    assert active[..n + 1][..n] == active[..n];
  }

  method LiveIndices(active: seq<Active>) returns (idx: seq<nat>)
    ensures idx == Live(active)
  {
    idx := [];
    LiveNone();
    hide Live;
    for n := 0 to |active|
      invariant idx == Live(active[..n])
    {
      LiveStep(active, n);
      if |active[n].generated| < active[n].maxNew {
        idx := idx + [n];
      }
    }
    assert active[..|active|] == active;
  }

  lemma LiveNone()
    ensures Live([]) == []
  {}

  /** `after` is `before` with request `idx[k]` advanced by its own results, for every `k` below `n`. */
  ghost predicate CommittedUpTo(before: seq<Active>, after: seq<Active>, idx: seq<nat>,
                                drafts: seq<seq<TokenId>>, steps: seq<seq<VerifyStep>>, n: nat)
    requires |drafts| == |steps| == |idx| && n <= |idx|
    requires forall a :: 0 <= a < |idx| ==> idx[a] < |before|
  {
    && |after| == |before|
    && (forall k :: 0 <= k < n ==> |drafts[k]| == |steps[k]| && after[idx[k]] == Advanced(before[idx[k]], drafts[k], steps[k]))
    && (forall i: nat :: i < |before| && i !in idx[..n] ==> after[i] == before[i])
  }

  /** Request `k` is the first to get a wrong number of verification steps. */
  ghost predicate FirstWrongLength(drafts: seq<seq<TokenId>>, steps: seq<seq<VerifyStep>>, k: nat, e: SpecError)
    requires k < |drafts| == |steps|
  {
    && |drafts[k]| != |steps[k]| && e == TargetReturnedWrongLength(|drafts[k]|, |steps[k]|)
    && forall j :: 0 <= j < k ==> |drafts[j]| == |steps[j]|
  }

  /** The commit phase: each live request takes its own results, and only its own. */
  method CommitAll(active: seq<Active>, idx: seq<nat>, drafts: seq<seq<TokenId>>, steps: seq<seq<VerifyStep>>)
      returns (r: Result<seq<Active>, SpecError>)
    requires |drafts| == |steps| == |idx|
    requires forall a :: 0 <= a < |idx| ==> idx[a] < |active|
    requires forall a, b :: 0 <= a < b < |idx| ==> idx[a] < idx[b]
    ensures r.Ok? <==> forall k :: 0 <= k < |idx| ==> |drafts[k]| == |steps[k]|
    ensures r.Ok? ==> CommittedUpTo(active, r.value, idx, drafts, steps, |idx|)
    ensures r.Err? ==> exists k: nat :: k < |idx| && FirstWrongLength(drafts, steps, k, r.error)
  {
    var after := active;
    for k := 0 to |idx|
      invariant CommittedUpTo(active, after, idx, drafts, steps, k)
    {
      if |steps[k]| != |drafts[k]| {
        assert FirstWrongLength(drafts, steps, k, TargetReturnedWrongLength(|drafts[k]|, |steps[k]|));
        return Err(TargetReturnedWrongLength(|drafts[k]|, |steps[k]|));
      }
      assert idx[k] !in idx[..k];
      assert idx[..k + 1] == idx[..k] + [idx[k]];
      after := after[idx[k] := Advanced(after[idx[k]], drafts[k], steps[k])];
    }
    r := Ok(after);
  }

  function DraftReqs(active: seq<Active>, idx: seq<nat>, window: nat): (r: seq<DraftReq>)
    requires forall a :: 0 <= a < |idx| ==> idx[a] < |active| && |active[idx[a]].generated| < active[idx[a]].maxNew
    ensures |r| == |idx| && forall a :: 0 <= a < |idx| ==>
      r[a] == DraftReq(active[idx[a]].session.context, Min(active[idx[a]].maxNew - |active[idx[a]].generated|, window))
  {
    seq(|idx|, a requires 0 <= a < |idx| =>
      DraftReq(active[idx[a]].session.context, Min(active[idx[a]].maxNew - |active[idx[a]].generated|, window)))
  }

  function VerifyReqs(active: seq<Active>, idx: seq<nat>, drafts: seq<seq<TokenId>>): (r: seq<VerifyReq>)
    requires |drafts| == |idx| && forall a :: 0 <= a < |idx| ==> idx[a] < |active|
    ensures |r| == |idx| && forall a :: 0 <= a < |idx| ==> r[a] == VerifyReq(active[idx[a]].session.context, drafts[a])
  {
    seq(|idx|, a requires 0 <= a < |idx| => VerifyReq(active[idx[a]].session.context, drafts[a]))
  }

  function AllTokens(pss: seq<seq<Prediction>>): (r: seq<seq<TokenId>>)
    ensures |r| == |pss| && forall i :: 0 <= i < |pss| ==> r[i] == Tokens(pss[i])
  {
    seq(|pss|, i requires 0 <= i < |pss| => Tokens(pss[i]))
  }

  function CountCalls(a: Active): Active {
    a.(session := a.session.(stats := a.session.stats.(draftCalls := a.session.stats.draftCalls + 1,
                                                       targetCalls := a.session.stats.targetCalls + 1)))
  }

  /** What a round guarantees every request, live or not. */
  ghost predicate RoundKept(T: Target, before: seq<Active>, after: seq<Active>) {
    && |after| == |before|
    && forall i :: 0 <= i < |before| ==>
      && OnTrack(T, after[i])
      && after[i].maxNew == before[i].maxNew
      && after[i].session.prompt == before[i].session.prompt
      && before[i].generated <= after[i].generated
      && (|before[i].generated| >= before[i].maxNew ==> after[i] == before[i])
  }

  /** No request has more tokens than it asked for. */
  ghost predicate AllWithin(active: seq<Active>) {
    forall i :: 0 <= i < |active| ==> |active[i].generated| <= active[i].maxNew
  }

  ghost predicate AllOnTrack(T: Target, active: seq<Active>) {
    forall i :: 0 <= i < |active| ==> OnTrack(T, active[i])
  }

  /** Record one draft and one target call for each live request. */
  method RecordCalls(active: seq<Active>, idx: seq<nat>) returns (after: seq<Active>)
    requires forall a :: 0 <= a < |idx| ==> idx[a] < |active|
    requires forall a, b :: 0 <= a < b < |idx| ==> idx[a] < idx[b]
    ensures |after| == |active|
    ensures forall i: nat :: i < |active| ==> after[i] == if i in idx then CountCalls(active[i]) else active[i]
  {
    after := active;
    for k := 0 to |idx|
      invariant |after| == |active|
      invariant forall i: nat :: i < |active| ==> after[i] == if i in idx[..k] then CountCalls(active[i]) else active[i]
    {
      assert idx[k] !in idx[..k];
      assert idx[..k + 1] == idx[..k] + [idx[k]];
      after := after[idx[k] := CountCalls(after[idx[k]])];
    }
    assert idx[..|idx|] == idx;
  }

  lemma LiveAdvances(T: Target, active: seq<Active>, after: seq<Active>, idx: seq<nat>, drafts: seq<seq<TokenId>>,
                     steps: seq<seq<VerifyStep>>)
    requires |drafts| == |steps| == |idx| && AllOnTrack(T, active)
    requires forall a :: 0 <= a < |idx| ==> idx[a] < |active| && |active[idx[a]].generated| < active[idx[a]].maxNew
    requires CommittedUpTo(active, after, idx, drafts, steps, |idx|)
    requires forall a :: 0 <= a < |idx| ==> Verifies(T, active[idx[a]].session.context, drafts[a], steps[a])
    ensures RoundKept(T, active, after)
    ensures (forall a :: 0 <= a < |idx| ==> |drafts[a]| <= active[idx[a]].maxNew - |active[idx[a]].generated|) && AllWithin(active)
      ==> AllWithin(after)
    ensures forall a :: 0 <= a < |idx| && drafts[a] != [] ==> |after[idx[a]].generated| > |active[idx[a]].generated|
  {
    assert idx[..|idx|] == idx;
    forall a | 0 <= a < |idx|
      ensures OnTrack(T, after[idx[a]]) && active[idx[a]].generated <= after[idx[a]].generated
      ensures |drafts[a]| <= active[idx[a]].maxNew - |active[idx[a]].generated| ==> |after[idx[a]].generated| <= after[idx[a]].maxNew
      ensures drafts[a] != [] ==> |after[idx[a]].generated| > |active[idx[a]].generated|
    {
      AdvancedOnTrack(T, active[idx[a]], drafts[a], steps[a]);
    }
    forall i | 0 <= i < |active|
      ensures OnTrack(T, after[i]) && after[i].maxNew == active[i].maxNew && after[i].session.prompt == active[i].session.prompt
      ensures active[i].generated <= after[i].generated && (|active[i].generated| >= active[i].maxNew ==> after[i] == active[i])
      ensures (forall a :: 0 <= a < |idx| ==> |drafts[a]| <= active[idx[a]].maxNew - |active[idx[a]].generated|) && AllWithin(active)
        ==> |after[i].generated| <= after[i].maxNew
    {
      if i in idx {
        var a :| 0 <= a < |idx| && idx[a] == i;
      }
    }
  }

  // ----- The round and the run, as the models determine them -----

  /** Each live request is advanced by its own draft and verification, its two calls counted; nobody else changes. */
  ghost predicate Advances(active: seq<Active>, after: seq<Active>, drafts: seq<seq<TokenId>>, steps: seq<seq<VerifyStep>>)
    requires |drafts| == |steps| == |Live(active)|
  {
    var idx := Live(active);
    && |after| == |active|
    && (forall k :: 0 <= k < |idx| ==> |drafts[k]| == |steps[k]| && after[idx[k]] == Advanced(CountCalls(active[idx[k]]), drafts[k], steps[k]))
    && (forall i: nat :: i < |active| && i !in idx ==> after[i] == active[i])
  }

  /** What a round returns: the draft call's error, else the verification call's, else that of the first request with a
      wrong number of steps, else every live request advanced. */
  ghost predicate StepAnswer(active: seq<Active>, window: nat, draft: DraftBatchFn, verify: VerifyBatchFn, call: nat,
                             r: Result<seq<Active>, SpecError>)
  {
    var idx := Live(active);
    match draft(call, DraftReqs(active, idx, window))
    case Err(e) => r == Err(e)
    case Ok(ps) =>
      |ps| == |idx| &&
      var drafts := AllTokens(ps);
      match verify(call, VerifyReqs(active, idx, drafts))
      case Err(e) => r == Err(e)
      case Ok(steps) =>
        |steps| == |idx| &&
        if forall k :: 0 <= k < |idx| ==> |drafts[k]| == |steps[k]| then r.Ok? && Advances(active, r.value, drafts, steps)
        else r.Err? && exists k: nat :: k < |idx| && FirstWrongLength(drafts, steps, k, r.error)
  }

  ghost predicate AnyLive(active: seq<Active>) {
    exists i :: 0 <= i < |active| && |active[i].generated| < active[i].maxNew
  }

  /** The batch before each round: as long as anybody owes tokens, a round is made with the next call number. */
  ghost predicate IsDecodeRun(requests: seq<Active>, window: nat, draft: DraftBatchFn, verify: VerifyBatchFn, states: seq<seq<Active>>) {
    && states != [] && states[0] == requests
    && forall i: nat :: i < |states| - 1 ==> RoundOfRun(window, draft, verify, states, i)
  }

  ghost predicate RoundOfRun(window: nat, draft: DraftBatchFn, verify: VerifyBatchFn, states: seq<seq<Active>>, i: nat)
    requires i + 1 < |states|
  {
    AnyLive(states[i]) && StepAnswer(states[i], window, draft, verify, i, Ok(states[i + 1]))
  }

  /** The run ends when nobody owes tokens, with the batch as it is, or with the error of the round that fails. */
  ghost predicate DecodeEnds(window: nat, draft: DraftBatchFn, verify: VerifyBatchFn, states: seq<seq<Active>>, r: Result<seq<Active>, SpecError>)
    requires states != []
  {
    var n := |states| - 1;
    if AnyLive(states[n]) then r.Err? && StepAnswer(states[n], window, draft, verify, n, r) else r == Ok(states[n])
  }

  /** What decoding the batch returns. */
  ghost predicate DecodeAnswer(requests: seq<Active>, window: nat, draft: DraftBatchFn, verify: VerifyBatchFn, r: Result<seq<Active>, SpecError>) {
    exists states: seq<seq<Active>> :: IsDecodeRun(requests, window, draft, verify, states) && DecodeEnds(window, draft, verify, states, r)
  }

  /** Models that always answer, with one verification step per drafted token. */
  ghost predicate CooperateBatch(draft: DraftBatchFn, verify: VerifyBatchFn) {
    && (forall call, reqs: seq<DraftReq> :: draft(call, reqs).Ok?)
    && (forall call, reqs: seq<VerifyReq> :: verify(call, reqs).Ok? && RightLengths(reqs, verify(call, reqs).value))
  }

  ghost predicate RightLengths(reqs: seq<VerifyReq>, steps: seq<seq<VerifyStep>>) {
    |steps| == |reqs| && forall i :: 0 <= i < |reqs| ==> |steps[i]| == |reqs[i].drafted|
  }

  lemma CooperationSteps(active: seq<Active>, window: nat, draft: DraftBatchFn, verify: VerifyBatchFn, call: nat, r: Result<seq<Active>, SpecError>)
    requires CooperateBatch(draft, verify) && StepAnswer(active, window, draft, verify, call, r)
    ensures r.Ok?
  {
    hide Live, Advances;
    var idx := Live(active);
    var ps := draft(call, DraftReqs(active, idx, window)).value;
    var reqs := VerifyReqs(active, idx, AllTokens(ps));
    assert RightLengths(reqs, verify(call, reqs).value);
  }

  lemma RunGoesOn(requests: seq<Active>, window: nat, draft: DraftBatchFn, verify: VerifyBatchFn, states: seq<seq<Active>>, next: seq<Active>)
    requires IsDecodeRun(requests, window, draft, verify, states) && AnyLive(states[|states| - 1])
    requires StepAnswer(states[|states| - 1], window, draft, verify, |states| - 1, Ok(next))
    ensures IsDecodeRun(requests, window, draft, verify, states + [next])
  {
    hide StepAnswer, AnyLive;
    var more := states + [next];
    forall i: nat | i < |more| - 1 ensures RoundOfRun(window, draft, verify, more, i) {
      assert i < |states| - 1 ==> RoundOfRun(window, draft, verify, states, i);
    }
  }

  /** One round of the batch. Whatever was drafted, every request stays on its own greedy track; if the
      draft model offers something, every live request makes progress; if it keeps to its limits, nobody
      gets more than asked for. */
  method Step(active: seq<Active>, window: nat, draft: DraftBatchFn, verify: VerifyBatchFn, call: nat, ghost T: Target)
      returns (r: Result<seq<Active>, SpecError>)
    requires AllOnTrack(T, active) && OnePerRequest(draft) && FaithfulBatch(T, verify)
    ensures StepAnswer(active, window, draft, verify, call, r)
    ensures r.Ok? ==> RoundKept(T, active, r.value)
    ensures r.Ok? && Bounded(draft) && AllWithin(active) ==> AllWithin(r.value)
    ensures r.Ok? && window > 0 && Productive(draft) ==>
      forall i :: 0 <= i < |active| && |active[i].generated| < active[i].maxNew ==> |r.value[i].generated| > |active[i].generated|
  {
    hide Follows, OnTrack, Verifies, FaithfulBatch, CommittedUpTo, Bounded, Productive, OnePerRequest, RoundKept, AllWithin, Live, Advances,
         FirstWrongLength, Advanced;
    var idx := LiveIndices(active);
    var reqs := DraftReqs(active, idx, window);
    var drafted := draft(call, reqs);
    if drafted.Err? {
      return Err(drafted.error);
    }
    DraftFacts(draft, call, reqs);
    var drafts := AllTokens(drafted.value);
    var asked := VerifyReqs(active, idx, drafts);
    var verified := verify(call, asked);
    if verified.Err? {
      return Err(verified.error);
    }
    VerifyFacts(T, verify, call, asked);
    var counted := RecordCalls(active, idx);
    CountedOnTrack(T, active, counted, idx);
    var committed := CommitAll(counted, idx, drafts, verified.value);
    if committed.Err? {
      return Err(committed.error);
    }
    AdvancesFrom(active, counted, committed.value, drafts, verified.value);
    if Bounded(draft) {
      DraftsWithin(active, counted, idx, window, drafts);
    }
    LiveAdvances(T, counted, committed.value, idx, drafts, verified.value);
    RoundDone(T, active, counted, committed.value, idx);
    r := committed;
  }

  /** What the round did to the counted requests it did to the requests. */
  lemma RoundDone(T: Target, active: seq<Active>, counted: seq<Active>, after: seq<Active>, idx: seq<nat>)
    requires RoundKept(T, counted, after) && |counted| == |active|
    requires forall i: nat :: i < |active| && |active[i].generated| >= active[i].maxNew ==> counted[i] == active[i]
    requires forall i :: 0 <= i < |active| ==>
      && counted[i].generated == active[i].generated && counted[i].maxNew == active[i].maxNew
      && counted[i].session.prompt == active[i].session.prompt
    ensures RoundKept(T, active, after) && (AllWithin(active) ==> AllWithin(counted))
  {
    hide OnTrack;
  }

  /** Drafts within what was requested are within what is left. */
  lemma DraftsWithin(active: seq<Active>, counted: seq<Active>, idx: seq<nat>, window: nat, drafts: seq<seq<TokenId>>)
    requires |drafts| == |idx| && |counted| == |active|
    requires forall a :: 0 <= a < |idx| ==> idx[a] < |active| && |active[idx[a]].generated| < active[idx[a]].maxNew
    requires forall i :: 0 <= i < |active| ==> counted[i].generated == active[i].generated && counted[i].maxNew == active[i].maxNew
    requires forall a :: 0 <= a < |idx| ==> |drafts[a]| <= DraftReqs(active, idx, window)[a].max
    ensures forall a :: 0 <= a < |idx| ==> |drafts[a]| <= counted[idx[a]].maxNew - |counted[idx[a]].generated|
  {}

  lemma AdvancesFrom(active: seq<Active>, counted: seq<Active>, after: seq<Active>, drafts: seq<seq<TokenId>>, steps: seq<seq<VerifyStep>>)
    requires |drafts| == |steps| == |Live(active)| && |counted| == |active|
    requires forall i: nat :: i < |active| ==> counted[i] == if i in Live(active) then CountCalls(active[i]) else active[i]
    requires CommittedUpTo(counted, after, Live(active), drafts, steps, |Live(active)|)
    ensures Advances(active, after, drafts, steps)
  {
    hide Live, Advanced, CountCalls;
    var idx := Live(active);
    assert idx[..|idx|] == idx;
    forall k | 0 <= k < |idx| ensures counted[idx[k]] == CountCalls(active[idx[k]]) {
      assert idx[k] in idx;
    }
  }

  /** What a round does to a live request, by the number of draft tokens the target agrees with. */
  lemma AdvancedCounts(a: Active, drafted: seq<TokenId>, steps: seq<VerifyStep>, n: nat)
    requires |drafted| == |steps| && AgreesUpTo(drafted, steps, n)
    ensures var t := Advanced(CountCalls(a), drafted, steps);
            var gained := drafted[..n] + if n < |drafted| then [steps[n].expected] else [];
            && t.generated == a.generated + gained && t.session.context == a.session.context + gained
            && t.maxNew == a.maxNew && t.session.prompt == a.session.prompt && t.session.rejected == None
            && t.session.stats == Stats(a.session.stats.draftCalls + 1, a.session.stats.targetCalls + 1, a.session.stats.drafted + |drafted|,
                                        a.session.stats.accepted + n, a.session.stats.rejected + (|drafted| - n))
  {
    CommittedCounts(CountCalls(a).session, drafted, steps, n);
    OneAgreement(drafted, steps, n, AcceptedLen(drafted, steps));
    var e := Emitted(drafted, steps);
    assert a.session.context + e == a.session.context + drafted[..n] + (if n < |drafted| then [steps[n].expected] else []);
  }

  lemma DraftFacts(draft: DraftBatchFn, call: nat, reqs: seq<DraftReq>)
    requires OnePerRequest(draft) && draft(call, reqs).Ok?
    ensures var ds := draft(call, reqs).value;
            && |ds| == |reqs|
            && (Bounded(draft) ==> forall i :: 0 <= i < |reqs| ==> |ds[i]| <= reqs[i].max)
            && (Productive(draft) ==> forall i :: 0 <= i < |reqs| && reqs[i].max > 0 ==> ds[i] != [])
  {}

  lemma VerifyFacts(T: Target, verify: VerifyBatchFn, call: nat, reqs: seq<VerifyReq>)
    requires FaithfulBatch(T, verify) && verify(call, reqs).Ok?
    ensures var vs := verify(call, reqs).value;
            |vs| == |reqs| && forall i :: 0 <= i < |reqs| ==> Verifies(T, reqs[i].ctx, reqs[i].drafted, vs[i])
  {
    hide Verifies;
  }

  /** Counting a call changes nothing else. */
  lemma CountedOnTrack(T: Target, active: seq<Active>, counted: seq<Active>, idx: seq<nat>)
    requires AllOnTrack(T, active) && |counted| == |active|
    requires forall i: nat :: i < |active| ==> counted[i] == if i in idx then CountCalls(active[i]) else active[i]
    ensures AllOnTrack(T, counted)
    ensures forall i :: 0 <= i < |active| ==>
      && counted[i].generated == active[i].generated && counted[i].maxNew == active[i].maxNew
      && counted[i].session.prompt == active[i].session.prompt && counted[i].session.context == active[i].session.context
  {
    hide Follows;
    forall i | 0 <= i < |active| ensures OnTrack(T, counted[i]) {
      assert OnTrack(T, active[i]);
    }
  }

  lemma NoRound(T: Target, requests: seq<Active>, window: nat, draft: DraftBatchFn, verify: VerifyBatchFn)
    requires AllOnTrack(T, requests)
    ensures IsDecodeRun(requests, window, draft, verify, [requests]) && RoundKept(T, requests, requests)
  {
    hide OnTrack;
  }

  /** One more round keeps what the rounds before it kept, and owes less if somebody who owed has gained. */
  lemma OneMoreRound(T: Target, requests: seq<Active>, before: seq<Active>, after: seq<Active>)
    requires RoundKept(T, requests, before) && RoundKept(T, before, after)
    ensures RoundKept(T, requests, after)
    ensures (exists i :: 0 <= i < |before| && |before[i].generated| < before[i].maxNew && |after[i].generated| > |before[i].generated|)
      ==> Owed(after) < Owed(before)
  {
    hide OnTrack, Owed;
    OwedDrops(before, after);
  }

  lemma KeptOnTrack(T: Target, requests: seq<Active>, active: seq<Active>)
    requires RoundKept(T, requests, active)
    ensures AllOnTrack(T, active)
  {
    hide OnTrack;
  }

  lemma KeptGreedy(T: Target, requests: seq<Active>, active: seq<Active>)
    requires RoundKept(T, requests, active)
    ensures |active| == |requests|
    ensures forall i :: 0 <= i < |requests| ==>
      && active[i].session.prompt == requests[i].session.prompt && active[i].maxNew == requests[i].maxNew
      && active[i].generated == Greedy(T, requests[i].session.prompt, |active[i].generated|)
    ensures AllWithin(active) ==> forall i :: 0 <= i < |active| ==> |active[i].generated| <= active[i].maxNew
  {
    hide Greedy, Follows;
    forall i | 0 <= i < |active|
      ensures active[i].generated == Greedy(T, requests[i].session.prompt, |active[i].generated|)
    {
      FollowsIsGreedy(T, active[i].session.prompt, active[i].generated);
    }
  }

  /** Batch generation equals independent decoding: every request ends with at least `maxNew` tokens of its own
      greedy continuation, whatever else is in the batch; exactly that many if the drafts keep to their limits. */
  method DecodeAll(requests: seq<Active>, window: nat, draft: DraftBatchFn, verify: VerifyBatchFn, ghost T: Target)
      returns (r: Result<seq<Active>, SpecError>)
    requires window > 0 && AllOnTrack(T, requests)
    requires OnePerRequest(draft) && Productive(draft) && FaithfulBatch(T, verify)
    ensures DecodeAnswer(requests, window, draft, verify, r)
    ensures CooperateBatch(draft, verify) ==> r.Ok?
    ensures r.Ok? ==> |r.value| == |requests| && forall i :: 0 <= i < |requests| ==>
      && r.value[i].session.prompt == requests[i].session.prompt
      && r.value[i].maxNew == requests[i].maxNew
      && |r.value[i].generated| >= requests[i].maxNew
      && r.value[i].generated == Greedy(T, requests[i].session.prompt, |r.value[i].generated|)
    ensures r.Ok? && Bounded(draft) && AllWithin(requests) ==>
      forall i :: 0 <= i < |requests| ==> |r.value[i].generated| == requests[i].maxNew
  {
    hide StepAnswer, CooperateBatch, Greedy, Follows, OnTrack, RoundKept, AllOnTrack, AllWithin, Bounded, Productive, OnePerRequest, FaithfulBatch,
         IsDecodeRun, Owed;
    NoRound(T, requests, window, draft, verify);
    var active := requests;
    var call := 0;
    ghost var states := [requests];
    while exists i :: 0 <= i < |active| && |active[i].generated| < active[i].maxNew
      invariant IsDecodeRun(requests, window, draft, verify, states) && states != [] && states[|states| - 1] == active && call == |states| - 1
      invariant RoundKept(T, requests, active)
      invariant Bounded(draft) && AllWithin(requests) ==> AllWithin(active)
      decreases Owed(active)
    {
      KeptOnTrack(T, requests, active);
      var stepped := Step(active, window, draft, verify, call, T);
      if CooperateBatch(draft, verify) {
        CooperationSteps(active, window, draft, verify, call, stepped);
      }
      if stepped.Err? {
        assert DecodeEnds(window, draft, verify, states, Err(stepped.error));
        return Err(stepped.error);
      }
      OneMoreRound(T, requests, active, stepped.value);
      RunGoesOn(requests, window, draft, verify, states, stepped.value);
      states := states + [stepped.value];
      active := stepped.value;
      call := call + 1;
    }
    KeptGreedy(T, requests, active);
    r := Ok(active);
    assert DecodeEnds(window, draft, verify, states, r);
  }

  // ----- The greedy models as a batch -----

  /** What `GreedyDraftModel::draft_batch` answers, up to which error is reported. */
  function GreedyDraftBatch(backend: LogitsFn): DraftBatchFn {
    (call: nat, reqs: seq<DraftReq>) =>
      if forall i :: 0 <= i < |reqs| ==> Chain(backend, reqs[i].ctx, reqs[i].max).Ok?
      then Ok(seq(|reqs|, i requires 0 <= i < |reqs| && Chain(backend, reqs[i].ctx, reqs[i].max).Ok? => Chain(backend, reqs[i].ctx, reqs[i].max).value))
      else Err(ModelError)
  }

  /** The default `verify_batch`: each request verified on its own. */
  function GreedyVerifyBatch(rows: VerifyLogitsFn): VerifyBatchFn {
    (call: nat, reqs: seq<VerifyReq>) =>
      if forall i :: 0 <= i < |reqs| ==> GreedyVerify(rows)(call, reqs[i].ctx, reqs[i].drafted).Ok?
      then Ok(seq(|reqs|, i requires 0 <= i < |reqs| && GreedyVerify(rows)(call, reqs[i].ctx, reqs[i].drafted).Ok?
                          => GreedyVerify(rows)(call, reqs[i].ctx, reqs[i].drafted).value))
      else Err(ModelError)
  }

  /** The greedy models meet everything batch decoding asks of its models. */
  lemma GreedyBatchModels(draftBackend: LogitsFn, backend: LogitsFn, rows: VerifyLogitsFn)
    requires Positional(backend, rows)
    ensures OnePerRequest(GreedyDraftBatch(draftBackend)) && Bounded(GreedyDraftBatch(draftBackend)) && Productive(GreedyDraftBatch(draftBackend))
    ensures FaithfulBatch(PickOf(backend), GreedyVerifyBatch(rows))
  {
    hide Chain, Positional, Verifies, PickOf;
    GreedyTargetFaithful(backend, rows);
    var T, verify := PickOf(backend), GreedyVerifyBatch(rows);
    forall call, reqs: seq<VerifyReq> | verify(call, reqs).Ok?
      ensures forall i :: 0 <= i < |reqs| ==> Verifies(T, reqs[i].ctx, reqs[i].drafted, verify(call, reqs).value[i])
    {
      forall i | 0 <= i < |reqs| ensures Verifies(T, reqs[i].ctx, reqs[i].drafted, verify(call, reqs).value[i]) {
        assert GreedyVerify(rows)(call, reqs[i].ctx, reqs[i].drafted).Ok?;
      }
    }
  }

  lemma {:induction false} ChainAnswers(backend: LogitsFn, ctx: seq<TokenId>, n: nat)
    requires forall c :: backend(c).Ok?
    ensures Chain(backend, ctx, n).Ok?
  {
    if n > 0 {
      ChainAnswers(backend, ctx, n - 1);
    }
  }

  /** Over backends that always answer, the greedy models always answer, with one verification step per drafted token. */
  lemma GreedyModelsCooperate(draftBackend: LogitsFn, backend: LogitsFn, rows: VerifyLogitsFn)
    requires Positional(backend, rows) && (forall c :: draftBackend(c).Ok?) && forall c, d :: rows(c, d).Ok?
    ensures CooperateBatch(GreedyDraftBatch(draftBackend), GreedyVerifyBatch(rows))
  {
    hide Chain, Positional, Faithful;
    var draft, verify := GreedyDraftBatch(draftBackend), GreedyVerifyBatch(rows);
    GreedyTargetFaithful(backend, rows);
    forall call, reqs: seq<DraftReq> ensures draft(call, reqs).Ok? {
      forall i | 0 <= i < |reqs| ensures Chain(draftBackend, reqs[i].ctx, reqs[i].max).Ok? {
        ChainAnswers(draftBackend, reqs[i].ctx, reqs[i].max);
      }
    }
    forall call, reqs: seq<VerifyReq> ensures verify(call, reqs).Ok? && RightLengths(reqs, verify(call, reqs).value) {
      forall i | 0 <= i < |reqs| ensures GreedyVerify(rows)(call, reqs[i].ctx, reqs[i].drafted).Ok? {
        assert rows(reqs[i].ctx, reqs[i].drafted).Ok?;
      }
    }
  }
}
