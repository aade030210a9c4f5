/** Draft-and-verify decoding: one session, its rounds, and the decoder's generation loop. */
module Speculative {
  import opened Common
  import opened GreedyDecoding

  datatype Prediction = Prediction(token: TokenId, confidence: real)
  datatype VerifyStep = VerifyStep(expected: TokenId)

  datatype Stats = Stats(draftCalls: nat, targetCalls: nat, drafted: nat, accepted: nat, rejected: nat)

  datatype SpecError =
    | EmptyDraftWindow
    | DraftReturnedTooMany(requested: nat, returned: nat)
    | TargetReturnedWrongLength(drafted: nat, returned: nat)
    | ModelError

  /** A draft model, as the answers it gives: call number, context and limit to predictions.
      The call number lets the answers depend on everything that happened before. */
  type DraftFn = (nat, seq<TokenId>, nat) -> Result<seq<Prediction>, SpecError>

  /** A target model's `verify`: call number, context and drafted tokens to expected tokens. */
  type VerifyFn = (nat, seq<TokenId>, seq<TokenId>) -> Result<seq<VerifyStep>, SpecError>

  /** `steps` says what the target `T` wants at every position of the draft. */
  ghost predicate Verifies(T: Target, ctx: seq<TokenId>, drafted: seq<TokenId>, steps: seq<VerifyStep>) {
    |steps| == |drafted| ==> forall i :: 0 <= i < |drafted| ==> steps[i].expected == T(ctx + drafted[..i])
  }

  /** The verification contract: whenever it answers, position `i` is judged in its own context. */
  ghost predicate Faithful(T: Target, verify: VerifyFn) {
    forall call, ctx, drafted ::
      verify(call, ctx, drafted).Ok? ==> Verifies(T, ctx, drafted, verify(call, ctx, drafted).value)
  }

  function Tokens(ps: seq<Prediction>): (r: seq<TokenId>)
    ensures |r| == |ps| && forall i :: 0 <= i < |ps| ==> r[i] == ps[i].token
  {
    seq(|ps|, i requires 0 <= i < |ps| => ps[i].token)
  }

  /** Number of leading draft tokens the target agrees with. */
  function AcceptedLen(drafted: seq<TokenId>, steps: seq<VerifyStep>): (n: nat)
    requires |drafted| == |steps|
    ensures n <= |drafted|
    ensures forall i :: 0 <= i < n ==> drafted[i] == steps[i].expected
    ensures n < |drafted| ==> drafted[n] != steps[n].expected
  {
    if drafted == [] || drafted[0] != steps[0].expected then 0
    else 1 + AcceptedLen(drafted[1..], steps[1..])
  }

  /** What a round adds to the context: the accepted draft and, on a mismatch, the target's token. */
  function Emitted(drafted: seq<TokenId>, steps: seq<VerifyStep>): seq<TokenId>
    requires |drafted| == |steps|
  {
    var n := AcceptedLen(drafted, steps);
    drafted[..n] + if n < |drafted| then [steps[n].expected] else []
  }

  /** Losslessness of one round: whatever was drafted, the context grows by the target's own tokens,
      by at least one and at most as many as were drafted. */
  lemma RoundFollows(T: Target, ctx: seq<TokenId>, drafted: seq<TokenId>, steps: seq<VerifyStep>)
    requires |drafted| == |steps| && Verifies(T, ctx, drafted, steps)
    ensures Follows(T, ctx, Emitted(drafted, steps))
    ensures |Emitted(drafted, steps)| <= |drafted|
    ensures drafted != [] ==> Emitted(drafted, steps) != []
  {
    var e, n := Emitted(drafted, steps), AcceptedLen(drafted, steps);
    forall i | 0 <= i < |e| ensures e[i] == T(ctx + e[..i]) {
      assert e[..i] == drafted[..i];
    }
  }

  /** A round emits more than `limit` tokens exactly when the draft is longer than that and its first `limit` tokens
      are the target's own. */
  lemma EmitsBeyondIff(T: Target, ctx: seq<TokenId>, drafted: seq<TokenId>, steps: seq<VerifyStep>, limit: nat)
    requires |drafted| == |steps| && Verifies(T, ctx, drafted, steps)
    ensures |Emitted(drafted, steps)| > limit <==> |drafted| > limit && Follows(T, ctx, drafted[..limit])
  {
    var n := AcceptedLen(drafted, steps);
    if |drafted| > limit {
      var d := drafted[..limit];
      assert forall i :: 0 <= i < limit ==> d[i] == drafted[i] && d[..i] == drafted[..i];
      if n < limit {
        assert d[n] != T(ctx + d[..n]);
      }
    }
  }

  /** A session's fields. */
  datatype Session = Session(
    draftWindow: nat, maxWindow: nat, prompt: seq<TokenId>, context: seq<TokenId>,
    stats: Stats, rejected: Option<TokenId>)

  function Begin(draftWindow: nat, maxWindow: nat, prompt: seq<TokenId>): Session {
    Session(draftWindow, maxWindow, prompt, prompt, Stats(0, 0, 0, 0, 0), None)
  }

  /** Grow the window after a clean sweep, shrink it to just past the accepted prefix otherwise. */
  function Adjusted(window: nat, maxWindow: nat, accepted: nat, drafted: nat): nat {
    if accepted == drafted then if window < maxWindow then window + 1 else window
    else accepted + 1
  }

  /** The session after a successful round. */
  function Committed(s: Session, drafted: seq<TokenId>, steps: seq<VerifyStep>): Session
    requires |drafted| == |steps|
  {
    var n := AcceptedLen(drafted, steps);
    s.(context := s.context + Emitted(drafted, steps),
       rejected := if n < |drafted| then Some(steps[n].expected) else None,
       stats := s.stats.(drafted := s.stats.drafted + |drafted|,
                         accepted := s.stats.accepted + n,
                         rejected := s.stats.rejected + |drafted| - n),
       draftWindow := Adjusted(s.draftWindow, s.maxWindow, n, |drafted|))
  }

  /** The round's outcome for its caller: the accepted draft prefix and the pending correction are
      exactly what the context gained. */
  lemma CommittedSplits(s: Session, drafted: seq<TokenId>, steps: seq<VerifyStep>)
    requires |drafted| == |steps|
    ensures var s' := Committed(s, drafted, steps);
            s'.context == s.context + drafted[..AcceptedLen(drafted, steps)]
              + if s'.rejected.Some? then [s'.rejected.value] else []
  {
    var n := AcceptedLen(drafted, steps);
    assert s.context + (drafted[..n] + []) == s.context + drafted[..n] + [];
  }

  /** `n` draft tokens agree with the target, and the next one, if any, does not. */
  ghost predicate AgreesUpTo(drafted: seq<TokenId>, steps: seq<VerifyStep>, n: nat)
    requires |drafted| == |steps|
  {
    && n <= |drafted| && (forall i :: 0 <= i < n ==> drafted[i] == steps[i].expected)
    && (n < |drafted| ==> drafted[n] != steps[n].expected)
  }

  lemma OneAgreement(drafted: seq<TokenId>, steps: seq<VerifyStep>, n: nat, k: nat)
    requires |drafted| == |steps| && AgreesUpTo(drafted, steps, n) && AgreesUpTo(drafted, steps, k)
    ensures n == k
  {}

  /** What a round does to the counters and the window, by the number of draft tokens the target agrees with: these are
      accepted, the others rejected, and the window grows by one after a clean sweep and otherwise shrinks to one past
      what was accepted. */
  lemma CommittedCounts(s: Session, drafted: seq<TokenId>, steps: seq<VerifyStep>, n: nat)
    requires |drafted| == |steps| && AgreesUpTo(drafted, steps, n)
    ensures var t := Committed(s, drafted, steps);
            && t.stats.drafted == s.stats.drafted + |drafted|
            && t.stats.accepted == s.stats.accepted + n
            && t.stats.rejected == s.stats.rejected + (|drafted| - n)
            && t.stats.draftCalls == s.stats.draftCalls && t.stats.targetCalls == s.stats.targetCalls
            && t.draftWindow == (if n < |drafted| then n + 1 else if s.draftWindow < s.maxWindow then s.draftWindow + 1 else s.draftWindow)
            && t.context == s.context + drafted[..n] + (if n < |drafted| then [steps[n].expected] else [])
            && t.rejected == (if n < |drafted| then Some(steps[n].expected) else None)
  {
    OneAgreement(drafted, steps, n, AcceptedLen(drafted, steps));
    CommittedSplits(s, drafted, steps);
  }

  /** A round's inputs. */
  datatype Round = Round(drafted: seq<TokenId>, steps: seq<VerifyStep>)

  ghost predicate Successful(r: Round) {
    |r.drafted| == |r.steps|
  }

  ghost function AfterRounds(s: Session, rs: seq<Round>): Session
    requires forall i :: 0 <= i < |rs| ==> Successful(rs[i])
  {
    if rs == [] then s
    else
      assert Successful(rs[|rs| - 1]);
      Committed(AfterRounds(s, rs[..|rs| - 1]), rs[|rs| - 1].drafted, rs[|rs| - 1].steps)
  }

  ghost function AllEmitted(rs: seq<Round>): seq<TokenId>
    requires forall i :: 0 <= i < |rs| ==> Successful(rs[i])
  {
    if rs == [] then []
    else
      assert Successful(rs[|rs| - 1]);
      AllEmitted(rs[..|rs| - 1]) + Emitted(rs[|rs| - 1].drafted, rs[|rs| - 1].steps)
  }

  /** Over any run of successful rounds the context is the prompt plus everything emitted, every
      drafted token is either accepted or rejected, and the window stays within its bounds when no
      round drafts more than the maximum. */
  lemma {:induction false} SessionInvariant(window: nat, maxWindow: nat, prompt: seq<TokenId>, rs: seq<Round>)
    requires 1 <= window <= maxWindow
    requires forall i :: 0 <= i < |rs| ==> Successful(rs[i])
    ensures var s := AfterRounds(Begin(window, maxWindow, prompt), rs);
            && s.prompt == prompt
            && s.context == prompt + AllEmitted(rs)
            && s.stats.drafted == s.stats.accepted + s.stats.rejected
            && s.maxWindow == maxWindow
            && 1 <= s.draftWindow
            && ((forall i :: 0 <= i < |rs| ==> |rs[i].drafted| <= maxWindow) ==> s.draftWindow <= maxWindow)
            && (rs == [] ==> s == Session(window, maxWindow, prompt, prompt, Stats(0, 0, 0, 0, 0), None))
  {
    if rs != [] {
      var n := |rs| - 1;
      SessionInvariant(window, maxWindow, prompt, rs[..n]);
      var s := AfterRounds(Begin(window, maxWindow, prompt), rs[..n]);
      var e := Emitted(rs[n].drafted, rs[n].steps);
      assert s.context + e == prompt + (AllEmitted(rs[..n]) + e);
    }
  }

  /** The first position where draft and target disagree, found left to right. */
  method Compare(drafted: seq<TokenId>, steps: seq<VerifyStep>) returns (accepted: nat, rejected: Option<TokenId>)
    requires |drafted| == |steps|
    ensures accepted == AcceptedLen(drafted, steps)
    ensures rejected == if accepted < |drafted| then Some(steps[accepted].expected) else None
  {
    accepted, rejected := 0, None;
    for index := 0 to |drafted|
      invariant accepted == index && rejected == None
      invariant AcceptedLen(drafted, steps) == index + AcceptedLen(drafted[index..], steps[index..])
    {
      assert drafted[index..][0] == drafted[index] && steps[index..][0] == steps[index];
      assert drafted[index..][1..] == drafted[index + 1..] && steps[index..][1..] == steps[index + 1..];
      if drafted[index] != steps[index].expected {
        rejected := Some(steps[index].expected);
        return;
      }
      accepted := accepted + 1;
    }
  }

  class SpeculativeSession {
    var draftWindow: nat
    const maxWindow: nat
    const prompt: seq<TokenId>
    var context: seq<TokenId>
    var stats: Stats
    var rejectedToken: Option<TokenId>

    constructor (draftWindow: nat, maxWindow: nat, prompt: seq<TokenId>)
      ensures State() == Begin(draftWindow, maxWindow, prompt)
    {
      this.draftWindow := draftWindow;
      this.maxWindow := maxWindow;
      this.prompt := prompt;
      context := prompt;
      stats := Stats(0, 0, 0, 0, 0);
      rejectedToken := None;
    }

    ghost function State(): Session
      reads this
    {
      Session(draftWindow, maxWindow, prompt, context, stats, rejectedToken)
    }

    /** Fold one verified draft into the session. */
    method Commit(drafted: seq<Prediction>, steps: seq<VerifyStep>) returns (r: Result<seq<TokenId>, SpecError>)
      modifies this
      ensures |steps| != |drafted| ==>
        r == Err(TargetReturnedWrongLength(|drafted|, |steps|)) && State() == old(State())
      ensures |steps| == |drafted| ==>
        && r == Ok(Tokens(drafted)[..AcceptedLen(Tokens(drafted), steps)])
        && State() == Committed(old(State()), Tokens(drafted), steps)
    {
      if |steps| != |drafted| {
        return Err(TargetReturnedWrongLength(|drafted|, |steps|));
      }
      var tokens := Tokens(drafted);
      stats := stats.(drafted := stats.drafted + |drafted|);
      var accepted := Fold(tokens, steps);
      r := Ok(accepted);
    }

    /** The common tail of `draft` and `commit`: extend the context, set the pending correction,
        count, and adjust the window. */
    method Fold(tokens: seq<TokenId>, steps: seq<VerifyStep>) returns (accepted: seq<TokenId>)
      requires |steps| == |tokens| <= stats.drafted
      modifies this
      ensures accepted == tokens[..AcceptedLen(tokens, steps)]
      ensures var before := old(State()).(stats := old(stats).(drafted := old(stats).drafted - |tokens|));
              State() == Committed(before, tokens, steps)
    {
      ghost var s := State().(stats := stats.(drafted := stats.drafted - |tokens|));
      var n, rejected := Compare(tokens, steps);
      CommittedSplits(s, tokens, steps);
      accepted := tokens[..n];
      context := context + accepted;
      stats := stats.(accepted := stats.accepted + n);
      if rejected.Some? {
        context := context + [rejected.value];
        rejectedToken := Some(rejected.value);
        stats := stats.(rejected := stats.rejected + (|tokens| - n));
      } else {
        rejectedToken := None;
      }
      if n == |tokens| {
        if draftWindow < maxWindow {
          draftWindow := draftWindow + 1;
        }
      } else {
        draftWindow := n + 1;
      }
    }

    method TakeRejectedToken() returns (r: Option<TokenId>)
      modifies this
      ensures r == old(rejectedToken) && State() == old(State()).(rejected := None)
    {
      r := rejectedToken;
      rejectedToken := None;
    }

    /** One round: draft within the window, verify, fold. The session's context grows by tokens
        the target itself would have produced, whatever the draft model said. */
    method Draft(draft: DraftFn, verify: VerifyFn, call: nat, maxNew: nat, ghost T: Target)
        returns (r: Result<seq<TokenId>, SpecError>)
      requires Faithful(T, verify)
      modifies this
      ensures match RoundError(draft(call, old(context), Min(maxNew, old(draftWindow))), Min(maxNew, old(draftWindow)), verify, call, old(context))
              case None => r.Ok?
              case Some(e) => r == Err(e)
      ensures r.Err? ==>
        State() == old(State()).(stats := FailedStats(old(stats), draft(call, old(context), Min(maxNew, old(draftWindow))),
                                                      Min(maxNew, old(draftWindow)), verify, call, old(context)))
      ensures r.Ok? ==>
        && draft(call, old(context), Min(maxNew, old(draftWindow))).Ok?
        && Progress(T, old(context), context, r.value, rejectedToken, old(rejectedToken),
                    draft(call, old(context), Min(maxNew, old(draftWindow))).value, Min(maxNew, old(draftWindow)))
      ensures r.Ok? ==>
        var ps := draft(call, old(context), Min(maxNew, old(draftWindow))).value;
        var counted := old(stats).(draftCalls := old(stats).draftCalls + 1);
        if ps == [] then State() == old(State()).(stats := counted)
        else
          var steps := verify(call, old(context), Tokens(ps));
          && steps.Ok? && |steps.value| == |ps|
          && State() == Committed(old(State()).(stats := counted.(targetCalls := counted.targetCalls + 1)), Tokens(ps), steps.value)
      ensures old(1 <= draftWindow <= maxWindow) ==> 1 <= draftWindow <= maxWindow
    {
      var requested := Min(maxNew, draftWindow);
      var predictions := draft(call, context, requested);
      if predictions.Err? {
        return Err(predictions.error);
      }
      stats := stats.(draftCalls := stats.draftCalls + 1);
      if |predictions.value| > requested {
        return Err(DraftReturnedTooMany(requested, |predictions.value|));
      }
      if predictions.value == [] {
        return Ok([]);
      }
      var drafted := Tokens(predictions.value);
      stats := stats.(drafted := stats.drafted + |drafted|);
      var verified := verify(call, context, drafted);
      if verified.Err? {
        return Err(verified.error);
      }
      stats := stats.(targetCalls := stats.targetCalls + 1);
      if |verified.value| != |drafted| {
        return Err(TargetReturnedWrongLength(|drafted|, |verified.value|));
      }
      RoundFollows(T, context, drafted, verified.value);
      CommittedSplits(State(), drafted, verified.value);
      assert Verifies(T, context, drafted, verified.value);
      var accepted := Fold(drafted, verified.value);
      r := Ok(accepted);
    }
  }

  /** What goes wrong with a round, if anything: the draft fails or is too long, or a non-empty draft's verification fails
      or has the wrong number of steps. */
  function RoundError(predictions: Result<seq<Prediction>, SpecError>, limit: nat, verify: VerifyFn, call: nat, ctx: seq<TokenId>): Option<SpecError> {
    match predictions
    case Err(e) => Some(e)
    case Ok(ps) =>
      if |ps| > limit then Some(DraftReturnedTooMany(limit, |ps|))
      else if ps == [] then None
      else match verify(call, ctx, Tokens(ps))
        case Err(e) => Some(e)
        case Ok(steps) => if |steps| != |ps| then Some(TargetReturnedWrongLength(|ps|, |steps|)) else None
  }

  /** The counters of a round that ends in an error: each is raised before the step that fails. */
  function FailedStats(s: Stats, predictions: Result<seq<Prediction>, SpecError>, limit: nat, verify: VerifyFn, call: nat, ctx: seq<TokenId>): Stats {
    if predictions.Err? then s
    else
      var called := s.(draftCalls := s.draftCalls + 1);
      if |predictions.value| > limit then called
      else
        var drafted := called.(drafted := called.drafted + |predictions.value|);
        if verify(call, ctx, Tokens(predictions.value)).Err? then drafted
        else drafted.(targetCalls := drafted.targetCalls + 1)
  }

  function Min(a: nat, b: nat): nat {
    if a <= b then a else b
  }

  /** What a successful round did: nothing on an empty draft; otherwise the context grew by target
      tokens, at least one and at most the limit, which are the returned ones plus the pending one. */
  ghost predicate Progress(T: Target, before: seq<TokenId>, after: seq<TokenId>, returned: seq<TokenId>,
                           pending: Option<TokenId>, pendingBefore: Option<TokenId>,
                           predictions: seq<Prediction>, limit: nat)
  {
    var emitted := returned + if pending.Some? then [pending.value] else [];
    if predictions == [] then returned == [] && after == before && pending == pendingBefore
    else
      && after == before + emitted
      && Follows(T, before, emitted)
      && 1 <= |emitted| <= |predictions| <= limit
  }

  datatype Decoder = Decoder(draftWindow: nat, maxWindow: nat)

  /** `SpeculativeDecoder::new` refuses an empty window and lets the window double. */
  function NewDecoder(draftWindow: nat): (r: Result<Decoder, SpecError>)
    ensures r.Ok? <==> draftWindow > 0
    ensures r.Ok? ==> r.value.draftWindow == draftWindow && r.value.maxWindow == 2 * draftWindow
    ensures r.Ok? ==> 1 <= r.value.draftWindow <= r.value.maxWindow
  {
    if draftWindow == 0 then Err(EmptyDraftWindow) else Ok(Decoder(draftWindow, draftWindow * 2))
  }

  datatype Output = Output(tokens: seq<TokenId>, stats: Stats)

  /** The draft model offers something whenever it is asked for something. */
  ghost predicate NeverEmpty(draft: DraftFn) {
    forall call, ctx, limit: nat :: limit > 0 && draft(call, ctx, limit).Ok? ==> draft(call, ctx, limit).value != []
  }

  // ----- The run behind a generation -----

  /** Everything the models are asked at call `c`: the session's window and what is left set the limit. */
  ghost function LimitAt(s: Session, left: nat): nat {
    Min(left, s.draftWindow)
  }

  /** The session after rounds `rs`, each correction taken. */
  ghost function SessionAfter(d: Decoder, prompt: seq<TokenId>, rs: seq<Round>): Session
    requires forall i :: 0 <= i < |rs| ==> Successful(rs[i])
  {
    AfterRounds(Begin(d.draftWindow, d.maxWindow, prompt), rs)
  }

  /** Round `i` is what the models answered at call number `i`: a non-empty draft within its limit, in the context of the
      prompt and everything emitted before, and one verification step per drafted token. */
  ghost predicate RoundAt(d: Decoder, draft: DraftFn, verify: VerifyFn, prompt: seq<TokenId>, maxNew: nat, rs: seq<Round>, i: nat)
    requires i < |rs| && forall i :: 0 <= i < |rs| ==> Successful(rs[i])
  {
    var before := rs[..i];
    var ctx, left := prompt + AllEmitted(before), maxNew - |AllEmitted(before)|;
    && left > 0
    && var limit := LimitAt(SessionAfter(d, prompt, before), left);
       var ps := draft(i, ctx, limit);
       && ps.Ok? && 0 < |ps.value| <= limit && rs[i].drafted == Tokens(ps.value)
       && verify(i, ctx, rs[i].drafted) == Ok(rs[i].steps)
  }

  ghost predicate IsRunOf(d: Decoder, draft: DraftFn, verify: VerifyFn, prompt: seq<TokenId>, maxNew: nat, rs: seq<Round>) {
    && (forall i :: 0 <= i < |rs| ==> Successful(rs[i]))
    && (forall i: nat :: i < |rs| ==> RoundAt(d, draft, verify, prompt, maxNew, rs, i))
  }

  /** What the generation returns after rounds `rs`: everything emitted if that is enough or the next draft is empty; the
      error of the next call that fails, drafts too much, or verifies the wrong number of tokens; nothing else ends it. */
  ghost predicate EndsWith(d: Decoder, draft: DraftFn, verify: VerifyFn, prompt: seq<TokenId>, maxNew: nat, rs: seq<Round>,
                           r: Result<Output, SpecError>)
    requires forall i :: 0 <= i < |rs| ==> Successful(rs[i])
  {
    var n, emitted, s := |rs|, AllEmitted(rs), SessionAfter(d, prompt, rs);
    if |emitted| >= maxNew then r == Ok(Output(emitted, s.stats.(draftCalls := n, targetCalls := n)))
    else
      var limit := LimitAt(s, maxNew - |emitted|);
      match draft(n, prompt + emitted, limit)
      case Err(e) => r == Err(e)
      case Ok(ps) =>
        if |ps| > limit then r == Err(DraftReturnedTooMany(limit, |ps|))
        else if ps == [] then r == Ok(Output(emitted, s.stats.(draftCalls := n + 1, targetCalls := n)))
        else match verify(n, prompt + emitted, Tokens(ps))
          case Err(e) => r == Err(e)
          case Ok(steps) => |steps| != |ps| && r == Err(TargetReturnedWrongLength(|ps|, |steps|))
  }

  /** Models that always answer, draft within the limit, and verify every token. */
  ghost predicate Cooperate(draft: DraftFn, verify: VerifyFn) {
    && (forall call, ctx, limit: nat :: draft(call, ctx, limit).Ok? && |draft(call, ctx, limit).value| <= limit)
    && (forall call, ctx, drafted :: verify(call, ctx, drafted).Ok? && |verify(call, ctx, drafted).value| == |drafted|)
  }

  lemma CooperationSucceeds(d: Decoder, draft: DraftFn, verify: VerifyFn, prompt: seq<TokenId>, maxNew: nat, rs: seq<Round>,
                            r: Result<Output, SpecError>)
    requires Cooperate(draft, verify) && (forall i :: 0 <= i < |rs| ==> Successful(rs[i])) && EndsWith(d, draft, verify, prompt, maxNew, rs, r)
    ensures r.Ok?
  {}

  /** The models and the prompt determine the run. */
  lemma {:induction false} RunsAgree(d: Decoder, draft: DraftFn, verify: VerifyFn, prompt: seq<TokenId>, maxNew: nat,
                                     rs: seq<Round>, others: seq<Round>, n: nat)
    requires IsRunOf(d, draft, verify, prompt, maxNew, rs) && IsRunOf(d, draft, verify, prompt, maxNew, others)
    requires n <= |rs| && n <= |others|
    ensures rs[..n] == others[..n]
  {
    if n > 0 {
      RunsAgree(d, draft, verify, prompt, maxNew, rs, others, n - 1);
      assert RoundAt(d, draft, verify, prompt, maxNew, rs, n - 1) && RoundAt(d, draft, verify, prompt, maxNew, others, n - 1);
      assert rs[..n] == rs[..n - 1] + [rs[n - 1]] && others[..n] == others[..n - 1] + [others[n - 1]];
    }
  }

  lemma {:induction false} RoundsGrow(d: Decoder, prompt: seq<TokenId>, rs: seq<Round>, r: Round)
    requires (forall i :: 0 <= i < |rs| ==> Successful(rs[i])) && Successful(r)
    ensures forall i :: 0 <= i < |rs + [r]| ==> Successful((rs + [r])[i])
    ensures AllEmitted(rs + [r]) == AllEmitted(rs) + Emitted(r.drafted, r.steps)
    ensures SessionAfter(d, prompt, rs + [r]) == Committed(SessionAfter(d, prompt, rs), r.drafted, r.steps)
  {
    assert (rs + [r])[..|rs|] == rs;
  }

  lemma RunGrows(d: Decoder, draft: DraftFn, verify: VerifyFn, prompt: seq<TokenId>, maxNew: nat, rs: seq<Round>, r: Round)
    requires IsRunOf(d, draft, verify, prompt, maxNew, rs) && Successful(r)
    requires RoundAt(d, draft, verify, prompt, maxNew, rs + [r], |rs|)
    ensures IsRunOf(d, draft, verify, prompt, maxNew, rs + [r])
  {
    hide AllEmitted, SessionAfter;
    var rs' := rs + [r];
    forall i: nat | i < |rs'| ensures RoundAt(d, draft, verify, prompt, maxNew, rs', i) {
      if i < |rs| {
        assert RoundAt(d, draft, verify, prompt, maxNew, rs, i);
        assert rs'[..i] == rs[..i];
      }
    }
  }

  lemma EmptyRun(d: Decoder, draft: DraftFn, verify: VerifyFn, prompt: seq<TokenId>, maxNew: nat)
    ensures IsRunOf(d, draft, verify, prompt, maxNew, []) && AllEmitted([]) == []
    ensures SessionAfter(d, prompt, []) == Begin(d.draftWindow, d.maxWindow, prompt)
  {}

  /** The session tracks the run: only the calls are counted elsewhere and the pending correction has been taken. */
  ghost predicate Tracks(s: Session, d: Decoder, prompt: seq<TokenId>, rs: seq<Round>)
    requires forall i :: 0 <= i < |rs| ==> Successful(rs[i])
  {
    s == SessionAfter(d, prompt, rs).(rejected := None, stats := SessionAfter(d, prompt, rs).stats.(draftCalls := |rs|, targetCalls := |rs|))
  }

  /** One round of the code is one more round of the run. */
  lemma TracksNext(s: Session, s': Session, d: Decoder, draft: DraftFn, verify: VerifyFn, prompt: seq<TokenId>, maxNew: nat,
                   rs: seq<Round>, ps: seq<Prediction>, steps: seq<VerifyStep>)
    requires IsRunOf(d, draft, verify, prompt, maxNew, rs) && Tracks(s, d, prompt, rs) && s.context == prompt + AllEmitted(rs)
    requires |AllEmitted(rs)| < maxNew && draft(|rs|, s.context, Min(maxNew - |AllEmitted(rs)|, s.draftWindow)) == Ok(ps)
    requires 0 < |ps| <= Min(maxNew - |AllEmitted(rs)|, s.draftWindow) && |steps| == |ps| && verify(|rs|, s.context, Tokens(ps)) == Ok(steps)
    requires s' == Committed(s.(stats := s.stats.(draftCalls := s.stats.draftCalls + 1, targetCalls := s.stats.targetCalls + 1)), Tokens(ps), steps).(rejected := None)
    ensures var rs' := rs + [Round(Tokens(ps), steps)];
            IsRunOf(d, draft, verify, prompt, maxNew, rs') && Tracks(s', d, prompt, rs') && AllEmitted(rs') == AllEmitted(rs) + Emitted(Tokens(ps), steps)
  {
    hide AllEmitted, AfterRounds, Emitted, AcceptedLen;
    var r := Round(Tokens(ps), steps);
    RoundsGrow(d, prompt, rs, r);
    assert (rs + [r])[..|rs|] == rs;
    assert RoundAt(d, draft, verify, prompt, maxNew, rs + [r], |rs|);
    RunGrows(d, draft, verify, prompt, maxNew, rs, r);
  }

  /** The code's state after the rounds of a run. */
  ghost predicate RunSoFar(d: Decoder, draft: DraftFn, verify: VerifyFn, prompt: seq<TokenId>, maxNew: nat, rs: seq<Round>,
                           s: Session, generated: seq<TokenId>)
  {
    && IsRunOf(d, draft, verify, prompt, maxNew, rs) && Tracks(s, d, prompt, rs)
    && AllEmitted(rs) == generated && s.context == prompt + generated
  }

  lemma StartRun(d: Decoder, draft: DraftFn, verify: VerifyFn, prompt: seq<TokenId>, maxNew: nat)
    ensures RunSoFar(d, draft, verify, prompt, maxNew, [], Begin(d.draftWindow, d.maxWindow, prompt), [])
  {
    EmptyRun(d, draft, verify, prompt, maxNew);
    assert prompt + [] == prompt;
  }

  /** How the code's outcome at its next call is the run's. */
  lemma RunEnds(d: Decoder, draft: DraftFn, verify: VerifyFn, prompt: seq<TokenId>, maxNew: nat, rs: seq<Round>,
                s: Session, generated: seq<TokenId>)
    requires RunSoFar(d, draft, verify, prompt, maxNew, rs, s, generated)
    ensures IsRunOf(d, draft, verify, prompt, maxNew, rs)
    ensures |generated| >= maxNew ==> EndsWith(d, draft, verify, prompt, maxNew, rs, Ok(Output(generated, s.stats)))
    ensures |generated| < maxNew ==>
      var limit := Min(maxNew - |generated|, s.draftWindow);
      var answer := draft(|rs|, s.context, limit);
      match RoundError(answer, limit, verify, |rs|, s.context)
      case Some(e) => EndsWith(d, draft, verify, prompt, maxNew, rs, Err(e))
      case None => answer.value == [] ==>
        EndsWith(d, draft, verify, prompt, maxNew, rs, Ok(Output(generated, s.stats.(draftCalls := s.stats.draftCalls + 1))))
  {
    hide AllEmitted, AfterRounds, RoundAt;
  }

  /** Losslessness: for every draft model, the output is exactly what the target alone would emit. It is everything emitted
      by the run the models determine, which ends only at the limit, at an empty draft or at an error of a call. */
  method Generate(decoder: Decoder, draft: DraftFn, verify: VerifyFn, prompt: seq<TokenId>, maxNew: nat,
                  ghost T: Target)
      returns (r: Result<Output, SpecError>)
    requires 1 <= decoder.draftWindow <= decoder.maxWindow
    requires Faithful(T, verify)
    ensures exists rs: seq<Round> ::
      IsRunOf(decoder, draft, verify, prompt, maxNew, rs) && EndsWith(decoder, draft, verify, prompt, maxNew, rs, r)
    ensures Cooperate(draft, verify) ==> r.Ok?
    ensures r.Ok? ==> |r.value.tokens| <= maxNew && r.value.tokens == Greedy(T, prompt, |r.value.tokens|)
    ensures r.Ok? && NeverEmpty(draft) ==> |r.value.tokens| == maxNew
    ensures r.Ok? ==> r.value.stats.drafted == r.value.stats.accepted + r.value.stats.rejected
  {
    hide Follows, Greedy, Emitted, AcceptedLen, Verifies, Faithful, IsRunOf, AllEmitted, AfterRounds, Cooperate, EndsWith, RunSoFar, RoundError;
    var session := new SpeculativeSession(decoder.draftWindow, decoder.maxWindow, prompt);
    var generated := [];
    ghost var rs: seq<Round> := [];
    ghost var ended := false;
    FollowsNothing(T, prompt);
    StartRun(decoder, draft, verify, prompt, maxNew);
    var call := 0;
    while |generated| < maxNew
      invariant fresh(session) && session.rejectedToken == None && call == |rs| && !ended
      invariant 1 <= session.draftWindow <= session.maxWindow
      invariant session.context == prompt + generated
      invariant Follows(T, prompt, generated) && |generated| <= maxNew
      invariant session.stats.drafted == session.stats.accepted + session.stats.rejected
      invariant RunSoFar(decoder, draft, verify, prompt, maxNew, rs, session.State(), generated)
      decreases maxNew - |generated|
    {
      var remaining := maxNew - |generated|;
      ghost var s0 := session.State();
      RunEnds(decoder, draft, verify, prompt, maxNew, rs, s0, generated);
      var drafted := session.Draft(draft, verify, call, remaining, T);
      call := call + 1;
      if drafted.Err? {
        Concluded(decoder, draft, verify, prompt, maxNew, rs, Err(drafted.error));
        return Err(drafted.error);
      }
      if drafted.value == [] && session.rejectedToken == None {
        ended := true;
        break;
      }
      ghost var before := generated;
      ghost var emitted := drafted.value + if session.rejectedToken.Some? then [session.rejectedToken.value] else [];
      generated := generated + drafted.value;
      if session.rejectedToken.Some? {
        var token := session.TakeRejectedToken();
        generated := generated + [token.value];
      }
      assert generated == before + emitted;
      assert prompt + before + emitted == prompt + generated;
      FollowsAppend(T, prompt, before, emitted);
      rs := RunContinues(decoder, draft, verify, prompt, maxNew, rs, s0, session.State(), before, generated);
    }
    FollowsIsGreedy(T, prompt, generated);
    r := Ok(Output(generated, session.stats));
    if !ended {
      RunEnds(decoder, draft, verify, prompt, maxNew, rs, session.State(), generated);
    }
    Concluded(decoder, draft, verify, prompt, maxNew, rs, r);
  }

  lemma Concluded(d: Decoder, draft: DraftFn, verify: VerifyFn, prompt: seq<TokenId>, maxNew: nat, rs: seq<Round>, r: Result<Output, SpecError>)
    requires IsRunOf(d, draft, verify, prompt, maxNew, rs) && EndsWith(d, draft, verify, prompt, maxNew, rs, r)
    ensures Cooperate(draft, verify) ==> r.Ok?
  {
    hide AllEmitted, AfterRounds, RoundAt;
  }

  /** A round that emitted something continues the run. */
  lemma RunContinues(d: Decoder, draft: DraftFn, verify: VerifyFn, prompt: seq<TokenId>, maxNew: nat, rs: seq<Round>,
                     s: Session, s': Session, generated: seq<TokenId>, more: seq<TokenId>) returns (rs': seq<Round>)
    requires RunSoFar(d, draft, verify, prompt, maxNew, rs, s, generated) && |generated| < maxNew
    requires var limit := Min(maxNew - |generated|, s.draftWindow);
             var ps := draft(|rs|, s.context, limit);
             && ps.Ok? && 0 < |ps.value| <= limit
             && var steps := verify(|rs|, s.context, Tokens(ps.value));
                && steps.Ok? && |steps.value| == |ps.value|
                && s' == Committed(s.(stats := s.stats.(draftCalls := s.stats.draftCalls + 1, targetCalls := s.stats.targetCalls + 1)),
                                   Tokens(ps.value), steps.value).(rejected := None)
    requires s'.context == prompt + more && generated <= more
    ensures |rs'| == |rs| + 1 && RunSoFar(d, draft, verify, prompt, maxNew, rs', s', more)
  {
    hide AllEmitted, AfterRounds, Emitted, AcceptedLen, RoundAt;
    var ps := draft(|rs|, s.context, Min(maxNew - |generated|, s.draftWindow)).value;
    var steps := verify(|rs|, s.context, Tokens(ps)).value;
    TracksNext(s, s', d, draft, verify, prompt, maxNew, rs, ps, steps);
    rs' := rs + [Round(Tokens(ps), steps)];
    var e := Emitted(Tokens(ps), steps);
    assert prompt + more == prompt + generated + e;
    assert more == (prompt + more)[|prompt|..] == (prompt + generated + e)[|prompt|..] == generated + e;
  }
}
