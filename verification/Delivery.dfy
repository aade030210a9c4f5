/** What one round of the worker gives each caller, in terms of its draft and the target's answers alone. */
module Delivery {
  import opened Common
  import opened Speculative
  import opened Backend
  import opened BatchDecoding
  import opened Scheduling

  /** What a round adds when the target agrees with the first `n` drafted tokens: these and, after a mismatch, its own. */
  ghost function Gained(drafted: seq<TokenId>, steps: seq<VerifyStep>, n: nat): seq<TokenId>
    requires n <= |drafted| == |steps|
  {
    drafted[..n] + if n < |drafted| then [steps[n].expected] else []
  }

  /** A round of request `i` whose caller hangs up after `cut` sends. The caller's stream grows by what the round adds, as far
      as the sends reach; the request is cancelled, and its caller gone, exactly when they do not reach to the end; the
      tokens sent are counted, and the correction even if its send fails. The session counts the whole draft and keeps
      the whole round. */
  ghost predicate Delivered(before: Sched, after: Sched, i: nat, drafted: seq<TokenId>, steps: seq<VerifyStep>, cut: nat, n: nat)
    requires |drafted| == |steps| && i < |before.active| == |after.active|
  {
    var r, r' := before.active[i], after.active[i];
    var id, was, now := r.req.id, r.session.stats, r'.session.stats;
    && AgreesUpTo(drafted, steps, n)
    && var gained := Gained(drafted, steps, n);
    && var reach := if id in before.closed then 0 else cut;
    && id in before.streams && id in after.streams
    && r'.req == r.req && r'.slot == r.slot
    && after.streams[id] == before.streams[id] + gained[..Min(reach, |gained|)]
    && (id in after.closed <==> id in before.closed || reach < |gained|)
    && (r'.cancelled <==> r.cancelled || reach < |gained|)
    && r'.count == r.count + (if r.cancelled || reach < n then Min(reach, n) else |gained|)
    && r'.session.context == r.session.context + gained
    && (!r'.cancelled ==> r'.session.rejected == None)
    && now == was.(drafted := was.drafted + |drafted|, accepted := was.accepted + n, rejected := was.rejected + (|drafted| - n))
  }

  ghost predicate SomeDelivered(before: Sched, after: Sched, i: nat, drafted: seq<TokenId>, steps: seq<VerifyStep>, cut: nat)
    requires |drafted| == |steps| && i < |before.active| == |after.active|
  {
    exists n: nat :: Delivered(before, after, i, drafted, steps, cut, n)
  }

  /** `id` is none of the first `n` requests on board. */
  ghost predicate NotAmong(active: seq<Running>, n: nat, id: nat)
    requires n <= |active|
  {
    forall i :: 0 <= i < n ==> active[i].req.id != id
  }

  /** The first `n` requests are served, each its own draft, and nothing else changes. */
  ghost predicate RoundServes(before: Sched, after: Sched, drafts: seq<seq<TokenId>>, steps: seq<seq<VerifyStep>>, cuts: seq<nat>, n: nat)
    requires n <= |before.active| == |drafts| == |steps| == |cuts|
  {
    && |after.active| == |before.active|
    && after == before.(active := after.active, streams := after.streams, closed := after.closed)
    && after.streams.Keys == before.streams.Keys
    && (forall i :: 0 <= i < n ==> |drafts[i]| == |steps[i]| && SomeDelivered(before, after, i, drafts[i], steps[i], cuts[i]))
    && (forall i :: n <= i < |before.active| ==> after.active[i] == before.active[i])
    && (forall id: nat :: NotAmong(before.active, n, id) ==>
          && (id in after.closed <==> id in before.closed)
          && (id in before.streams ==> after.streams[id] == before.streams[id]))
  }

  lemma ServeDelivers(r: Running, closed: bool, drafted: seq<TokenId>, steps: seq<VerifyStep>, cut: nat, n: nat)
    requires |drafted| == |steps| && (r.cancelled ==> closed) && n == AcceptedLen(drafted, steps)
    ensures var o, gained, reach := Serve(r, closed, drafted, steps, cut), Gained(drafted, steps, n), if closed then 0 else cut;
            var was, now := r.session.stats, o.r.session.stats;
            && AgreesUpTo(drafted, steps, n) && o.r.req == r.req && o.r.slot == r.slot
            && o.sent == gained[..Min(reach, |gained|)]
            && (o.closed <==> closed || reach < |gained|)
            && (o.r.cancelled <==> r.cancelled || reach < |gained|)
            && o.r.count == r.count + (if r.cancelled || reach < n then Min(reach, n) else |gained|)
            && o.r.session.context == r.session.context + gained
            && (!o.r.cancelled ==> o.r.session.rejected == None)
            && now == was.(drafted := was.drafted + |drafted|, accepted := was.accepted + n, rejected := was.rejected + (|drafted| - n))
  {
    CommittedCounts(r.session, drafted, steps, n);
    hide AcceptedLen;
    var gained, reach := Gained(drafted, steps, n), if closed then 0 else cut;
    assert Emitted(drafted, steps) == gained;
    if reach < n {
      assert gained[..reach] == drafted[..reach];
    }
  }

  lemma OneDelivered(s: Sched, i: nat, drafted: seq<TokenId>, steps: seq<VerifyStep>, cut: nat)
    requires i < |s.active| && |drafted| == |steps| && s.active[i].req.id in s.streams
    requires s.active[i].cancelled ==> s.active[i].req.id in s.closed
    ensures SomeDelivered(s, ServeAt(s, i, drafted, steps, cut), i, drafted, steps, cut)
  {
    var n := AcceptedLen(drafted, steps);
    ServeDelivers(s.active[i], s.active[i].req.id in s.closed, drafted, steps, cut, n);
    hide Serve, AgreesUpTo, Gained;
    assert Delivered(s, ServeAt(s, i, drafted, steps, cut), i, drafted, steps, cut, n);
  }

  lemma ServeAtElsewhere(s: Sched, i: nat, drafted: seq<TokenId>, steps: seq<VerifyStep>, cut: nat)
    requires i < |s.active| && |drafted| == |steps| && s.active[i].req.id in s.streams
    ensures var s', id := ServeAt(s, i, drafted, steps, cut), s.active[i].req.id;
            && |s'.active| == |s.active| && s' == s.(active := s'.active, streams := s'.streams, closed := s'.closed)
            && s'.streams.Keys == s.streams.Keys
            && (forall j :: 0 <= j < |s.active| && j != i ==> s'.active[j] == s.active[j])
            && (forall k: nat :: k != id ==> (k in s'.closed <==> k in s.closed) && (k in s.streams ==> s'.streams[k] == s.streams[k]))
  {
    hide Serve;
  }

  /** What was delivered to a request does not depend on the rest of the batch. */
  lemma DeliveredToo(before: Sched, after: Sched, before': Sched, after': Sched, i: nat, drafted: seq<TokenId>, steps: seq<VerifyStep>, cut: nat)
    requires |drafted| == |steps| && i < |before.active| == |after.active| == |before'.active| == |after'.active|
    requires SomeDelivered(before, after, i, drafted, steps, cut)
    requires before'.active[i] == before.active[i] && after'.active[i] == after.active[i]
    requires var id := before.active[i].req.id;
             && id in before.streams && id in before'.streams && before'.streams[id] == before.streams[id]
             && id in after.streams && id in after'.streams && after'.streams[id] == after.streams[id]
             && (id in before'.closed <==> id in before.closed) && (id in after'.closed <==> id in after.closed)
    ensures SomeDelivered(before', after', i, drafted, steps, cut)
  {
    var n: nat :| Delivered(before, after, i, drafted, steps, cut, n);
    hide AgreesUpTo, Gained;
    assert Delivered(before', after', i, drafted, steps, cut, n);
  }

  /** One more request is served. */
  lemma ServesOneMore(s: Sched, mid: Sched, drafts: seq<seq<TokenId>>, steps: seq<seq<VerifyStep>>, cuts: seq<nat>, n: nat)
    requires n < |s.active| == |drafts| == |steps| == |cuts| && |drafts[n]| == |steps[n]|
    requires RoundServes(s, mid, drafts, steps, cuts, n)
    requires forall i :: 0 <= i < |s.active| ==>
      s.active[i].req.id in s.streams && (s.active[i].cancelled ==> s.active[i].req.id in s.closed)
    requires forall i, j :: 0 <= i < j < |s.active| ==> s.active[i].req.id != s.active[j].req.id
    ensures mid.active[n].req.id in mid.streams
    ensures RoundServes(s, ServeAt(mid, n, drafts[n], steps[n], cuts[n]), drafts, steps, cuts, n + 1)
  {
    hide SomeDelivered, ServeAt;
    var next, id := ServeAt(mid, n, drafts[n], steps[n], cuts[n]), s.active[n].req.id;
    assert NotAmong(s.active, n, id);
    OneDelivered(mid, n, drafts[n], steps[n], cuts[n]);
    ServeAtElsewhere(mid, n, drafts[n], steps[n], cuts[n]);
    DeliveredToo(mid, next, s, next, n, drafts[n], steps[n], cuts[n]);
    forall i | 0 <= i < n ensures |drafts[i]| == |steps[i]| && SomeDelivered(s, next, i, drafts[i], steps[i], cuts[i]) {
      assert s.active[i].req.id != id;
      StillServed(s, mid, i, drafts[i], steps[i], cuts[i]);
      DeliveredToo(s, mid, s, next, i, drafts[i], steps[i], cuts[i]);
    }
    forall k: nat | NotAmong(s.active, n + 1, k) ensures NotAmong(s.active, n, k) && k != id {}
  }

  lemma StillServed(before: Sched, after: Sched, i: nat, drafted: seq<TokenId>, steps: seq<VerifyStep>, cut: nat)
    requires |drafted| == |steps| && i < |before.active| == |after.active|
    requires SomeDelivered(before, after, i, drafted, steps, cut)
    ensures after.active[i].req == before.active[i].req && before.active[i].req.id in before.streams && before.active[i].req.id in after.streams
  {}

  // ----- What a step returns -----

  /** Tokens the request still owes. */
  function Left(r: Running): nat {
    SatSub(r.req.maxNew, r.count)
  }

  /** The draft model is asked for what each request has left, capped by the window. */
  function LimitsOf(active: seq<Running>, window: nat): (ds: seq<DraftReq>)
    ensures |ds| == |active|
    ensures forall i :: 0 <= i < |active| ==> ds[i] == DraftReq(active[i].session.context, Min(window, Left(active[i])))
  {
    seq(|active|, i requires 0 <= i < |active| => DraftReq(active[i].session.context, Min(window, Left(active[i]))))
  }

  /** And the target to verify each draft in its own request's context. */
  function VerifyAll(active: seq<Running>, drafts: seq<seq<TokenId>>): (vs: seq<VerifyReq>)
    requires |drafts| == |active|
    ensures |vs| == |active| && forall i :: 0 <= i < |active| ==> vs[i] == VerifyReq(active[i].session.context, drafts[i])
  {
    seq(|active|, i requires 0 <= i < |active| => VerifyReq(active[i].session.context, drafts[i]))
  }

  /** A step fails with the draft call's error, else the verification call's, and then serves nobody; else with that of the
      first request with a wrong number of steps, having served those before it; else it has served everybody. */
  ghost predicate StepReturns(before: Sched, after: Sched, window: nat, draft: DraftBatchFn, verify: VerifyBatchFn, call: nat,
                              cuts: seq<nat>, r: Result<(), SpecError>)
    requires |cuts| == |before.active|
  {
    match draft(call, LimitsOf(before.active, window))
    case Err(e) => r == Err(e) && after == before
    case Ok(ps) =>
      |ps| == |before.active| &&
      match verify(call, VerifyAll(before.active, AllTokens(ps)))
      case Err(e) => r == Err(e) && after == before
      case Ok(steps) => |steps| == |before.active| && CommitReturns(before, after, AllTokens(ps), steps, cuts, r)
  }

  ghost predicate CommitReturns(before: Sched, after: Sched, drafts: seq<seq<TokenId>>, steps: seq<seq<VerifyStep>>, cuts: seq<nat>,
                                r: Result<(), SpecError>)
    requires |before.active| == |drafts| == |steps| == |cuts|
  {
    if forall k :: 0 <= k < |drafts| ==> |drafts[k]| == |steps[k]|
    then r.Ok? && RoundServes(before, after, drafts, steps, cuts, |drafts|)
    else r.Err? && exists k: nat :: k < |drafts| && FirstWrongLength(drafts, steps, k, r.error) && RoundServes(before, after, drafts, steps, cuts, k)
  }

  lemma NobodyServed(s: Sched, drafts: seq<seq<TokenId>>, steps: seq<seq<VerifyStep>>, cuts: seq<nat>)
    requires |s.active| == |drafts| == |steps| == |cuts|
    ensures RoundServes(s, s, drafts, steps, cuts, 0)
  {}
}
