/** Continuous batching: requests come, run, hang up and leave while the worker loop turns. */
module Scheduling {
  import opened Common
  import opened GreedyDecoding
  import opened Speculative

  /** A submitted request; `id` names its pair of channels. */
  datatype Req = Req(id: nat, prompt: seq<TokenId>, maxNew: nat)

  /** A request on board. */
  datatype Running = Running(req: Req, session: Session, slot: nat, count: nat, cancelled: bool)

  /** The worker's variables, the channels it writes to, and what it has lost:
      `streams` and `done` are the tokens and completions the callers have received, `closed` the
      callers that hung up, `lost` the slots taken by admissions that failed afterwards. */
  datatype Sched = Sched(
    pending: seq<Req>, active: seq<Running>, free: seq<nat>, capacity: nat, lost: seq<nat>,
    reqs: map<nat, Req>, streams: map<nat, seq<TokenId>>, done: set<nat>, closed: set<nat>)

  function Start(capacity: nat): Sched {
    Sched([], [], seq(capacity, i => i), capacity, [], map[], map[], {}, {})
  }

  // ----- One request in one round -----

  /** Number of tokens a caller who hangs up after `cut` sends receives out of `n`. */
  function Received(closed: bool, cut: nat, n: nat): nat {
    Min(if closed then 0 else cut, n)
  }

  datatype Served = Served(r: Running, sent: seq<TokenId>, closed: bool)

  /** Commit a verified draft and send what it yields: first the accepted tokens, stopping at the
      first send that fails; then, unless that happened, the correction, which is counted even if
      its send fails. */
  function Serve(r: Running, closed: bool, drafted: seq<TokenId>, steps: seq<VerifyStep>, cut: nat): Served
    requires |drafted| == |steps|
  {
    var s := Committed(r.session, drafted, steps);
    var accepted := AcceptedLen(drafted, steps);
    var k := Received(closed, cut, accepted);
    if r.cancelled || k < accepted then
      Served(r.(session := s, count := r.count + k, cancelled := true), drafted[..k], closed || k < accepted)
    else
      var e := Emitted(drafted, steps);
      var d := Received(closed, cut, |e|);
      Served(r.(session := s.(rejected := None), count := r.count + |e|, cancelled := d < |e|), e[..d], closed || d < |e|)
  }

  // ----- Steps of the worker and its environment -----

  ghost function Arrived(s: Sched, r: Req): Sched {
    s.(pending := s.pending + [r], reqs := s.reqs[r.id := r], streams := s.streams[r.id := []])
  }

  ghost function HungUp(s: Sched, id: nat): Sched {
    s.(closed := s.closed + {id})
  }

  /** Admit the oldest pending request. Without a free slot it is dropped; if prefill or binding fails
      it is dropped too, and the slot it had taken is not returned. */
  function Admit(s: Sched, ok: bool, draftWindow: nat, maxWindow: nat): Sched
    requires s.pending != []
  {
    var r, s' := s.pending[0], s.(pending := s.pending[1..]);
    if s.free == [] then s'
    else if !ok then s'.(free := s.free[1..], lost := s.lost + [s.free[0]])
    else s'.(free := s.free[1..],
             active := s.active + [Running(r, Begin(draftWindow, maxWindow, r.prompt), s.free[0], 0, false)])
  }

  /** Serve the active request at index `i`. */
  function ServeAt(s: Sched, i: nat, drafted: seq<TokenId>, steps: seq<VerifyStep>, cut: nat): Sched
    requires i < |s.active| && |drafted| == |steps| && s.active[i].req.id in s.streams
  {
    var id := s.active[i].req.id;
    var o := Serve(s.active[i], id in s.closed, drafted, steps, cut);
    s.(active := s.active[i := o.r],
       streams := s.streams[id := s.streams[id] + o.sent],
       closed := if o.closed then s.closed + {id} else s.closed)
  }

  ghost predicate IsDone(r: Running) {
    r.count >= r.req.maxNew
  }

  ghost predicate IsCancelled(s: Sched, r: Running) {
    r.cancelled || r.req.id in s.closed
  }

  /** Take the request at index `i` off the batch. */
  ghost function Leave(s: Sched, i: nat): Sched
    requires i < |s.active|
  {
    var r := s.active[i];
    s.(active := s.active[..i] + s.active[i + 1..],
       free := s.free + [r.slot],
       done := if IsDone(r) && !IsCancelled(s, r) then s.done + {r.req.id} else s.done)
  }

  // ----- The invariant -----

  /** What the caller of `id` has received is a greedy continuation of its own prompt. */
  ghost predicate StreamOk(T: Target, s: Sched, id: nat)
    requires id in s.reqs && id in s.streams
  {
    Follows(T, s.reqs[id].prompt, s.streams[id])
  }

  /** A request on board: its count is what its caller received, unless the caller is gone. */
  ghost predicate RunningOk(s: Sched, r: Running) {
    && r.req.id in s.reqs && s.reqs[r.req.id] == r.req && r.req.id in s.streams && r.req.id !in s.done
    && |s.streams[r.req.id]| <= r.count
    && (r.cancelled ==> r.req.id in s.closed)
    && (!r.cancelled ==> |s.streams[r.req.id]| == r.count && r.session.context == r.req.prompt + s.streams[r.req.id])
  }

  ghost predicate ChannelsOk(T: Target, s: Sched) {
    && s.streams.Keys == s.reqs.Keys
    && (forall id: nat :: id in s.reqs ==> s.reqs[id].id == id && StreamOk(T, s, id))
    && (forall id: nat :: id in s.done ==> id in s.reqs && |s.streams[id]| >= s.reqs[id].maxNew)
  }

  ghost predicate QueuesOk(s: Sched) {
    && (forall i :: 0 <= i < |s.active| ==> RunningOk(s, s.active[i]))
    && (forall i, j :: 0 <= i < j < |s.active| ==> s.active[i].req.id != s.active[j].req.id)
    && (forall i :: 0 <= i < |s.pending| ==> Waiting(s, s.pending[i]))
    && (forall i, j :: 0 <= i < j < |s.pending| ==> s.pending[i].id != s.pending[j].id)
  }

  ghost predicate Waiting(s: Sched, r: Req) {
    && r.id in s.reqs && s.reqs[r.id] == r && r.id in s.streams && s.streams[r.id] == [] && r.id !in s.done
    && forall i :: 0 <= i < |s.active| ==> s.active[i].req.id != r.id
  }

  ghost function ActiveSlots(active: seq<Running>): (r: seq<nat>)
    ensures |r| == |active| && forall i :: 0 <= i < |active| ==> r[i] == active[i].slot
  {
    seq(|active|, i requires 0 <= i < |active| => active[i].slot)
  }

  /** Free, active and lost slots are the pool, each slot once. */
  ghost predicate SlotsOk(s: Sched) {
    var all := s.free + ActiveSlots(s.active) + s.lost;
    && |all| == s.capacity
    && multiset(all) == multiset(seq(s.capacity, i => i))
  }

  ghost predicate Inv(T: Target, s: Sched) {
    ChannelsOk(T, s) && QueuesOk(s) && SlotsOk(s)
  }

  /** Nobody has been sent, or counted, more than was asked for. */
  ghost predicate Within(s: Sched) {
    && (forall id: nat :: id in s.reqs && id in s.streams ==> |s.streams[id]| <= s.reqs[id].maxNew)
    && (forall i :: 0 <= i < |s.active| ==> s.active[i].count <= s.active[i].req.maxNew)
  }

  lemma StartInv(T: Target, capacity: nat)
    ensures Inv(T, Start(capacity))
  {
    var s := Start(capacity);
    assert s.free + ActiveSlots(s.active) + s.lost == s.free;
  }

  lemma ArrivedInv(T: Target, s: Sched, r: Req)
    requires Inv(T, s) && r.id !in s.reqs
    ensures Inv(T, Arrived(s, r))
  {
    var s' := Arrived(s, r);
    forall id: nat | id in s'.reqs ensures s'.reqs[id].id == id && StreamOk(T, s', id) {
      if id != r.id {
        assert StreamOk(T, s, id);
      }
    }
    forall i | 0 <= i < |s'.active| ensures RunningOk(s', s'.active[i]) {
      assert RunningOk(s, s.active[i]);
    }
    forall i | 0 <= i < |s'.pending| ensures Waiting(s', s'.pending[i]) && (i < |s.pending| ==> s'.pending[i].id != r.id) {
      if i < |s.pending| {
        assert Waiting(s, s.pending[i]);
      } else {
        forall j | 0 <= j < |s.active| ensures s.active[j].req.id != r.id {
          assert RunningOk(s, s.active[j]);
        }
      }
    }
  }

  lemma SameChannels(T: Target, s: Sched, s': Sched)
    requires ChannelsOk(T, s) && s'.reqs == s.reqs && s'.streams == s.streams && s'.done == s.done
    ensures ChannelsOk(T, s')
  {
    forall id: nat | id in s'.reqs ensures StreamOk(T, s', id) {
      assert StreamOk(T, s, id);
    }
  }

  lemma HungUpInv(T: Target, s: Sched, id: nat)
    requires Inv(T, s)
    ensures Inv(T, HungUp(s, id))
  {
    var s' := HungUp(s, id);
    SameChannels(T, s, s');
    forall i | 0 <= i < |s'.active| ensures RunningOk(s', s'.active[i]) {
      assert RunningOk(s, s.active[i]);
    }
    forall i | 0 <= i < |s'.pending| ensures Waiting(s', s'.pending[i]) {
      assert Waiting(s, s.pending[i]);
    }
  }

  lemma AdmitSlots(s: Sched, ok: bool, dw: nat, mw: nat)
    requires SlotsOk(s) && s.pending != []
    ensures SlotsOk(Admit(s, ok, dw, mw))
  {
    var s' := Admit(s, ok, dw, mw);
    if s.free != [] {
      var head, tail, slots := [s.free[0]], s.free[1..], ActiveSlots(s.active);
      assert s.free == head + tail;
      if ok {
        assert ActiveSlots(s'.active) == slots + head;
        assert multiset(head + tail + slots + s.lost) == multiset(tail + (slots + head) + s.lost);
      } else {
        assert multiset(head + tail + slots + s.lost) == multiset(tail + slots + (s.lost + head));
      }
    }
  }

  lemma AdmitActive(s: Sched, ok: bool, dw: nat, mw: nat, i: nat)
    requires QueuesOk(s) && s.pending != [] && i < |Admit(s, ok, dw, mw).active|
    ensures var s' := Admit(s, ok, dw, mw); RunningOk(s', s'.active[i])
  {
    if i < |s.active| {
      assert RunningOk(s, s.active[i]);
    } else {
      assert Waiting(s, s.pending[0]);
      assert s.pending[0].prompt + [] == s.pending[0].prompt;
    }
  }

  lemma AdmitPending(s: Sched, ok: bool, dw: nat, mw: nat, i: nat)
    requires QueuesOk(s) && s.pending != [] && i < |s.pending| - 1
    ensures var s' := Admit(s, ok, dw, mw); s'.pending[i] == s.pending[i + 1] && Waiting(s', s'.pending[i])
  {
    assert Waiting(s, s.pending[i + 1]);
  }

  lemma AdmitInv(T: Target, s: Sched, ok: bool, dw: nat, mw: nat)
    requires Inv(T, s) && s.pending != []
    ensures Inv(T, Admit(s, ok, dw, mw))
  {
    hide SlotsOk, ChannelsOk;
    var r, s' := s.pending[0], Admit(s, ok, dw, mw);
    AdmitSlots(s, ok, dw, mw);
    SameChannels(T, s, s');
    assert Waiting(s, r);
    forall i | 0 <= i < |s'.active| ensures RunningOk(s', s'.active[i]) {
      AdmitActive(s, ok, dw, mw, i);
    }
    forall i | 0 <= i < |s'.pending| ensures s'.pending[i] == s.pending[i + 1] && Waiting(s', s'.pending[i]) {
      AdmitPending(s, ok, dw, mw, i);
    }
    assert forall i :: 0 <= i < |s.active| ==> s.active[i].req.id != r.id;
    hide RunningOk, Waiting;
  }

  /** Losslessness of one served round, for any draft and any moment of hanging up. The count passes the limit of a
      caller who stays exactly when the draft is longer than what is left and agrees with the target that far. */
  lemma ServeOk(T: Target, s: Sched, r: Running, drafted: seq<TokenId>, steps: seq<VerifyStep>, cut: nat)
    requires RunningOk(s, r) && StreamOk(T, s, r.req.id)
    requires |drafted| == |steps|
    requires Verifies(T, r.session.context, drafted, steps)
    ensures var o := Serve(r, r.req.id in s.closed, drafted, steps, cut);
            var stream := s.streams[r.req.id] + o.sent;
            && Follows(T, r.req.prompt, stream)
            && |stream| <= o.r.count <= r.count + |drafted|
            && (o.r.cancelled ==> o.closed)
            && (!o.r.cancelled ==> |stream| == o.r.count && o.r.session.context == r.req.prompt + stream)
            && (!o.r.cancelled && r.count <= r.req.maxNew ==>
                  var left := r.req.maxNew - r.count;
                  o.r.count > r.req.maxNew <==> |drafted| > left && Follows(T, r.session.context, drafted[..left]))
  {
    hide Serve, Emitted, AcceptedLen, Follows, Verifies;
    var closed := r.req.id in s.closed;
    var o := Serve(r, closed, drafted, steps, cut);
    var e, before := Emitted(drafted, steps), s.streams[r.req.id];
    RoundFollows(T, r.session.context, drafted, steps);
    ServeFacts(r, closed, drafted, steps, cut);
    if r.count <= r.req.maxNew {
      EmitsBeyondIff(T, r.session.context, drafted, steps, r.req.maxNew - r.count);
    }
    if r.cancelled {
      assert before + [] == before;
    } else {
      assert e == o.sent + e[|o.sent|..];
      FollowsAppend(T, r.session.context, o.sent, e[|o.sent|..]);
      FollowsAppend(T, r.req.prompt, before, o.sent);
      assert r.session.context + e == r.req.prompt + (before + e);
    }
  }

  /** What is sent is a prefix of what was emitted; all of it, unless the caller is gone. */
  lemma ServeFacts(r: Running, closed: bool, drafted: seq<TokenId>, steps: seq<VerifyStep>, cut: nat)
    requires |drafted| == |steps| && (r.cancelled ==> closed)
    ensures var o, e := Serve(r, closed, drafted, steps, cut), Emitted(drafted, steps);
            && o.r.req == r.req && o.r.slot == r.slot
            && o.sent <= e && (closed ==> o.sent == []) && (closed ==> o.closed)
            && r.count + |o.sent| <= o.r.count <= r.count + |e|
            && (o.r.cancelled ==> o.closed)
            && (!o.r.cancelled ==> !r.cancelled && o.sent == e && o.r.count == r.count + |e| && o.r.session.context == r.session.context + e)
  {}

  lemma ServeAtInv(T: Target, s: Sched, i: nat, drafted: seq<TokenId>, steps: seq<VerifyStep>, cut: nat)
    requires Inv(T, s) && i < |s.active| && |drafted| == |steps|
    requires GoodDraft(T, s.active[i], drafted, steps)
    ensures s.active[i].req.id in s.streams && Inv(T, ServeAt(s, i, drafted, steps, cut))
  {
    var r := s.active[i];
    var id := r.req.id;
    assert RunningOk(s, r) && StreamOk(T, s, id);
    var s' := ServeAt(s, i, drafted, steps, cut);
    ServeOk(T, s, r, drafted, steps, cut);
    forall k: nat | k in s'.reqs ensures StreamOk(T, s', k) {
      assert StreamOk(T, s, k);
    }
    forall k | 0 <= k < |s'.active| ensures RunningOk(s', s'.active[k]) {
      assert RunningOk(s, s.active[k]);
      assert k != i ==> s.active[k].req.id != id;
    }
    forall k | 0 <= k < |s'.pending| ensures Waiting(s', s'.pending[k]) {
      assert Waiting(s, s.pending[k]);
    }
    assert ActiveSlots(s'.active) == ActiveSlots(s.active);
  }

  lemma LeaveInv(T: Target, s: Sched, i: nat)
    requires Inv(T, s) && i < |s.active|
    ensures Inv(T, Leave(s, i))
  {
    hide ChannelsOk, QueuesOk, SlotsOk, Leave;
    LeaveChannels(T, s, i);
    LeaveQueues(s, i);
    LeaveSlots(s, i);
  }

  lemma LeaveChannels(T: Target, s: Sched, i: nat)
    requires ChannelsOk(T, s) && QueuesOk(s) && i < |s.active|
    ensures ChannelsOk(T, Leave(s, i))
  {
    hide Follows;
    var s' := Leave(s, i);
    assert RunningOk(s, s.active[i]);
    forall k: nat | k in s'.reqs ensures StreamOk(T, s', k) {
      assert StreamOk(T, s, k);
    }
  }

  lemma LeaveQueues(s: Sched, i: nat)
    requires QueuesOk(s) && i < |s.active|
    ensures QueuesOk(Leave(s, i))
  {
    var r, s' := s.active[i], Leave(s, i);
    assert RunningOk(s, r);
    forall k | 0 <= k < |s'.active| ensures RunningOk(s', s'.active[k]) {
      var j := if k < i then k else k + 1;
      assert s'.active[k] == s.active[j] && RunningOk(s, s.active[j]);
      assert s.active[j].req.id != r.req.id;
    }
    forall k | 0 <= k < |s'.pending| ensures Waiting(s', s'.pending[k]) {
      assert Waiting(s, s.pending[k]);
    }
  }

  lemma LeaveSlots(s: Sched, i: nat)
    requires SlotsOk(s) && i < |s.active|
    ensures SlotsOk(Leave(s, i))
  {
    var slots := ActiveSlots(s.active);
    var pre, mid, post := slots[..i], [slots[i]], slots[i + 1..];
    assert slots == pre + mid + post;
    assert ActiveSlots(Leave(s, i).active) == pre + post;
    assert multiset(s.free + (pre + mid + post) + s.lost) == multiset(s.free + mid + (pre + post) + s.lost);
  }

  // ----- Whole runs -----

  /** One `step` call: the first `n` active requests are served in order. A commit error stops it early;
      a draft or verification error stops it before the first. */
  ghost function ServeUpTo(s: Sched, drafts: seq<seq<TokenId>>, steps: seq<seq<VerifyStep>>, cuts: seq<nat>, n: nat): (s': Sched)
    requires n <= |s.active| && |drafts| == |steps| == |cuts| == |s.active|
    requires forall i :: 0 <= i < n ==> |drafts[i]| == |steps[i]|
    requires forall i :: 0 <= i < |s.active| ==> s.active[i].req.id in s.streams
    ensures |s'.active| == |s.active| && s.streams.Keys == s'.streams.Keys
    ensures forall i :: 0 <= i < |s.active| ==> s'.active[i].req == s.active[i].req && (i >= n ==> s'.active[i] == s.active[i])
  {
    if n == 0 then s
    else ServeAt(ServeUpTo(s, drafts, steps, cuts, n - 1), n - 1, drafts[n - 1], steps[n - 1], cuts[n - 1])
  }

  ghost predicate Leaves(s: Sched, r: Running) {
    IsDone(r) || IsCancelled(s, r)
  }

  /** The clean-up sweep: remove and do not advance, or advance. */
  ghost function CleanFrom(s: Sched, i: nat): Sched
    decreases |s.active| - i
  {
    if i >= |s.active| then s
    else if Leaves(s, s.active[i]) then CleanFrom(Leave(s, i), i)
    else CleanFrom(s, i + 1)
  }

  datatype Event =
    | Arrive(r: Req)
    | HangUp(id: nat)
    | AdmitNext(ok: bool)
    | Round(drafts: seq<seq<TokenId>>, steps: seq<seq<VerifyStep>>, cuts: seq<nat>, served: nat)
    | CleanUp

  /** The verification of request `r`'s draft is the target's. */
  ghost predicate GoodDraft(T: Target, r: Running, drafted: seq<TokenId>, steps: seq<VerifyStep>) {
    Verifies(T, r.session.context, drafted, steps)
  }

  /** No draft is longer than what its request has left. The worker does not check this. */
  ghost predicate KeepsLimits(s: Sched, e: Event) {
    e.Round? && e.served <= |s.active| && e.served <= |e.drafts| ==>
      forall i :: 0 <= i < e.served ==> s.active[i].count + |e.drafts[i]| <= s.active[i].req.maxNew
  }

  ghost predicate GoodRound(T: Target, s: Sched, e: Event) {
    && e.Round? && e.served <= |s.active| && |e.drafts| == |e.steps| == |e.cuts| == |s.active|
    && (forall i :: 0 <= i < e.served ==> |e.drafts[i]| == |e.steps[i]|)
    && (forall i :: 0 <= i < |s.active| ==> s.active[i].req.id in s.streams)
    && (forall i :: 0 <= i < |s.active| ==> GoodDraft(T, s.active[i], e.drafts[i], e.steps[i]))
  }

  ghost predicate Next(T: Target, dw: nat, mw: nat, s: Sched, e: Event, s': Sched) {
    match e
    case Arrive(r) => r.id !in s.reqs && s' == Arrived(s, r)
    case HangUp(id) => s' == HungUp(s, id)
    case AdmitNext(ok) => |s.active| < s.capacity && s.pending != [] && s' == Admit(s, ok, dw, mw)
    case Round(drafts, steps, cuts, served) => GoodRound(T, s, e) && s' == ServeUpTo(s, drafts, steps, cuts, served)
    case CleanUp => s' == CleanFrom(s, 0)
  }

  lemma ServeNone(s: Sched, drafts: seq<seq<TokenId>>, steps: seq<seq<VerifyStep>>, cuts: seq<nat>)
    requires |drafts| == |steps| == |cuts| == |s.active|
    requires forall i :: 0 <= i < |s.active| ==> s.active[i].req.id in s.streams
    ensures ServeUpTo(s, drafts, steps, cuts, 0) == s
  {}

  lemma ServeOneMore(T: Target, s: Sched, e: Event, n: nat)
    requires GoodRound(T, s, e) && n < e.served && Inv(T, ServeUpTo(s, e.drafts, e.steps, e.cuts, n))
    ensures Inv(T, ServeUpTo(s, e.drafts, e.steps, e.cuts, n + 1))
  {
    hide Inv, ServeAt, GoodDraft;
    var mid := ServeUpTo(s, e.drafts, e.steps, e.cuts, n);
    assert mid.active[n] == s.active[n] && GoodDraft(T, s.active[n], e.drafts[n], e.steps[n]);
    ServeAtInv(T, mid, n, e.drafts[n], e.steps[n], e.cuts[n]);
    ServeNext(s, e.drafts, e.steps, e.cuts, n);
  }

  lemma ServeNext(s: Sched, drafts: seq<seq<TokenId>>, steps: seq<seq<VerifyStep>>, cuts: seq<nat>, n: nat)
    requires n < |s.active| && |drafts| == |steps| == |cuts| == |s.active|
    requires forall i :: 0 <= i < n + 1 ==> |drafts[i]| == |steps[i]|
    requires forall i :: 0 <= i < |s.active| ==> s.active[i].req.id in s.streams
    ensures ServeUpTo(s, drafts, steps, cuts, n).active[n].req.id in ServeUpTo(s, drafts, steps, cuts, n).streams
    ensures ServeUpTo(s, drafts, steps, cuts, n + 1) == ServeAt(ServeUpTo(s, drafts, steps, cuts, n), n, drafts[n], steps[n], cuts[n])
  {
    hide ServeAt;
  }

  lemma {:induction false} ServeUpToInv(T: Target, s: Sched, e: Event, n: nat)
    requires Inv(T, s) && GoodRound(T, s, e) && n <= e.served
    ensures Inv(T, ServeUpTo(s, e.drafts, e.steps, e.cuts, n))
  {
    hide Inv, ServeAt, GoodDraft, ServeUpTo;
    if n == 0 {
      ServeNone(s, e.drafts, e.steps, e.cuts);
    } else {
      ServeUpToInv(T, s, e, n - 1);
      ServeOneMore(T, s, e, n - 1);
    }
  }

  lemma {:induction false} CleanFromInv(T: Target, s: Sched, i: nat)
    requires Inv(T, s)
    ensures Inv(T, CleanFrom(s, i))
    decreases |s.active| - i
  {
    if i < |s.active| {
      if Leaves(s, s.active[i]) {
        LeaveInv(T, s, i);
        CleanFromInv(T, Leave(s, i), i);
      } else {
        CleanFromInv(T, s, i + 1);
      }
    }
  }

  lemma NextInv(T: Target, dw: nat, mw: nat, s: Sched, e: Event, s': Sched)
    requires Inv(T, s) && Next(T, dw, mw, s, e, s')
    ensures Inv(T, s')
  {
    hide Inv;
    match e
    case Arrive(r) => ArrivedInv(T, s, r);
    case HangUp(id) => HungUpInv(T, s, id);
    case AdmitNext(ok) => AdmitInv(T, s, ok, dw, mw);
    case Round(drafts, steps, cuts, served) => ServeUpToInv(T, s, e, served);
    case CleanUp => CleanFromInv(T, s, 0);
  }

  /** A run of the worker with any arrivals, hang-ups, failures and drafts, in any order. */
  ghost predicate IsRun(T: Target, dw: nat, mw: nat, capacity: nat, states: seq<Sched>, events: seq<Event>) {
    && |states| == |events| + 1 && states[0] == Start(capacity)
    && forall i :: 0 <= i < |events| ==> Next(T, dw, mw, states[i], events[i], states[i + 1])
  }

  lemma {:induction false} RunInv(T: Target, dw: nat, mw: nat, capacity: nat, states: seq<Sched>, events: seq<Event>)
    requires IsRun(T, dw, mw, capacity, states, events)
    ensures Inv(T, states[|events|])
  {
    if events == [] {
      StartInv(T, capacity);
    } else {
      var n := |events| - 1;
      assert Next(T, dw, mw, states[n], events[n], states[n + 1]);
      RunInv(T, dw, mw, capacity, states[..n + 1], events[..n]);
      NextInv(T, dw, mw, states[n], events[n], states[n + 1]);
    }
  }

  lemma ServeAtWithin(T: Target, s: Sched, i: nat, drafted: seq<TokenId>, steps: seq<VerifyStep>, cut: nat)
    requires Inv(T, s) && Within(s) && i < |s.active| && |drafted| == |steps|
    requires GoodDraft(T, s.active[i], drafted, steps) && s.active[i].count + |drafted| <= s.active[i].req.maxNew
    ensures s.active[i].req.id in s.streams && Within(ServeAt(s, i, drafted, steps, cut))
  {
    hide Follows, Serve, Verifies;
    assert RunningOk(s, s.active[i]) && StreamOk(T, s, s.active[i].req.id);
    ServeOk(T, s, s.active[i], drafted, steps, cut);
    ServeFacts(s.active[i], s.active[i].req.id in s.closed, drafted, steps, cut);
  }

  lemma {:induction false} ServeUpToWithin(T: Target, s: Sched, e: Event, n: nat)
    requires Inv(T, s) && Within(s) && GoodRound(T, s, e) && KeepsLimits(s, e) && n <= e.served
    ensures Within(ServeUpTo(s, e.drafts, e.steps, e.cuts, n))
  {
    hide Inv, ServeAt, GoodDraft, ServeUpTo, Within, KeepsLimits;
    if n == 0 {
      ServeNone(s, e.drafts, e.steps, e.cuts);
    } else {
      ServeUpToWithin(T, s, e, n - 1);
      WithinOneMore(T, s, e, n - 1);
    }
  }

  lemma WithinOneMore(T: Target, s: Sched, e: Event, n: nat)
    requires Inv(T, s) && GoodRound(T, s, e) && KeepsLimits(s, e) && n < e.served
    requires Within(ServeUpTo(s, e.drafts, e.steps, e.cuts, n))
    ensures Within(ServeUpTo(s, e.drafts, e.steps, e.cuts, n + 1))
  {
    hide Inv, ServeAt, GoodDraft, Within;
    ServeUpToInv(T, s, e, n);
    var mid := ServeUpTo(s, e.drafts, e.steps, e.cuts, n);
    assert mid.active[n] == s.active[n] && GoodDraft(T, s.active[n], e.drafts[n], e.steps[n]);
    ServeAtWithin(T, mid, n, e.drafts[n], e.steps[n], e.cuts[n]);
    ServeNext(s, e.drafts, e.steps, e.cuts, n);
  }

  lemma {:induction false} CleanFromWithin(s: Sched, i: nat)
    requires Within(s)
    ensures Within(CleanFrom(s, i))
    decreases |s.active| - i
  {
    if i < |s.active| {
      if Leaves(s, s.active[i]) {
        CleanFromWithin(Leave(s, i), i);
      } else {
        CleanFromWithin(s, i + 1);
      }
    }
  }

  lemma AdmitWithin(s: Sched, ok: bool, dw: nat, mw: nat)
    requires s.pending != []
    ensures Within(s) ==> Within(Admit(s, ok, dw, mw))
  {}

  lemma NextWithin(T: Target, dw: nat, mw: nat, s: Sched, e: Event, s': Sched)
    requires Inv(T, s) && Within(s) && Next(T, dw, mw, s, e, s') && KeepsLimits(s, e)
    ensures Within(s')
  {
    hide Inv, ServeUpTo, CleanFrom;
    match e
    case Arrive(r) =>
    case HangUp(id) =>
    case AdmitNext(ok) =>
    case Round(drafts, steps, cuts, served) => ServeUpToWithin(T, s, e, served);
    case CleanUp => CleanFromWithin(s, 0);
  }

  ghost predicate AllKeepLimits(states: seq<Sched>, events: seq<Event>) {
    |states| == |events| + 1 && forall i :: 0 <= i < |events| ==> KeepsLimits(states[i], events[i])
  }

  lemma {:induction false} RunWithin(T: Target, dw: nat, mw: nat, capacity: nat, states: seq<Sched>, events: seq<Event>)
    requires IsRun(T, dw, mw, capacity, states, events) && AllKeepLimits(states, events)
    ensures Within(states[|events|])
  {
    hide Within, Inv, Next, KeepsLimits;
    if events == [] {
      StartWithin(capacity);
    } else {
      var n := |events| - 1;
      assert Next(T, dw, mw, states[n], events[n], states[n + 1]) && KeepsLimits(states[n], events[n]);
      RunWithin(T, dw, mw, capacity, states[..n + 1], events[..n]);
      RunInv(T, dw, mw, capacity, states[..n + 1], events[..n]);
      NextWithin(T, dw, mw, states[n], events[n], states[n + 1]);
    }
  }

  lemma StartWithin(capacity: nat)
    ensures Within(Start(capacity))
  {}

  /** Continuous-batching safety: at every moment of every run, what a caller has received is its own greedy
      continuation so far, whatever the other requests do, and a completion is reported only after all that was asked
      for. Where the drafts keep to their limits it is never more than that. */
  lemma RunSafety(T: Target, dw: nat, mw: nat, capacity: nat, states: seq<Sched>, events: seq<Event>, id: nat)
    requires IsRun(T, dw, mw, capacity, states, events) && id in states[|events|].reqs
    ensures var s := states[|events|]; var r := s.reqs[id];
            && id in s.streams
            && s.streams[id] == Greedy(T, r.prompt, |s.streams[id]|)
            && (id in s.done ==> |s.streams[id]| >= r.maxNew)
            && (AllKeepLimits(states, events) ==>
                  && s.streams[id] <= Greedy(T, r.prompt, r.maxNew)
                  && (id in s.done ==> s.streams[id] == Greedy(T, r.prompt, r.maxNew)))
  {
    RunInv(T, dw, mw, capacity, states, events);
    var s := states[|events|];
    hide Follows, Greedy, Next;
    var r := s.reqs[id];
    assert StreamOk(T, s, id);
    FollowsIsGreedy(T, r.prompt, s.streams[id]);
    if AllKeepLimits(states, events) {
      RunWithin(T, dw, mw, capacity, states, events);
      GreedyPrefix(T, r.prompt, |s.streams[id]|, r.maxNew);
    }
  }

  lemma {:induction false} EachOnce(n: nat, x: nat)
    ensures multiset(seq(n, i => i))[x] == if x < n then 1 else 0
  {
    if n > 0 {
      EachOnce(n - 1, x);
      assert seq(n, i => i) == seq(n - 1, i => i) + [n - 1];
    }
  }

  /** A sequence whose elements have multiplicity at most one has no duplicates. */
  lemma MultiplicityOne(s: seq<nat>, i: nat, j: nat)
    requires i < j < |s| && s[i] == s[j]
    ensures multiset(s)[s[i]] >= 2
  {
    assert s == s[..j] + [s[j]] + s[j + 1..];
    assert s[i] in s[..j];
  }

  /** Slot isolation: in every reachable state active requests hold pairwise distinct slots, none of
      them free; free, active and lost slots add up to the pool; and below capacity an admission finds
      a slot unless every other slot was lost to failed admissions. */
  lemma SlotIsolation(T: Target, dw: nat, mw: nat, capacity: nat, states: seq<Sched>, events: seq<Event>)
    requires IsRun(T, dw, mw, capacity, states, events)
    ensures var s := states[|events|];
            && |s.free| + |s.active| + |s.lost| == s.capacity
            && (forall i, j :: 0 <= i < j < |s.active| ==> s.active[i].slot != s.active[j].slot)
            && (forall i :: 0 <= i < |s.active| ==> s.active[i].slot !in s.free && s.active[i].slot < s.capacity)
            && (s.free == [] <==> |s.active| + |s.lost| == s.capacity)
  {
    RunInv(T, dw, mw, capacity, states, events);
    var s := states[|events|];
    SlotsDistinct(s);
  }

  lemma SlotsDistinct(s: Sched)
    requires SlotsOk(s)
    ensures forall i, j :: 0 <= i < j < |s.active| ==> s.active[i].slot != s.active[j].slot
    ensures forall i :: 0 <= i < |s.active| ==> s.active[i].slot !in s.free && s.active[i].slot < s.capacity
  {
    hide SlotsOk;
    forall i: nat, j: nat | i < j < |s.active| ensures s.active[i].slot != s.active[j].slot {
      TwoSlots(s, i, j);
    }
    forall i: nat | i < |s.active| ensures s.active[i].slot !in s.free && s.active[i].slot < s.capacity {
      OneSlot(s, i);
    }
  }

  lemma TwoSlots(s: Sched, i: nat, j: nat)
    requires SlotsOk(s) && i < j < |s.active|
    ensures s.active[i].slot != s.active[j].slot
  {
    var n := |s.free|;
    var all := s.free + ActiveSlots(s.active) + s.lost;
    EachOnce(s.capacity, s.active[i].slot);
    assert all[n + i] == s.active[i].slot && all[n + j] == s.active[j].slot;
    if all[n + i] == all[n + j] {
      MultiplicityOne(all, n + i, n + j);
    }
  }

  lemma OneSlot(s: Sched, i: nat)
    requires SlotsOk(s) && i < |s.active|
    ensures s.active[i].slot !in s.free && s.active[i].slot < s.capacity
  {
    var n := |s.free|;
    var all := s.free + ActiveSlots(s.active) + s.lost;
    EachOnce(s.capacity, s.active[i].slot);
    assert all[n + i] == s.active[i].slot && all[n + i] in multiset(all);
    assert multiset(all) == multiset(s.free) + multiset(ActiveSlots(s.active) + s.lost);
    assert s.active[i].slot == (ActiveSlots(s.active) + s.lost)[i];
  }
}
