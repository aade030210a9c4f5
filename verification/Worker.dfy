/** The scheduler's worker loop, phase by phase, as code that updates its variables in place. */
module Workers {
  import opened Common
  import opened GreedyDecoding
  import opened Speculative
  import opened Backend
  import opened BatchDecoding
  import opened Scheduling
  import opened Delivery
  import opened Liveness

  class Worker {
    const capacity: nat
    const decoder: Decoder
    var pending: seq<Req>
    var active: seq<Running>
    var free: seq<nat>
    var lost: seq<nat>
    var reqs: map<nat, Req>
    var streams: map<nat, seq<TokenId>>
    var done: set<nat>
    var closed: set<nat>

    ghost function State(): Sched
      reads this
    {
      Sched(pending, active, free, capacity, lost, reqs, streams, done, closed)
    }

    constructor (capacity: nat, decoder: Decoder)
      ensures State() == Start(capacity) && this.decoder == decoder
    {
      this.capacity := capacity;
      this.decoder := decoder;
      pending, active, lost := [], [], [];
      free := seq(capacity, i => i);
      reqs, streams, done, closed := map[], map[], {}, {};
    }

    /** `admit_request` for the oldest pending request; `ok` says whether prefill and binding succeed. */
    method AdmitOne(ok: bool)
      requires pending != []
      modifies this
      ensures State() == Admit(old(State()), ok, decoder.draftWindow, decoder.maxWindow)
    {
      var r := pending[0];
      pending := pending[1..];
      if free == [] {
        return;
      }
      var slot := free[0];
      free := free[1..];
      if !ok {
        lost := lost + [slot];
        return;
      }
      active := active + [Running(r, Begin(decoder.draftWindow, decoder.maxWindow, r.prompt), slot, 0, false)];
    }

    /** The admission loop: it stops when the batch is full or nobody waits. */
    method AdmitAll(outcomes: nat -> bool, ghost T: Target)
      requires Inv(T, State())
      modifies this
      ensures Inv(T, State())
      ensures |active| >= capacity || pending == []
      ensures old(NoneOverdrawn()) ==> NoneOverdrawn()
      ensures old(Within(State())) ==> Within(State())
      ensures reqs == old(reqs)
      ensures streams == old(streams) && done == old(done)
      ensures (forall n :: outcomes(n)) && old(Smooth(State())) ==> Smooth(State()) && Owing(State()) == old(Owing(State()))
    {
      hide Inv, Within, Smooth, Owing;
      var n := 0;
      while |active| < capacity && pending != []
        invariant Inv(T, State())
        invariant old(NoneOverdrawn()) ==> NoneOverdrawn()
        invariant old(Within(State())) ==> Within(State())
        invariant streams == old(streams) && done == old(done) && reqs == old(reqs)
        invariant (forall n :: outcomes(n)) && old(Smooth(State())) ==> Smooth(State()) && Owing(State()) == old(Owing(State()))
        decreases |pending|
      {
        if outcomes(n) && Smooth(State()) {
          HasSlots(T, State());
          AdmitSmooth(State(), decoder.draftWindow, decoder.maxWindow);
        }
        AdmitInv(T, State(), outcomes(n), decoder.draftWindow, decoder.maxWindow);
        AdmitWithin(State(), outcomes(n), decoder.draftWindow, decoder.maxWindow);
        AdmitOne(outcomes(n));
        n := n + 1;
      }
    }

    /** Commit request `i`'s draft and send what it yields, token by token. The caller's receiver goes
        away after `cut` sends of this round. */
    method ServeOne(i: nat, drafted: seq<TokenId>, steps: seq<VerifyStep>, cut: nat)
      requires i < |active| && |drafted| == |steps| && active[i].req.id in streams
      modifies this`active, this`streams, this`closed
      ensures State() == ServeAt(old(State()), i, drafted, steps, cut)
    {
      var r := active[i];
      var id := r.req.id;
      var o := Deliver(r, id in closed, drafted, steps, cut);
      active := active[i := o.r];
      streams := streams[id := streams[id] + o.sent];
      if o.closed {
        closed := closed + {id};
      }
    }

    /** Nobody on board has been counted more than was asked for, so `maxNew - count` does not underflow. */
    ghost predicate NoneOverdrawn()
      reads this
    {
      forall i :: 0 <= i < |active| ==> active[i].count <= active[i].req.maxNew
    }

    /** The draft limits of this round. */
    method DraftLimits() returns (ds: seq<DraftReq>)
      requires NoneOverdrawn()
      ensures ds == LimitsOf(active, decoder.draftWindow)
      ensures |ds| == |active| && forall i :: 0 <= i < |active| ==>
        ds[i] == DraftReq(active[i].session.context, Min(decoder.draftWindow, active[i].req.maxNew - active[i].count))
    {
      ds := [];
      for i := 0 to |active|
        invariant |ds| == i && forall j :: 0 <= j < i ==>
          ds[j] == DraftReq(active[j].session.context, Min(decoder.draftWindow, active[j].req.maxNew - active[j].count))
      {
        var remaining: nat := active[i].req.maxNew - active[i].count;
        ds := ds + [DraftReq(active[i].session.context, Min(decoder.draftWindow, remaining))];
      }
    }

    /** One `step`: draft for everyone, verify for everyone, then commit and send one by one. A wrong
        number of verification steps stops the sending there. Every step is a step of the run. */
    method Step(draft: DraftBatchFn, verify: VerifyBatchFn, call: nat, cuts: seq<nat>, ghost T: Target)
        returns (r: Result<(), SpecError>, ghost e: Event)
      requires Inv(T, State()) && NoneOverdrawn() && OnePerRequest(draft) && FaithfulBatch(T, verify) && |cuts| == |active|
      modifies this`active, this`streams, this`closed
      ensures Next(T, decoder.draftWindow, decoder.maxWindow, old(State()), e, State())
      ensures StepReturns(old(State()), State(), decoder.draftWindow, draft, verify, call, cuts, r)
      ensures e.Round? && e.cuts == cuts && (r.Ok? ==> e.served == |old(active)|)
      ensures Bounded(draft) ==> KeepsLimits(old(State()), e)
    {
      hide Inv, GoodRound, ServeUpTo, OnePerRequest, Bounded, Productive, FaithfulBatch, Verifies, KeepsLimits, GoodDraft, Idle,
           CommitReturns;
      ghost var s0 := State();
      var ds := DraftLimits();
      OnBoardHaveStreams(T, s0);
      e := Idle(cuts, |active|);
      IdleIs(cuts, |active|);
      IdleRound(T, s0, e);
      IdleKeepsLimits(s0, e);
      var drafted := draft(call, ds);
      if drafted.Err? {
        return Err(drafted.error), e;
      }
      DraftFacts(draft, call, ds);
      var drafts := AllTokens(drafted.value);
      var asked := VerifyAll(active, drafts);
      var verified := verify(call, asked);
      if verified.Err? {
        return Err(verified.error), e;
      }
      VerifyFacts(T, verify, call, asked);
      DraftsAreGood(T, s0.active, drafts, verified.value);
      ghost var n;
      r, n := ServeAll(drafts, verified.value, cuts);
      e := Event.Round(drafts, verified.value, cuts, n);
      RoundIsGood(T, s0, e);
      if Bounded(draft) {
        RoundKeepsLimits(s0, e, ds, decoder.draftWindow);
      }
    }

    /** The commit-and-send loop: `n` requests are served. */
    method ServeAll(drafts: seq<seq<TokenId>>, steps: seq<seq<VerifyStep>>, cuts: seq<nat>)
        returns (r: Result<(), SpecError>, ghost n: nat)
      requires |drafts| == |steps| == |cuts| == |active|
      requires forall i :: 0 <= i < |active| ==> active[i].req.id in streams && (active[i].cancelled ==> active[i].req.id in closed)
      requires forall i, j :: 0 <= i < j < |active| ==> active[i].req.id != active[j].req.id
      modifies this`active, this`streams, this`closed
      ensures n <= |old(active)| && (forall i :: 0 <= i < n ==> |drafts[i]| == |steps[i]|)
      ensures r.Ok? ==> n == |old(active)|
      ensures r.Err? ==> n < |old(active)| && |drafts[n]| != |steps[n]|
      ensures State() == ServeUpTo(old(State()), drafts, steps, cuts, n)
      ensures CommitReturns(old(State()), State(), drafts, steps, cuts, r)
    {
      hide ServeAt, ServeUpTo, RoundServes;
      ghost var s0 := State();
      ServeNone(s0, drafts, steps, cuts);
      NobodyServed(s0, drafts, steps, cuts);
      n := 0;
      for i := 0 to |active|
        invariant n == i && |active| == |s0.active|
        invariant forall j :: 0 <= j < i ==> |drafts[j]| == |steps[j]|
        invariant State() == ServeUpTo(s0, drafts, steps, cuts, i)
        invariant RoundServes(s0, State(), drafts, steps, cuts, i)
      {
        if |steps[i]| != |drafts[i]| {
          assert FirstWrongLength(drafts, steps, i, TargetReturnedWrongLength(|drafts[i]|, |steps[i]|));
          return Err(TargetReturnedWrongLength(|drafts[i]|, |steps[i]|)), n;
        }
        ServeNext(s0, drafts, steps, cuts, i);
        ServesOneMore(s0, State(), drafts, steps, cuts, i);
        ServeOne(i, drafts[i], steps[i], cuts[i]);
        n := n + 1;
      }
      r := Ok(());
    }

    /** The clean-up sweep: finished and cancelled requests leave, their slots return to the pool, and
        completion is reported to callers who are still there. */
    method Cleanup()
      modifies this`active, this`free, this`done
      ensures State() == CleanFrom(old(State()), 0)
      ensures forall i :: 0 <= i < |active| ==> active[i].count < active[i].req.maxNew && !active[i].cancelled && active[i].req.id !in closed
    {
      ghost var s0 := State();
      var i := 0;
      while i < |active|
        invariant 0 <= i <= |active|
        invariant CleanFrom(s0, 0) == CleanFrom(State(), i)
        invariant forall j :: 0 <= j < i ==> active[j].count < active[j].req.maxNew && !active[j].cancelled && active[j].req.id !in closed
        invariant closed == s0.closed
        decreases |active| - i
      {
        var isDone := active[i].count >= active[i].req.maxNew;
        var isCancelled := active[i].cancelled || active[i].req.id in closed;
        ghost var s := State();
        if isDone || isCancelled {
          var req := active[i];
          active := active[..i] + active[i + 1..];
          free := free + [req.slot];
          if isDone && !isCancelled {
            done := done + {req.req.id};
          }
          assert State() == Leave(s, i);
        } else {
          i := i + 1;
        }
      }
    }

    /** One turn of the worker loop: admit, step if anyone is on board, clean up. Callers in `late` hang up after the
        last send and before the clean-up. Whatever was drafted, whoever is over the limit has left by the next
        turn. */
    method Turn(outcomes: nat -> bool, draft: DraftBatchFn, verify: VerifyBatchFn, call: nat, cuts: nat -> nat, late: set<nat>,
                ghost T: Target)
      requires Inv(T, State()) && NoneOverdrawn() && OnePerRequest(draft) && FaithfulBatch(T, verify)
      modifies this
      ensures Inv(T, State()) && NoneOverdrawn() && reqs == old(reqs)
      ensures Bounded(draft) && old(Within(State())) ==> Within(State())
      ensures TurnGoesWell(capacity, decoder.draftWindow, outcomes, draft, verify, cuts, late) && old(Smooth(State())) ==>
        Smooth(State()) && Owing(State()) <= SatSub(old(Owing(State())), 1)
      ensures forall i :: 0 <= i < |active| ==> active[i].count < active[i].req.maxNew && !active[i].cancelled && active[i].req.id !in closed
    {
      hide Inv, Next, Within, KeepsLimits, CleanFrom, Bounded, FaithfulBatch, OnePerRequest, Productive, CooperateBatch, Smooth, Owing,
           StepReturns, RoundPays;
      ghost var well := TurnGoesWell(capacity, decoder.draftWindow, outcomes, draft, verify, cuts, late) && Smooth(State());
      ghost var owing := Owing(State());
      AdmitAll(outcomes, T);
      ghost var boarded := State();
      if active != [] {
        ghost var s := State();
        var answer, e := Step(draft, verify, call, seq(|active|, (i: nat) => cuts(i)), T);
        NextInv(T, decoder.draftWindow, decoder.maxWindow, s, e, State());
        if Bounded(draft) && Within(s) {
          NextWithin(T, decoder.draftWindow, decoder.maxWindow, s, e, State());
        }
        if well {
          StepPays(s, State(), decoder.draftWindow, draft, verify, call, e.cuts, answer);
        }
      }
      ghost var stepped := State();
      if well {
        TurnPays(boarded, stepped);
      }
      HangUpsInv(T, State(), late);
      closed := closed + late;
      assert well ==> closed == stepped.closed;
      CleanFromInv(T, State(), 0);
      if Within(State()) {
        CleanFromWithin(State(), 0);
      }
      Cleanup();
      OwingIs(State());
    }

    /** A caller submits a request on fresh channels. */
    method Receive(r: Req, ghost T: Target)
      requires Inv(T, State()) && r.id !in reqs
      modifies this`pending, this`reqs, this`streams
      ensures Inv(T, State()) && reqs == old(reqs)[r.id := r]
      ensures old(Within(State())) ==> Within(State())
      ensures old(Smooth(State())) ==> Smooth(State()) && Owing(State()) == old(Owing(State())) + AtLeastOne(r.maxNew)
    {
      hide Inv, Smooth, Owing;
      ArrivedInv(T, State(), r);
      if Smooth(State()) {
        ArrivedSmooth(State(), r);
      }
      pending, reqs, streams := pending + [r], reqs[r.id := r], streams[r.id := []];
    }

    /** Every request waiting in the queue. */
    method ReceiveAll(arriving: seq<(seq<TokenId>, nat)>, first: nat, ghost all: seq<(seq<TokenId>, nat)>, ghost T: Target)
        returns (nextId: nat)
      requires Inv(T, State()) && Registered(reqs, all) && first == |all|
      modifies this`pending, this`reqs, this`streams
      ensures Inv(T, State()) && Registered(reqs, all + arriving) && nextId == |all| + |arriving|
      ensures old(Within(State())) ==> Within(State())
      ensures old(Smooth(State())) ==> Smooth(State()) && Owing(State()) + Weight(all) == old(Owing(State())) + Weight(all + arriving)
    {
      hide Inv, Within, Registered, Smooth, Owing, Weight;
      nextId := first;
      assert all + arriving[..0] == all;
      for k := 0 to |arriving|
        invariant Inv(T, State()) && nextId == |all| + k && Registered(reqs, all + arriving[..k])
        invariant old(Within(State())) ==> Within(State())
        invariant old(Smooth(State())) ==> Smooth(State()) && Owing(State()) + Weight(all) == old(Owing(State())) + Weight(all + arriving[..k])
      {
        WeightSnoc(all + arriving[..k], arriving[k]);
        assert all + arriving[..k + 1] == all + arriving[..k] + [arriving[k]];
        RegisteredNext(reqs, all + arriving[..k], arriving[k]);
        Receive(Req(nextId, arriving[k].0, arriving[k].1), T);
        nextId := nextId + 1;
      }
      assert arriving[..|arriving|] == arriving;
    }

    /** The worker loop, for any number of turns: any arrivals before each turn, hang-ups before it, between its sends and
        before its clean-up, any failures, any drafts. At the end every caller has its own greedy continuation so far, all of what was asked for if
        completion was reported, and no more than that if the drafts keep to their limits. */
    method Run(turns: nat, arrivals: nat -> seq<(seq<TokenId>, nat)>, hangups: nat -> set<nat>, late: nat -> set<nat>, outcomes: (nat, nat) -> bool,
               draft: DraftBatchFn, verify: VerifyBatchFn, cuts: (nat, nat) -> nat, ghost quiet: nat, ghost T: Target)
      requires State() == Start(capacity) && OnePerRequest(draft) && FaithfulBatch(T, verify)
      modifies this
      ensures Inv(T, State()) && (Bounded(draft) ==> Within(State()))
      ensures Registered(reqs, AllArrivals(arrivals, turns))
      ensures forall id: nat :: id in reqs ==>
        && id in streams && streams[id] == Greedy(T, reqs[id].prompt, |streams[id]|)
        && (id in done ==> |streams[id]| >= reqs[id].maxNew)
        && (id in done && Bounded(draft) ==> streams[id] == Greedy(T, reqs[id].prompt, reqs[id].maxNew))
      ensures
        && RunGoesWell(capacity, decoder.draftWindow, hangups, late, outcomes, draft, verify, cuts)
        && QuietFrom(arrivals, quiet) && turns >= quiet + Weight(AllArrivals(arrivals, quiet)) ==>
        forall id: nat :: id in reqs ==> id in done && id in streams && streams[id] == Greedy(T, reqs[id].prompt, reqs[id].maxNew)
    {
      hide Inv, Within, Bounded, FaithfulBatch, OnePerRequest, Registered, Greedy, Productive, CooperateBatch, Smooth, Owing, MostOwing, Weight,
           QuietFrom;
      ghost var well := RunGoesWell(capacity, decoder.draftWindow, hangups, late, outcomes, draft, verify, cuts) && QuietFrom(arrivals, quiet);
      StartSmooth(capacity);
      RegisteredNone();
      StartInv(T, capacity);
      StartWithin(capacity);
      var nextId := 0;
      for turn := 0 to turns
        invariant Inv(T, State()) && NoneOverdrawn()
        invariant Registered(reqs, AllArrivals(arrivals, turn)) && nextId == |AllArrivals(arrivals, turn)|
        invariant Bounded(draft) ==> Within(State())
        invariant well ==> Smooth(State()) && Owing(State()) <= MostOwing(arrivals, quiet, turn)
      {
        ghost var before := Owing(State());
        nextId := ReceiveAll(arrivals(turn), nextId, AllArrivals(arrivals, turn), T);
        HangUpsInv(T, State(), hangups(turn));
        ghost var received := State();
        closed := closed + hangups(turn);
        assert well ==> State() == received;
        Turn((i: nat) => outcomes(turn, i), draft, verify, turn, (i: nat) => cuts(turn, i), late(turn), T);
        if well {
          MostOwingNext(arrivals, quiet, turn, before, Owing(received), Owing(State()));
        }
      }
      StreamsSafe(T, State());
      if well && turns >= quiet + Weight(AllArrivals(arrivals, quiet)) {
        NothingDue(arrivals, quiet, turns);
        NothingOwing(State());
      }
    }
  }

  /** The requests are exactly those submitted, numbered in order. */
  ghost predicate Registered(reqs: map<nat, Req>, all: seq<(seq<TokenId>, nat)>) {
    && (forall id: nat :: id in reqs <==> id < |all|)
    && (forall id: nat :: id < |all| ==> reqs[id] == Req(id, all[id].0, all[id].1))
  }

  lemma RegisteredNone()
    ensures Registered(map[], [])
  {}

  lemma RegisteredNext(reqs: map<nat, Req>, all: seq<(seq<TokenId>, nat)>, x: (seq<TokenId>, nat))
    requires Registered(reqs, all)
    ensures |all| !in reqs && Registered(reqs[|all| := Req(|all|, x.0, x.1)], all + [x])
  {}

  lemma HangUpsInv(T: Target, s: Sched, ids: set<nat>)
    requires Inv(T, s)
    ensures Inv(T, s.(closed := s.closed + ids)) && (Within(s) ==> Within(s.(closed := s.closed + ids)))
  {
    hide Follows;
    var s' := s.(closed := s.closed + ids);
    SameChannels(T, s, s');
    forall i | 0 <= i < |s'.active| ensures RunningOk(s', s'.active[i]) {
      assert RunningOk(s, s.active[i]);
    }
    forall i | 0 <= i < |s'.pending| ensures Waiting(s', s'.pending[i]) {
      assert Waiting(s, s.pending[i]);
    }
  }

  lemma StreamsSafe(T: Target, s: Sched)
    requires Inv(T, s)
    ensures forall id: nat :: id in s.reqs ==>
      && id in s.streams && s.streams[id] == Greedy(T, s.reqs[id].prompt, |s.streams[id]|)
      && (id in s.done ==> |s.streams[id]| >= s.reqs[id].maxNew)
      && (id in s.done && Within(s) ==> s.streams[id] == Greedy(T, s.reqs[id].prompt, s.reqs[id].maxNew))
  {
    hide Follows, Greedy;
    forall id: nat | id in s.reqs ensures s.streams[id] == Greedy(T, s.reqs[id].prompt, |s.streams[id]|) {
      assert StreamOk(T, s, id);
      FollowsIsGreedy(T, s.reqs[id].prompt, s.streams[id]);
    }
  }

  /** The accepted tokens, one send at a time, up to the first that fails. */
  method SendAccepted(tokens: seq<TokenId>, isClosed: bool, cut: nat) returns (sent: nat)
    ensures sent == Received(isClosed, cut, |tokens|)
  {
    sent := 0;
    while sent < |tokens|
      invariant sent == Received(isClosed, cut, sent) <= |tokens|
    {
      if isClosed || sent >= cut {
        return;
      }
      sent := sent + 1;
    }
  }

  /** Commit, send what was accepted, then the correction unless a send failed. */
  method Deliver(r: Running, isClosed: bool, drafted: seq<TokenId>, steps: seq<VerifyStep>, cut: nat) returns (o: Served)
    requires |drafted| == |steps|
    ensures o == Serve(r, isClosed, drafted, steps, cut)
  {
    var accepted, rejected := Compare(drafted, steps);
    var session := Committed(r.session, drafted, steps);
    var k := SendAccepted(drafted[..accepted], isClosed, cut);
    var cancelled := r.cancelled || k < accepted;
    var count, sent, hungUp := r.count + k, drafted[..k], isClosed || k < accepted;
    if !cancelled {
      session := session.(rejected := None);
      if rejected.Some? {
        if isClosed || k >= cut {
          cancelled, hungUp := true, true;
        } else {
          sent := sent + [rejected.value];
        }
        count := count + 1;
      }
    }
    o := Served(r.(session := session, count := count, cancelled := cancelled), sent, hungUp);
  }

  lemma DraftsAreGood(T: Target, active: seq<Running>, drafts: seq<seq<TokenId>>, steps: seq<seq<VerifyStep>>)
    requires |drafts| == |steps| == |active|
    requires var vs := VerifyAll(active, drafts); forall i :: 0 <= i < |vs| ==> Verifies(T, vs[i].ctx, vs[i].drafted, steps[i])
    ensures forall i :: 0 <= i < |active| ==> GoodDraft(T, active[i], drafts[i], steps[i])
  {
    var vs := VerifyAll(active, drafts);
    forall i | 0 <= i < |active| ensures GoodDraft(T, active[i], drafts[i], steps[i]) {
      assert Verifies(T, vs[i].ctx, vs[i].drafted, steps[i]);
    }
  }

  lemma RoundIsGood(T: Target, s: Sched, e: Event)
    requires e.Round? && e.served <= |s.active| && |e.drafts| == |e.steps| == |e.cuts| == |s.active|
    requires forall i :: 0 <= i < e.served ==> |e.drafts[i]| == |e.steps[i]|
    requires forall i :: 0 <= i < |s.active| ==> s.active[i].req.id in s.streams
    requires forall i :: 0 <= i < |s.active| ==> GoodDraft(T, s.active[i], e.drafts[i], e.steps[i])
    ensures GoodRound(T, s, e)
  {}

  lemma RoundKeepsLimits(s: Sched, e: Event, ds: seq<DraftReq>, window: nat)
    requires e.Round? && |e.drafts| == |ds| == |s.active|
    requires forall i :: 0 <= i < |s.active| ==>
      && s.active[i].count <= s.active[i].req.maxNew
      && ds[i] == DraftReq(s.active[i].session.context, Min(window, s.active[i].req.maxNew - s.active[i].count))
      && |e.drafts[i]| <= ds[i].max
    ensures KeepsLimits(s, e)
  {}

  lemma IdleKeepsLimits(s: Sched, e: Event)
    requires e.Round? && e.served == 0
    ensures KeepsLimits(s, e)
  {}

  ghost function Idle(cuts: seq<nat>, n: nat): Event {
    Event.Round(seq(n, i => []), seq(n, i => []), cuts, 0)
  }

  lemma IdleIs(cuts: seq<nat>, n: nat)
    ensures var e := Idle(cuts, n); e.Round? && e.cuts == cuts && e.served == 0 && |e.drafts| == |e.steps| == n
  {}

  /** A step that fails before any commit is a round that serves nobody. */
  lemma IdleRound(T: Target, s: Sched, e: Event)
    requires Inv(T, s) && e.Round? && e == Idle(e.cuts, |s.active|) && |e.cuts| == |s.active|
    ensures GoodRound(T, s, e) && ServeUpTo(s, e.drafts, e.steps, e.cuts, 0) == s
  {
    OnBoardHaveStreams(T, s);
    forall i | 0 <= i < |s.active| ensures GoodDraft(T, s.active[i], e.drafts[i], e.steps[i]) {
      assert RunningOk(s, s.active[i]);
    }
  }

  lemma HasSlots(T: Target, s: Sched)
    requires Inv(T, s)
    ensures SlotsOk(s)
  {}

  lemma OnBoardHaveStreams(T: Target, s: Sched)
    requires Inv(T, s)
    ensures forall i :: 0 <= i < |s.active| ==> s.active[i].req.id in s.streams && (s.active[i].cancelled ==> s.active[i].req.id in s.closed)
    ensures forall i, j :: 0 <= i < j < |s.active| ==> s.active[i].req.id != s.active[j].req.id
  {
    forall i | 0 <= i < |s.active| ensures s.active[i].req.id in s.streams && (s.active[i].cancelled ==> s.active[i].req.id in s.closed) {
      assert RunningOk(s, s.active[i]);
    }
  }
}
