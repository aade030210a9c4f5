/** Why every caller is served in the end: what the worker still owes falls with every turn. */
module Liveness {
  import opened Common
  import opened Speculative
  import opened BatchDecoding
  import opened Scheduling
  import opened Delivery

  // ----- Sums -----

  ghost function Sum(xs: seq<nat>): nat {
    if xs == [] then 0 else Sum(xs[..|xs| - 1]) + xs[|xs| - 1]
  }

  lemma SumSnoc(xs: seq<nat>, x: nat)
    ensures Sum(xs + [x]) == Sum(xs) + x
  {
    assert (xs + [x])[..|xs|] == xs;
  }

  lemma {:induction false} SumRemove(xs: seq<nat>, i: nat)
    requires i < |xs|
    ensures Sum(xs) == Sum(xs[..i] + xs[i + 1..]) + xs[i]
  {
    var n := |xs| - 1;
    if i == n {
      assert xs[..i] + xs[i + 1..] == xs[..n];
    } else {
      SumRemove(xs[..n], i);
      assert xs[..i] + xs[i + 1..] == (xs[..n][..i] + xs[..n][i + 1..]) + [xs[n]];
      SumSnoc(xs[..n][..i] + xs[..n][i + 1..], xs[n]);
    }
  }

  /** One less everywhere is as much less in all as there are places. */
  lemma {:induction false} SumDrops(xs: seq<nat>, ys: seq<nat>)
    requires |xs| == |ys| && forall i :: 0 <= i < |xs| ==> xs[i] + 1 <= ys[i]
    ensures Sum(xs) + |xs| <= Sum(ys)
  {
    if xs != [] {
      SumDrops(xs[..|xs| - 1], ys[..|ys| - 1]);
    }
  }

  lemma NoneLeft(xs: seq<nat>)
    requires Sum(xs) == 0 && forall i :: 0 <= i < |xs| ==> xs[i] > 0
    ensures xs == []
  {}

  // ----- What is owed -----

  /** A request that asks for nothing still takes a turn. */
  function AtLeastOne(n: nat): nat {
    if n == 0 then 1 else n
  }

  ghost function Debts(pending: seq<Req>): (ns: seq<nat>)
    ensures |ns| == |pending| && forall i :: 0 <= i < |pending| ==> ns[i] == AtLeastOne(pending[i].maxNew)
  {
    seq(|pending|, i requires 0 <= i < |pending| => AtLeastOne(pending[i].maxNew))
  }

  ghost function Dues(active: seq<Running>): (ns: seq<nat>)
    ensures |ns| == |active| && forall i :: 0 <= i < |active| ==> ns[i] == AtLeastOne(Left(active[i]))
  {
    seq(|active|, i requires 0 <= i < |active| => AtLeastOne(Left(active[i])))
  }

  ghost function Lefts(active: seq<Running>): (ns: seq<nat>)
    ensures |ns| == |active| && forall i :: 0 <= i < |active| ==> ns[i] == Left(active[i])
  {
    seq(|active|, i requires 0 <= i < |active| => Left(active[i]))
  }

  /** Tokens owed to those on board and to those waiting. */
  ghost function Owing(s: Sched): nat {
    Sum(Dues(s.active)) + Sum(Debts(s.pending))
  }

  // ----- Runs in which nothing goes wrong -----

  ghost predicate InProgress(s: Sched, id: nat) {
    || id in s.done
    || (exists i :: 0 <= i < |s.active| && s.active[i].req.id == id)
    || (exists i :: 0 <= i < |s.pending| && s.pending[i].id == id)
  }

  /** Nobody hung up or was dropped, no slot is lost, and every request is waiting, on board or completed. */
  ghost predicate Smooth(s: Sched) {
    && s.closed == {} && s.lost == []
    && (forall i :: 0 <= i < |s.active| ==> !s.active[i].cancelled)
    && forall id: nat :: id in s.reqs ==> InProgress(s, id)
  }

  /** Where nothing is owed, everything is completed. */
  lemma NothingOwing(s: Sched)
    requires Smooth(s) && Owing(s) == 0
    ensures forall id: nat :: id in s.reqs ==> id in s.done
  {
    NoneLeft(Dues(s.active));
    NoneLeft(Debts(s.pending));
    assert |s.active| == 0 && |s.pending| == 0;
    forall id: nat | id in s.reqs ensures id in s.done {
      assert InProgress(s, id);
    }
  }

  lemma StartSmooth(capacity: nat)
    ensures Smooth(Start(capacity)) && Owing(Start(capacity)) == 0
  {}

  lemma ArrivedSmooth(s: Sched, r: Req)
    requires Smooth(s)
    ensures Smooth(Arrived(s, r)) && Owing(Arrived(s, r)) == Owing(s) + AtLeastOne(r.maxNew)
  {
    var s' := Arrived(s, r);
    assert Debts(s'.pending) == Debts(s.pending) + [AtLeastOne(r.maxNew)];
    SumSnoc(Debts(s.pending), AtLeastOne(r.maxNew));
    forall id: nat | id in s'.reqs ensures InProgress(s', id) {
      if id == r.id {
        assert s'.pending[|s.pending|].id == id;
      } else {
        assert InProgress(s, id);
        assert forall i :: 0 <= i < |s.pending| ==> s'.pending[i] == s.pending[i];
      }
    }
  }

  lemma HasFreeSlot(s: Sched)
    requires SlotsOk(s) && s.lost == [] && |s.active| < s.capacity
    ensures s.free != []
  {}

  /** Below capacity a successful admission takes the oldest waiting request on board, and what is owed stays. */
  lemma AdmitSmooth(s: Sched, dw: nat, mw: nat)
    requires Smooth(s) && SlotsOk(s) && |s.active| < s.capacity && s.pending != []
    ensures Smooth(Admit(s, true, dw, mw)) && Owing(Admit(s, true, dw, mw)) == Owing(s)
  {
    hide SlotsOk, InProgress, Owing;
    HasFreeSlot(s);
    AdmitOwing(s, dw, mw);
    var s' := Admit(s, true, dw, mw);
    forall id: nat | id in s'.reqs ensures InProgress(s', id) {
      AdmitInProgress(s, dw, mw, id);
    }
  }

  lemma AdmitOwing(s: Sched, dw: nat, mw: nat)
    requires s.pending != [] && s.free != []
    ensures Owing(Admit(s, true, dw, mw)) == Owing(s)
  {
    hide Sum;
    var s', due := Admit(s, true, dw, mw), AtLeastOne(s.pending[0].maxNew);
    assert Dues(s'.active) == Dues(s.active) + [due];
    SumSnoc(Dues(s.active), due);
    SumRemove(Debts(s.pending), 0);
    assert Debts(s'.pending) == Debts(s.pending)[..0] + Debts(s.pending)[1..];
  }

  lemma AdmitInProgress(s: Sched, dw: nat, mw: nat, id: nat)
    requires InProgress(s, id) && s.pending != [] && s.free != []
    ensures InProgress(Admit(s, true, dw, mw), id)
  {
    var s' := Admit(s, true, dw, mw);
    if i :| 0 <= i < |s.active| && s.active[i].req.id == id {
      assert s'.active[i].req.id == id;
    } else if i :| 0 <= i < |s.pending| && s.pending[i].id == id {
      if i == 0 {
        assert s'.active[|s.active|].req.id == id;
      } else {
        assert s'.pending[i - 1].id == id;
      }
    }
  }

  /** The tokens a round adds to a productive, bounded draft: at least one, unless nothing is left, and never more than drafted. */
  lemma GainedAtLeastOne(drafted: seq<TokenId>, steps: seq<VerifyStep>, n: nat)
    requires |drafted| == |steps| && AgreesUpTo(drafted, steps, n)
    ensures |Gained(drafted, steps, n)| <= |drafted| && (drafted != [] ==> |Gained(drafted, steps, n)| > 0)
  {}

  /** Everybody on board is still there and listening, with less to go. */
  ghost predicate RoundPays(before: Sched, after: Sched) {
    && |after.active| == |before.active|
    && after.closed == {} && after.lost == before.lost && after.pending == before.pending && after.done == before.done && after.reqs == before.reqs
    && forall i :: 0 <= i < |before.active| ==> Pays(before.active[i], after.active[i])
  }

  ghost predicate Pays(r: Running, r': Running) {
    r'.req == r.req && !r'.cancelled && Left(r') + 1 <= AtLeastOne(Left(r))
  }

  /** A caller who listens to the whole of a productive, bounded draft is paid. */
  lemma DeliveryPays(before: Sched, after: Sched, i: nat, drafted: seq<TokenId>, steps: seq<VerifyStep>, cut: nat, window: nat)
    requires |drafted| == |steps| && i < |before.active| == |after.active| && SomeDelivered(before, after, i, drafted, steps, cut)
    requires before.closed == {} && !before.active[i].cancelled && 0 < window <= cut
    requires |drafted| <= Min(window, Left(before.active[i])) && (Left(before.active[i]) > 0 ==> drafted != [])
    ensures Pays(before.active[i], after.active[i]) && before.active[i].req.id !in after.closed
  {
    var n: nat :| Delivered(before, after, i, drafted, steps, cut, n);
    GainedAtLeastOne(drafted, steps, n);
    hide Gained, AgreesUpTo;
  }

  lemma RoundServesPays(before: Sched, after: Sched, drafts: seq<seq<TokenId>>, steps: seq<seq<VerifyStep>>, cuts: seq<nat>, window: nat)
    requires |before.active| == |drafts| == |steps| == |cuts| && RoundServes(before, after, drafts, steps, cuts, |drafts|)
    requires Smooth(before) && window > 0 && forall i :: 0 <= i < |cuts| ==> cuts[i] >= window
    requires forall i :: 0 <= i < |drafts| ==>
      |drafts[i]| <= Min(window, Left(before.active[i])) && (Left(before.active[i]) > 0 ==> drafts[i] != [])
    ensures RoundPays(before, after)
  {
    hide SomeDelivered, Left, Pays;
    forall i | 0 <= i < |drafts| ensures Pays(before.active[i], after.active[i]) && before.active[i].req.id !in after.closed {
      DeliveryPays(before, after, i, drafts[i], steps[i], cuts[i], window);
    }
    forall id: nat ensures id !in after.closed {
      if NotAmong(before.active, |drafts|, id) {
        assert id !in before.closed;
      }
    }
  }

  /** With models that answer, a step pays everybody on board. */
  lemma StepPays(before: Sched, after: Sched, window: nat, draft: DraftBatchFn, verify: VerifyBatchFn, call: nat, cuts: seq<nat>, r: Result<(), SpecError>)
    requires |cuts| == |before.active| && StepReturns(before, after, window, draft, verify, call, cuts, r)
    requires Smooth(before) && window > 0 && forall i :: 0 <= i < |cuts| ==> cuts[i] >= window
    requires CooperateBatch(draft, verify) && OnePerRequest(draft) && Productive(draft) && Bounded(draft)
    ensures RoundPays(before, after)
  {
    hide Smooth, RoundServes, RoundPays, Bounded, Productive, OnePerRequest;
    var ds := LimitsOf(before.active, window);
    DraftFacts(draft, call, ds);
    var drafts := AllTokens(draft(call, ds).value);
    var asked := VerifyAll(before.active, drafts);
    assert RightLengths(asked, verify(call, asked).value);
    RoundServesPays(before, after, drafts, verify(call, asked).value, cuts, window);
  }

  /** After such a round nobody is cancelled and what is left has dropped by one for each request on board. */
  lemma PaidSmooth(before: Sched, after: Sched)
    requires Smooth(before) && RoundPays(before, after)
    ensures Smooth(after) && Sum(Lefts(after.active)) + Sum(Debts(after.pending)) + |before.active| <= Owing(before)
  {
    hide Left;
    SumDrops(Lefts(after.active), Dues(before.active));
    forall id: nat | id in after.reqs ensures InProgress(after, id) {
      assert InProgress(before, id);
      if i :| 0 <= i < |before.active| && before.active[i].req.id == id {
        assert Pays(before.active[i], after.active[i]);
        assert after.active[i].req.id == id;
      }
    }
  }

  /** A finished request that leaves is completed, and had nothing left. */
  lemma LeaveSmooth(s: Sched, i: nat)
    requires Smooth(s) && i < |s.active| && Leaves(s, s.active[i])
    ensures Smooth(Leave(s, i)) && Sum(Lefts(Leave(s, i).active)) == Sum(Lefts(s.active)) && Leave(s, i).pending == s.pending
  {
    hide Sum;
    var s' := Leave(s, i);
    SumRemove(Lefts(s.active), i);
    assert Lefts(s'.active) == Lefts(s.active)[..i] + Lefts(s.active)[i + 1..];
    forall id: nat | id in s'.reqs ensures InProgress(s', id) {
      assert InProgress(s, id);
      if j :| 0 <= j < |s.active| && s.active[j].req.id == id {
        if j < i {
          assert s'.active[j].req.id == id;
        } else if j > i {
          assert s'.active[j - 1].req.id == id;
        }
      }
    }
  }

  lemma {:induction false} CleanSmooth(s: Sched, i: nat)
    requires Smooth(s)
    ensures var s' := CleanFrom(s, i); Smooth(s') && Sum(Lefts(s'.active)) == Sum(Lefts(s.active)) && s'.pending == s.pending
    decreases |s.active| - i
  {
    hide Smooth, Leaves, Leave;
    if i < |s.active| {
      if Leaves(s, s.active[i]) {
        LeaveSmooth(s, i);
        LeaveShrinks(s, i);
        CleanSmooth(Leave(s, i), i);
      } else {
        CleanSmooth(s, i + 1);
      }
    }
  }

  lemma LeaveShrinks(s: Sched, i: nat)
    requires i < |s.active|
    ensures |Leave(s, i).active| == |s.active| - 1
  {}

  /** A turn up to its clean-up: either everybody on board was paid, or nobody was and nothing is owed. */
  lemma TurnPays(before: Sched, after: Sched)
    requires Smooth(before) && if before.active == [] then before.pending == [] && after == before else RoundPays(before, after)
    ensures Smooth(after) && Sum(Lefts(after.active)) + Sum(Debts(after.pending)) <= SatSub(Owing(before), 1)
    ensures var s := CleanFrom(after, 0);
            Smooth(s) && Sum(Lefts(s.active)) + Sum(Debts(s.pending)) <= SatSub(Owing(before), 1)
  {
    hide Smooth, RoundPays, CleanFrom;
    if before.active != [] {
      PaidSmooth(before, after);
    }
    CleanSmooth(after, 0);
  }

  lemma OwingIs(s: Sched)
    requires forall i :: 0 <= i < |s.active| ==> s.active[i].count < s.active[i].req.maxNew
    ensures Owing(s) == Sum(Lefts(s.active)) + Sum(Debts(s.pending))
  {
    OnlyLefts(s.active);
  }

  /** Once the finished have left, what is owed on board is what is left. */
  lemma OnlyLefts(active: seq<Running>)
    requires forall i :: 0 <= i < |active| ==> active[i].count < active[i].req.maxNew
    ensures Dues(active) == Lefts(active)
  {}

  /** A turn in which nothing goes wrong: models that answer, drafts that are productive and keep to their limits, admissions
      that succeed, and callers who listen to all that is sent. */
  ghost predicate TurnGoesWell(capacity: nat, window: nat, outcomes: nat -> bool, draft: DraftBatchFn, verify: VerifyBatchFn,
                               cuts: nat -> nat, late: set<nat>)
  {
    && capacity > 0 && window > 0 && Productive(draft) && Bounded(draft) && CooperateBatch(draft, verify)
    && (forall n :: outcomes(n)) && (forall i :: cuts(i) >= window) && late == {}
  }

  ghost predicate RunGoesWell(capacity: nat, window: nat, hangups: nat -> set<nat>, late: nat -> set<nat>, outcomes: (nat, nat) -> bool,
                              draft: DraftBatchFn, verify: VerifyBatchFn, cuts: (nat, nat) -> nat)
  {
    && capacity > 0 && window > 0 && Productive(draft) && Bounded(draft) && CooperateBatch(draft, verify)
    && (forall t, n :: outcomes(t, n)) && (forall t, i :: cuts(t, i) >= window)
    && (forall t :: hangups(t) == {}) && (forall t :: late(t) == {})
  }

  /** The tokens a list of submissions asks for; one that asks for none counts as one. */
  ghost function Weight(all: seq<(seq<TokenId>, nat)>): nat {
    if all == [] then 0 else Weight(all[..|all| - 1]) + AtLeastOne(all[|all| - 1].1)
  }

  lemma WeightSnoc(all: seq<(seq<TokenId>, nat)>, x: (seq<TokenId>, nat))
    ensures Weight(all + [x]) == Weight(all) + AtLeastOne(x.1)
  {
    assert (all + [x])[..|all|] == all;
  }

  /** Everything submitted before turn `n`, in order. */
  function AllArrivals(arrivals: nat -> seq<(seq<TokenId>, nat)>, n: nat): seq<(seq<TokenId>, nat)> {
    if n == 0 then [] else AllArrivals(arrivals, n - 1) + arrivals(n - 1)
  }

  /** Nobody submits anything from turn `quiet` on. */
  ghost predicate QuietFrom(arrivals: nat -> seq<(seq<TokenId>, nat)>, quiet: nat) {
    forall t :: t >= quiet ==> arrivals(t) == []
  }

  /** At most this much is owed before turn `turn`. */
  ghost function MostOwing(arrivals: nat -> seq<(seq<TokenId>, nat)>, quiet: nat, turn: nat): nat {
    if turn <= quiet then Weight(AllArrivals(arrivals, turn)) else SatSub(Weight(AllArrivals(arrivals, quiet)), turn - quiet)
  }

  lemma NothingDue(arrivals: nat -> seq<(seq<TokenId>, nat)>, quiet: nat, turn: nat)
    requires turn >= quiet + Weight(AllArrivals(arrivals, quiet))
    ensures MostOwing(arrivals, quiet, turn) == 0
  {}

  lemma MostOwingNext(arrivals: nat -> seq<(seq<TokenId>, nat)>, quiet: nat, turn: nat, before: nat, received: nat, after: nat)
    requires before <= MostOwing(arrivals, quiet, turn) && after <= SatSub(received, 1)
    requires received + Weight(AllArrivals(arrivals, turn)) == before + Weight(AllArrivals(arrivals, turn) + arrivals(turn))
    requires QuietFrom(arrivals, quiet)
    ensures after <= MostOwing(arrivals, quiet, turn + 1)
  {
    hide Weight;
    assert AllArrivals(arrivals, turn + 1) == AllArrivals(arrivals, turn) + arrivals(turn);
    if turn >= quiet {
      assert AllArrivals(arrivals, turn) + arrivals(turn) == AllArrivals(arrivals, turn);
    }
  }
}
