/** Whole runs of the disaggregated pool: calls and heartbeats in any order on a fresh pool. */
module DisaggRuns {
  import opened WireFormat
  import opened Nixl
  import opened RoundRobin
  import opened Disagg

  datatype Op =
    | Prefill(task: PrefillTask)
    | Pipeline(task: PrefillTask)
    | Dispatch
    | Beat(id: nat, utilisation: real, freeTokens: nat)

  /** What a call returns: the decode tasks it yields and the decode nodes it dispatches to. */
  datatype Out = Out(tasks: seq<DecodeTask>, nodes: seq<nat>)

  /** Request ids are 64-bit. */
  predicate Legal(op: Op) {
    op.Prefill? || op.Pipeline? ==> op.task.requestId < U64
  }

  // ----- What a run should do -----

  /** The pool seen from outside: `p` prefill nodes, then `d` decode nodes, their reported load, and the counters. */
  datatype View = View(p: nat, d: nat, size: nat, peers: map<nat, PeerStatus>, stats: DisaggStats)

  ghost predicate Sane(v: View) {
    v.p > 0 && v.d > 0
  }

  ghost predicate Room(v: View, n: nat) {
    exists i: nat :: v.p <= i < v.p + v.d && i in v.peers && v.peers[i].freeTokens >= n
  }

  ghost function Yield(v: View, task: PrefillTask): seq<DecodeTask>
    requires Sane(v)
  {
    if Room(v, |task.tokens|) then [TaskFor(task, Pick(v.stats.prefillTasksRouted, v.p, U64), v.size)] else []
  }

  ghost function NextNode(v: View): nat
    requires Sane(v)
  {
    v.p + Pick(v.stats.decodeTasksDispatched, v.d, U64)
  }

  ghost function Routed(v: View, task: PrefillTask): DisaggStats {
    Count(v.stats, if Room(v, |task.tokens|) then Migrated(HEADER + |Cut(PayloadOr(task.kvPayload), v.size)|) else Failed)
  }

  ghost function Result(v: View, op: Op): Out
    requires Sane(v)
  {
    match op
    case Prefill(task) => Out(Yield(v, task), [])
    case Pipeline(task) => Out(Yield(v, task), if Room(v, |task.tokens|) then [NextNode(v)] else [])
    case Dispatch => Out([], [NextNode(v)])
    case Beat(_, _, _) => Out([], [])
  }

  ghost function After(v: View, op: Op): View {
    match op
    case Prefill(task) => v.(stats := Routed(v, task))
    case Pipeline(task) => v.(stats := if Room(v, |task.tokens|) then Count(Routed(v, task), Dispatched) else Routed(v, task))
    case Dispatch => v.(stats := Count(v.stats, Dispatched))
    case Beat(id, utilisation, freeTokens) =>
      if id in v.peers then v.(peers := v.peers[id := PeerStatus(id, utilisation, freeTokens)]) else v
  }

  ghost function AfterAll(v: View, ops: seq<Op>): View {
    if ops == [] then v else After(AfterAll(v, ops[..|ops| - 1]), ops[|ops| - 1])
  }

  lemma {:induction false} AfterAllShape(v: View, ops: seq<Op>)
    ensures AfterAll(v, ops).p == v.p && AfterAll(v, ops).d == v.d && AfterAll(v, ops).size == v.size
  {
    if ops != [] {
      AfterAllShape(v, ops[..|ops| - 1]);
    }
  }

  /** A fresh pool: every node idle with the same free room. */
  ghost function Fresh(p: nat, d: nat, size: nat, capacity: nat): View {
    View(p, d, size, map i: nat | i < p + d :: PeerStatus(i, 0.0, capacity), NO_STATS)
  }

  // ----- The calls -----

  ghost function ViewOf(pool: DisaggPool): View
    reads pool, pool.registry
  {
    View(|pool.prefillAgents|, |pool.decodeAgents|, pool.BlockBytes(), pool.registry.peers, pool.stats)
  }

  lemma RoomSame(pool: DisaggPool, n: nat)
    requires pool.Shape()
    ensures pool.HasRoom(n) <==> Room(ViewOf(pool), n)
  {
    pool.IdsInOrder();
    var v := ViewOf(pool);
    if Room(v, n) {
      var i: nat :| v.p <= i < v.p + v.d && i in v.peers && v.peers[i].freeTokens >= n;
      assert pool.decodeAgents[i - v.p].nodeId == i;
    }
    if pool.HasRoom(n) {
      var i :| 0 <= i < |pool.decodeAgents| && pool.decodeAgents[i].nodeId in pool.registry.peers
               && pool.registry.peers[pool.decodeAgents[i].nodeId].freeTokens >= n;
      assert pool.decodeAgents[i].nodeId == v.p + i;
    }
  }

  lemma AgentFacts(pool: DisaggPool, j: nat)
    requires pool.Shape()
    ensures var i := Pick(j, |pool.prefillAgents|, U64);
            pool.prefillAgents[i].nodeId == i && pool.prefillAgents[i].dma.blockBytes == pool.BlockBytes()
    ensures var i := Pick(j, |pool.decodeAgents|, U64); pool.decodeAgents[i].nodeId == |pool.prefillAgents| + i
  {
    pool.IdsInOrder();
    var i := Pick(j, |pool.prefillAgents|, U64);
    assert pool.Agents()[i] == pool.prefillAgents[i];
  }

  /** One call. Between calls no region is in use and every inbox is empty; a prompt yields its one decode task if some
      decode node has room for it and none otherwise; the counters move as they should. */
  method Apply(pool: DisaggPool, op: Op) returns (out: Out)
    requires pool.Valid() && Legal(op)
    modifies pool, pool.registry, pool.inboxes, pool.prefillAgents, Pools(pool.Agents())
    ensures pool.Valid() && AllEmpty(pool.inboxes.boxes)
    ensures Sane(old(ViewOf(pool))) && out == Result(old(ViewOf(pool)), op)
    ensures ViewOf(pool) == After(old(ViewOf(pool)), op)
  {
    hide Cut, Room, DisaggPool.HasRoom, Ready, AllEmpty, Wired, OwnRegions;
    ghost var v := ViewOf(pool);
    match op
    case Prefill(task) =>
      RoomSame(pool, |task.tokens|);
      AgentFacts(pool, pool.stats.prefillTasksRouted);
      var tasks := pool.RunPrefill(task);
      RoomSame(pool, |task.tokens|);
      out := Out(tasks, []);
    case Pipeline(task) =>
      RoomSame(pool, |task.tokens|);
      AgentFacts(pool, pool.stats.prefillTasksRouted);
      AgentFacts(pool, pool.stats.decodeTasksDispatched);
      var placed := pool.RunPipeline(task);
      RoomSame(pool, |task.tokens|);
      out := Out(seq(|placed|, i requires 0 <= i < |placed| => placed[i].0), seq(|placed|, i requires 0 <= i < |placed| => placed[i].1));
    case Dispatch =>
      AgentFacts(pool, pool.stats.decodeTasksDispatched);
      var node := pool.DispatchDecode();
      out := Out([], [node]);
    case Beat(id, utilisation, freeTokens) =>
      HeartbeatOn(pool, id, utilisation, freeTokens);
      out := Out([], []);
  }

  /** A load report between calls. */
  method HeartbeatOn(pool: DisaggPool, id: nat, utilisation: real, freeTokens: nat)
    requires pool.Valid()
    modifies pool.registry
    ensures pool.Valid() && ViewOf(pool) == After(old(ViewOf(pool)), Beat(id, utilisation, freeTokens))
  {
    hide DmaBlockManager.Full, NodeRegistry.Valid, AllEmpty;
    pool.registry.Heartbeat(id, utilisation, freeTokens);
  }

  // ----- Facts about every run -----

  function Tasks(outs: seq<Out>): nat {
    if outs == [] then 0 else Tasks(outs[..|outs| - 1]) + |outs[|outs| - 1].tasks|
  }

  /** Sixteen bytes of header and the payload, for every task yielded. */
  function BytesIn(outs: seq<Out>): nat {
    if outs == [] then 0 else BytesIn(outs[..|outs| - 1]) + TaskBytes(outs[|outs| - 1].tasks)
  }

  function TaskBytes(tasks: seq<DecodeTask>): nat {
    if tasks == [] then 0 else TaskBytes(tasks[..|tasks| - 1]) + 16 + |tasks[|tasks| - 1].remoteBlock.payload|
  }

  /** The nodes dispatched to, in order. */
  function Nodes(outs: seq<Out>): seq<nat> {
    if outs == [] then [] else Nodes(outs[..|outs| - 1]) + outs[|outs| - 1].nodes
  }

  function Prompts(ops: seq<Op>): nat {
    if ops == [] then 0
    else Prompts(ops[..|ops| - 1]) + if ops[|ops| - 1].Prefill? || ops[|ops| - 1].Pipeline? then 1 else 0
  }

  /** Call `i` returned what the view before it says. */
  ghost predicate Answered(v: View, ops: seq<Op>, outs: seq<Out>)
    requires Sane(v)
  {
    && |outs| == |ops|
    && forall i: nat :: i < |ops| ==> AnswerAt(v, ops, outs, i)
  }

  ghost predicate AnswerAt(v: View, ops: seq<Op>, outs: seq<Out>, i: nat)
    requires Sane(v) && i < |ops| && i < |outs|
  {
    AfterAllShape(v, ops[..i]);
    outs[i] == Result(AfterAll(v, ops[..i]), ops[i])
  }

  lemma AnsweredFront(v: View, ops: seq<Op>, outs: seq<Out>)
    requires Sane(v) && Answered(v, ops, outs) && ops != []
    ensures Answered(v, ops[..|ops| - 1], outs[..|outs| - 1])
  {
    var n := |ops| - 1;
    forall i: nat | i < n ensures AnswerAt(v, ops[..n], outs[..n], i) {
      assert AnswerAt(v, ops, outs, i);
      assert ops[..n][..i] == ops[..i];
    }
  }

  lemma AnsweredSnoc(v: View, ops: seq<Op>, outs: seq<Out>, op: Op, out: Out)
    requires Sane(v) && Answered(v, ops, outs) && Sane(AfterAll(v, ops)) && out == Result(AfterAll(v, ops), op)
    ensures Answered(v, ops + [op], outs + [out]) && AfterAll(v, ops + [op]) == After(AfterAll(v, ops), op)
  {
    var ops', outs' := ops + [op], outs + [out];
    assert ops'[..|ops|] == ops;
    forall i: nat | i < |ops'| ensures AnswerAt(v, ops', outs', i) {
      if i < |ops| {
        assert AnswerAt(v, ops, outs, i);
        assert ops'[..i] == ops[..i];
      }
    }
  }

  /** Over every run from zero counters: one count per prompt, each migrated or failed, as many tasks yielded as blocks
      migrated, dispatches in turn; and where every prompt goes through the pipeline and nothing else dispatches,
      exactly the migrated blocks are dispatched. */
  lemma {:induction false} RunCounts(v: View, ops: seq<Op>, outs: seq<Out>)
    requires Sane(v) && v.stats == NO_STATS && Answered(v, ops, outs)
    ensures var s := AfterAll(v, ops).stats;
            && s.prefillTasksRouted == s.kvBlocksMigrated + s.migrationFailures == Prompts(ops)
            && s.kvBlocksMigrated == Tasks(outs) && s.kvBytesMigrated == BytesIn(outs)
            && s.decodeTasksDispatched == |Nodes(outs)|
            && ((forall i :: 0 <= i < |ops| ==> ops[i].Pipeline? || ops[i].Beat?) ==> s.decodeTasksDispatched == s.kvBlocksMigrated)
    ensures forall j: nat :: j < |Nodes(outs)| ==> Nodes(outs)[j] == v.p + Pick(j, v.d, U64)
  {
    if ops != [] {
      var n := |ops| - 1;
      AnsweredFront(v, ops, outs);
      RunCounts(v, ops[..n], outs[..n]);
      assert AnswerAt(v, ops, outs, n);
      AfterAllShape(v, ops[..n]);
      hide Room, Pick, Cut;
      CountsStep(v, AfterAll(v, ops[..n]), ops[n], outs[n], Nodes(outs[..n]));
    }
  }

  lemma CountsStep(v: View, w: View, op: Op, out: Out, nodes: seq<nat>)
    requires Sane(w) && w.p == v.p && w.d == v.d && out == Result(w, op) && w.stats.decodeTasksDispatched == |nodes|
    requires forall j: nat :: j < |nodes| ==> nodes[j] == v.p + Pick(j, v.d, U64)
    ensures forall j: nat :: j < |nodes + out.nodes| ==> (nodes + out.nodes)[j] == v.p + Pick(j, v.d, U64)
    ensures var s, t := w.stats, After(w, op).stats;
            && t.prefillTasksRouted == s.prefillTasksRouted + (if op.Prefill? || op.Pipeline? then 1 else 0)
            && t.kvBlocksMigrated == s.kvBlocksMigrated + |out.tasks| && t.kvBytesMigrated == s.kvBytesMigrated + TaskBytes(out.tasks)
            && t.kvBlocksMigrated + t.migrationFailures - t.prefillTasksRouted == s.kvBlocksMigrated + s.migrationFailures - s.prefillTasksRouted
            && t.decodeTasksDispatched == s.decodeTasksDispatched + |out.nodes|
            && (op.Pipeline? || op.Beat? ==> |out.nodes| == |out.tasks|)
  {
    if op.Prefill? || op.Pipeline? {
      TaskCarries(op.task, Pick(w.stats.prefillTasksRouted, w.p, U64), w.size);
      OneTaskBytes(TaskFor(op.task, Pick(w.stats.prefillTasksRouted, w.p, U64), w.size));
    }
    hide Room, Pick, Cut, TaskFor, TaskBytes;
    NoTaskBytes();
  }

  lemma OneTaskBytes(t: DecodeTask)
    ensures TaskBytes([t]) == 16 + |t.remoteBlock.payload|
  {
    assert [t][..0] == [];
  }

  lemma NoTaskBytes()
    ensures TaskBytes([]) == 0
  {}

  /** A prompt's call yields the prompt's own task if some decode node has room, and nothing otherwise. */
  ghost predicate YieldsOwn(v: View, op: Op, out: Out) {
    op.Prefill? || op.Pipeline? ==>
      if Room(v, |op.task.tokens|) then |out.tasks| == 1 && IsOwnTask(op.task, v.size, out.tasks[0].prefillOrigin, out.tasks[0])
                                        && out.tasks[0].prefillOrigin < v.p
      else out.tasks == []
  }

  lemma ResultYieldsOwn(v: View, op: Op)
    requires Sane(v)
    ensures YieldsOwn(v, op, Result(v, op))
  {
    if op.Prefill? || op.Pipeline? {
      TaskCarries(op.task, Pick(v.stats.prefillTasksRouted, v.p, U64), v.size);
    }
  }

  function Occurrences(nodes: seq<nat>, x: nat): nat {
    if nodes == [] then 0 else Occurrences(nodes[..|nodes| - 1], x) + if nodes[|nodes| - 1] == x then 1 else 0
  }

  /** Dispatching in turn gives each node its number of picks. */
  lemma {:induction false} OccurrencesArePicks(nodes: seq<nat>, p: nat, d: nat, a: nat)
    requires d > 0 && forall j: nat :: j < |nodes| ==> nodes[j] == p + Pick(j, d, U64)
    ensures Occurrences(nodes, p + a) == Picks(|nodes|, d, U64, a)
  {
    hide Pick;
    if nodes != [] {
      OccurrencesArePicks(nodes[..|nodes| - 1], p, d, a);
    }
  }

  /** If the number of decode nodes does not divide the cursor's range, every run that dispatches once past the wrap
      leaves the first decode node two ahead of the last. */
  lemma UnevenRun(v: View, ops: seq<Op>, outs: seq<Out>)
    requires Sane(v) && v.stats == NO_STATS && Answered(v, ops, outs)
    requires v.d <= U64 && U64 % v.d != 0 && |Nodes(outs)| == U64 + 1
    ensures Occurrences(Nodes(outs), v.p) == Occurrences(Nodes(outs), v.p + v.d - 1) + 2
  {
    hide Picks, Pick, Occurrences, Answered;
    RunCounts(v, ops, outs);
    OccurrencesArePicks(Nodes(outs), v.p, v.d, 0);
    OccurrencesArePicks(Nodes(outs), v.p, v.d, v.d - 1);
    UnevenAfterWrap(v.d, U64);
  }

  /** Any run of calls and heartbeats on a fresh pool. */
  method Drive(p: nat, d: nat, size: nat, poolSize: nat, capacity: nat, ops: seq<Op>) returns (outs: seq<Out>, stats: DisaggStats)
    requires p > 0 && d > 0 && forall i :: 0 <= i < |ops| ==> Legal(ops[i])
    ensures Answered(Fresh(p, d, size, capacity), ops, outs)
    ensures stats == AfterAll(Fresh(p, d, size, capacity), ops).stats
    ensures stats.prefillTasksRouted == stats.kvBlocksMigrated + stats.migrationFailures == Prompts(ops)
    ensures |outs| == |ops| && forall i: nat :: i < |ops| ==> YieldsOwn(AfterAll(Fresh(p, d, size, capacity), ops[..i]), ops[i], outs[i])
    ensures stats.kvBytesMigrated == BytesIn(outs)
    ensures stats.kvBlocksMigrated == Tasks(outs) && stats.decodeTasksDispatched == |Nodes(outs)|
    ensures (forall i :: 0 <= i < |ops| ==> ops[i].Pipeline? || ops[i].Beat?) ==> stats.decodeTasksDispatched == stats.kvBlocksMigrated
    ensures forall a: nat :: a < d ==> Occurrences(Nodes(outs), p + a) == Picks(|Nodes(outs)|, d, U64, a)
    ensures |Nodes(outs)| <= U64 || U64 % d == 0 ==> Even(|Nodes(outs)|, d, U64)
  {
    hide After, Result, Picks, Even, Pools, Cut, YieldsOwn;
    ghost var v := Fresh(p, d, size, capacity);
    var pool := new DisaggPool(p, d, size, poolSize, capacity);
    assert ViewOf(pool) == v;
    outs := [];
    for n := 0 to |ops|
      invariant fresh(pool) && fresh(pool.registry) && fresh(pool.inboxes) && fresh(pool.prefillAgents) && fresh(Pools(pool.Agents()))
      invariant pool.Valid() && ViewOf(pool) == AfterAll(v, ops[..n])
      invariant Answered(v, ops[..n], outs)
    {
      var out := Apply(pool, ops[n]);
      AnsweredSnoc(v, ops[..n], outs, ops[n], out);
      assert ops[..n + 1] == ops[..n] + [ops[n]];
      outs := outs + [out];
    }
    assert ops[..|ops|] == ops;
    stats := pool.stats;
    RunCounts(v, ops, outs);
    forall i: nat | i < |ops| ensures YieldsOwn(AfterAll(v, ops[..i]), ops[i], outs[i]) {
      assert AnswerAt(v, ops, outs, i);
      AfterAllShape(v, ops[..i]);
      ResultYieldsOwn(AfterAll(v, ops[..i]), ops[i]);
    }
    forall a: nat | a < d ensures Occurrences(Nodes(outs), p + a) == Picks(|Nodes(outs)|, d, U64, a) {
      OccurrencesArePicks(Nodes(outs), p, d, a);
    }
    if |Nodes(outs)| <= U64 {
      EvenBeforeWrap(|Nodes(outs)|, d, U64);
    } else if U64 % d == 0 {
      EvenWhenDivides(|Nodes(outs)|, d, U64);
    }
  }
}
