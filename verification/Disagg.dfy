/** Disaggregated serving: prefill nodes hand their blocks to decode nodes over the transfer fabric. */
module Disagg {
  import opened Common
  import opened WireFormat
  import opened Nixl
  import opened RoundRobin

  datatype PrefillTask = PrefillTask(requestId: nat, tokens: seq<TokenId>, kvPayload: Option<seq<byte>>)

  datatype DecodeTask = DecodeTask(requestId: nat, kvHandle: Handle, remoteBlock: RemoteBlock, prefillOrigin: nat)

  // ----- Counters -----

  datatype DisaggStats = DisaggStats(prefillTasksRouted: nat, decodeTasksDispatched: nat, kvBlocksMigrated: nat,
                                     kvBytesMigrated: nat, migrationFailures: nat)

  const NO_STATS: DisaggStats := DisaggStats(0, 0, 0, 0, 0)

  /** What a call can do to the counters. */
  datatype Event = Migrated(bytes: nat) | Failed | Dispatched

  function Count(s: DisaggStats, e: Event): DisaggStats {
    match e
    case Migrated(bytes) => s.(prefillTasksRouted := s.prefillTasksRouted + 1, kvBlocksMigrated := s.kvBlocksMigrated + 1,
                               kvBytesMigrated := s.kvBytesMigrated + bytes)
    case Failed => s.(prefillTasksRouted := s.prefillTasksRouted + 1, migrationFailures := s.migrationFailures + 1)
    case Dispatched => s.(decodeTasksDispatched := s.decodeTasksDispatched + 1)
  }

  // ----- Collecting what arrived -----

  function TaskOf(block: RemoteBlock, requestId: nat, origin: nat): seq<DecodeTask> {
    if block.handle.blockId == requestId then [DecodeTask(requestId, block.handle, block, origin)] else []
  }

  function TasksOf(blocks: seq<RemoteBlock>, requestId: nat, origin: nat): seq<DecodeTask> {
    if blocks == [] then [] else TasksOf(blocks[..|blocks| - 1], requestId, origin) + TaskOf(blocks[|blocks| - 1], requestId, origin)
  }

  /** The tasks from the first `k` nodes' inboxes. */
  function Collected(boxes: Boxes, ids: seq<nat>, k: nat, requestId: nat, origin: nat): seq<DecodeTask>
    requires k <= |ids|
  {
    if k == 0 then [] else Collected(boxes, ids, k - 1, requestId, origin) + TasksOf(Box(boxes, ids[k - 1]), requestId, origin)
  }

  ghost predicate AllEmpty(boxes: Boxes) {
    forall id: nat :: Box(boxes, id) == []
  }

  lemma NoTasks(requestId: nat, origin: nat)
    ensures TasksOf([], requestId, origin) == []
  {}

  lemma OneTask(block: RemoteBlock, origin: nat)
    ensures TasksOf([block], block.handle.blockId, origin) == [DecodeTask(block.handle.blockId, block.handle, block, origin)]
  {
    assert [block][..0] == [];
  }

  lemma {:induction false} NothingCollected(boxes: Boxes, ids: seq<nat>, k: nat, requestId: nat, origin: nat)
    requires k <= |ids| && forall i :: 0 <= i < k ==> Box(boxes, ids[i]) == []
    ensures Collected(boxes, ids, k, requestId, origin) == []
  {
    hide Box, TasksOf;
    if k > 0 {
      NoTasks(requestId, origin);
      NothingCollected(boxes, ids, k - 1, requestId, origin);
    }
  }

  /** One block in one inbox gives one task, whichever of the nodes it went to. */
  lemma {:induction false} OneCollected(boxes: Boxes, ids: seq<nat>, k: nat, at: nat, block: RemoteBlock, origin: nat)
    requires at < k <= |ids| && Distinct(ids)
    requires forall i :: 0 <= i < |ids| ==> Box(boxes, ids[i]) == if i == at then [block] else []
    ensures Collected(boxes, ids, k, block.handle.blockId, origin)
         == [DecodeTask(block.handle.blockId, block.handle, block, origin)]
  {
    hide Box, TasksOf;
    NoTasks(block.handle.blockId, origin);
    OneTask(block, origin);
    if at < k - 1 {
      OneCollected(boxes, ids, k - 1, at, block, origin);
    } else {
      NothingCollected(boxes, ids, k - 1, block.handle.blockId, origin);
    }
  }

  // ----- The pool -----

  /** The agents' wiring: one registry and one inbox table for all, a region pool each, ids in order. */
  ghost predicate Wired(agents: seq<CacheTransferAgent>, registry: NodeRegistry, inboxes: Inboxes) {
    forall i :: 0 <= i < |agents| ==>
      agents[i].registry == registry && agents[i].inboxes == inboxes && agents[i].nodeId == i
  }

  ghost predicate OwnRegions(agents: seq<CacheTransferAgent>) {
    forall i, j :: 0 <= i < j < |agents| ==> agents[i].dma != agents[j].dma
  }

  ghost function Pools(agents: seq<CacheTransferAgent>): (ds: set<DmaBlockManager>)
    ensures forall i :: 0 <= i < |agents| ==> agents[i].dma in ds
  {
    set i | 0 <= i < |agents| :: agents[i].dma
  }

  ghost predicate Ready(agents: seq<CacheTransferAgent>, registry: NodeRegistry)
    reads registry, Pools(agents)
  {
    && registry.Valid()
    && (forall i :: 0 <= i < |agents| ==> agents[i].dma.Full())
    && (forall i: nat :: i < |agents| ==> i in registry.peers)
  }

  lemma NoBoxes()
    ensures AllEmpty(map[])
  {}

  lemma EmptyEntry(boxes: Boxes, id: nat)
    requires AllEmpty(boxes)
    ensures AllEmpty(boxes[id := Box(boxes, id)])
  {
    var after := boxes[id := Box(boxes, id)];
    forall other: nat ensures Box(after, other) == [] {
      assert Box(boxes, other) == [];
    }
  }

  lemma WiredNone(registry: NodeRegistry, inboxes: Inboxes)
    ensures Wired([], registry, inboxes) && OwnRegions([])
  {}

  lemma WiredMore(agents: seq<CacheTransferAgent>, a: CacheTransferAgent, registry: NodeRegistry, inboxes: Inboxes)
    requires Wired(agents, registry, inboxes) && OwnRegions(agents) && a.dma !in Pools(agents)
    requires a.registry == registry && a.inboxes == inboxes && a.nodeId == |agents|
    ensures Wired(agents + [a], registry, inboxes) && OwnRegions(agents + [a])
  {}

  /** `build_fabric`: agents `0 .. count`, wired together. */
  method BuildFabric(count: nat, blockBytes: nat, poolSize: nat, capacityTokens: nat)
    returns (registry: NodeRegistry, inboxes: Inboxes, agents: seq<CacheTransferAgent>)
    ensures fresh(registry) && fresh(inboxes) && fresh(agents) && fresh(Pools(agents))
    ensures |agents| == registry.nextId == count && Wired(agents, registry, inboxes) && OwnRegions(agents) && Ready(agents, registry)
    ensures AllEmpty(inboxes.boxes)
    ensures forall i: nat :: i < count ==> agents[i].dma.blockBytes == blockBytes
                                           && i in registry.peers && registry.peers[i] == PeerStatus(i, 0.0, capacityTokens)
  {
    hide DmaBlockManager.Full, NodeRegistry.Valid, AllEmpty, OwnRegions, Wired;
    registry := new NodeRegistry();
    inboxes := new Inboxes();
    NoBoxes();
    agents := [];
    WiredNone(registry, inboxes);
    for n := 0 to count
      invariant fresh(registry) && fresh(inboxes) && fresh(agents) && fresh(Pools(agents))
      invariant |agents| == n && registry.nextId == n
      invariant Wired(agents, registry, inboxes) && OwnRegions(agents) && Ready(agents, registry)
      invariant AllEmpty(inboxes.boxes)
      invariant forall i: nat :: i < n ==> agents[i].dma.blockBytes == blockBytes
                                           && i in registry.peers && registry.peers[i] == PeerStatus(i, 0.0, capacityTokens)
    {
      EmptyEntry(inboxes.boxes, n);
      var a := new CacheTransferAgent(registry, inboxes, blockBytes, poolSize, capacityTokens);
      WiredMore(agents, a, registry, inboxes);
      agents := agents + [a];
    }
  }

  class DisaggPool {
    const prefillAgents: seq<CacheTransferAgent>
    const decodeAgents: seq<CacheTransferAgent>
    const registry: NodeRegistry
    ghost const inboxes: Inboxes
    var prefillCursor: nat
    var decodeCursor: nat
    var stats: DisaggStats

    ghost function Agents(): seq<CacheTransferAgent> {
      prefillAgents + decodeAgents
    }

    ghost predicate Shape() {
      && prefillAgents != [] && decodeAgents != []
      && Wired(Agents(), registry, inboxes) && OwnRegions(Agents())
      && forall i :: 0 <= i < |Agents()| ==> Agents()[i].dma.blockBytes == BlockBytes()
    }

    /** The region size, the same for every agent. */
    ghost function BlockBytes(): nat {
      if prefillAgents == [] then 0 else prefillAgents[0].dma.blockBytes
    }

    /** No region in use and every inbox empty. */
    ghost predicate Idle()
      reads registry, inboxes, Pools(Agents())
    {
      Shape() && Ready(Agents(), registry) && AllEmpty(inboxes.boxes)
    }

    /** Between calls: idle, every routed task accounted for,
        and each cursor counting its calls. */
    ghost predicate Valid()
      reads this, registry, inboxes, Pools(Agents())
    {
      && Idle()
      && stats.prefillTasksRouted == stats.kvBlocksMigrated + stats.migrationFailures
      && prefillCursor == stats.prefillTasksRouted % U64 && decodeCursor == stats.decodeTasksDispatched % U64
    }

    constructor (prefillCount: nat, decodeCount: nat, blockBytes: nat, poolSize: nat, capacity: nat)
      requires prefillCount > 0 && decodeCount > 0
      ensures Valid() && |prefillAgents| == prefillCount && |decodeAgents| == decodeCount
      ensures stats == NO_STATS && prefillCursor == 0 && decodeCursor == 0 && BlockBytes() == blockBytes
      ensures forall i: nat :: i in registry.peers <==> i < prefillCount + decodeCount
      ensures forall i: nat :: i < prefillCount + decodeCount ==> registry.peers[i] == PeerStatus(i, 0.0, capacity)
      ensures fresh(registry) && fresh(inboxes) && fresh(prefillAgents) && fresh(Pools(Agents()))
    {
      var reg, boxes, agents := BuildFabric(prefillCount + decodeCount, blockBytes, poolSize, capacity);
      prefillAgents := agents[..prefillCount];
      decodeAgents := agents[prefillCount..];
      registry := reg;
      inboxes := boxes;
      prefillCursor := 0;
      decodeCursor := 0;
      stats := NO_STATS;
      new;
      assert Agents() == agents;
      KnownNodes(reg);
    }

    function DecodeNodeIds(): (ids: seq<nat>)
      ensures |ids| == |decodeAgents| && forall i :: 0 <= i < |ids| ==> ids[i] == decodeAgents[i].nodeId
    {
      seq(|decodeAgents|, i requires 0 <= i < |decodeAgents| => decodeAgents[i].nodeId)
    }

    /** Some decode node has room for a prompt of `n` tokens. */
    ghost predicate HasRoom(n: nat)
      reads registry
    {
      exists i :: 0 <= i < |decodeAgents| && decodeAgents[i].nodeId in registry.peers
                  && registry.peers[decodeAgents[i].nodeId].freeTokens >= n
    }

    /** Whether a block finds a peer depends only on the decode nodes' free room. */
    lemma RoomIsCandidate(p: nat, n: nat)
      requires Shape() && Ready(Agents(), registry) && p < |prefillAgents|
      ensures HasRoom(n) <==> !NoCandidate(registry.peers, prefillAgents[p].nodeId, n, Some(DecodeNodeIds()))
    {
      var ids := DecodeNodeIds();
      IdsInOrder();
      forall i: nat | i < |decodeAgents|
        ensures Candidate(registry.peers, p, n, Some(ids), ids[i]) <==> registry.peers[ids[i]].freeTokens >= n
      {
      }
    }

    /** Prefill nodes come first, decode nodes after them. */
    lemma IdsInOrder()
      requires Shape()
      ensures forall i :: 0 <= i < |prefillAgents| ==> prefillAgents[i].nodeId == i
      ensures forall i :: 0 <= i < |decodeAgents| ==> decodeAgents[i].nodeId == |prefillAgents| + i
      ensures Distinct(DecodeNodeIds())
    {
      assert forall i :: 0 <= i < |prefillAgents| ==> Agents()[i] == prefillAgents[i];
      assert forall i :: 0 <= i < |decodeAgents| ==> Agents()[|prefillAgents| + i] == decodeAgents[i];
    }

    /** The tasks for one drained inbox. */
    method TasksFrom(blocks: seq<RemoteBlock>, requestId: nat, origin: nat) returns (tasks: seq<DecodeTask>)
      ensures tasks == TasksOf(blocks, requestId, origin)
    {
      tasks := [];
      for i := 0 to |blocks|
        invariant tasks == TasksOf(blocks[..i], requestId, origin)
      {
        assert blocks[..i + 1][..i] == blocks[..i];
        if blocks[i].handle.blockId == requestId {
          tasks := tasks + [DecodeTask(requestId, blocks[i].handle, blocks[i], origin)];
        }
      }
      assert blocks[..|blocks|] == blocks;
    }

    /** Drains every decode inbox, keeping what belongs to the request. */
    method DrainDecode(requestId: nat, origin: nat) returns (tasks: seq<DecodeTask>)
      requires Shape()
      modifies inboxes
      ensures tasks == Collected(old(inboxes.boxes), DecodeNodeIds(), |decodeAgents|, requestId, origin)
      ensures forall i :: 0 <= i < |decodeAgents| ==> Box(inboxes.boxes, DecodeNodeIds()[i]) == []
      ensures forall id: nat :: id !in DecodeNodeIds() ==> Box(inboxes.boxes, id) == Box(old(inboxes.boxes), id)
    {
      hide TasksOf, Box;
      IdsInOrder();
      var ids := DecodeNodeIds();
      tasks := [];
      for k := 0 to |decodeAgents|
        invariant tasks == Collected(old(inboxes.boxes), ids, k, requestId, origin)
        invariant forall i :: 0 <= i < k ==> Box(inboxes.boxes, ids[i]) == []
        invariant forall id: nat :: id !in ids[..k] ==> Box(inboxes.boxes, id) == Box(old(inboxes.boxes), id)
      {
        assert decodeAgents[k] == Agents()[|prefillAgents| + k];
        assert ids[k] !in ids[..k];
        assert ids[..k + 1] == ids[..k] + [ids[k]];
        var blocks := decodeAgents[k].DrainInbox();
        var more := TasksFrom(blocks, requestId, origin);
        tasks := tasks + more;
      }
      assert ids[..|ids|] == ids;
    }

    /** Routes one prompt. It yields its one decode task if some decode node has room for it, and nothing otherwise. */
    method RunPrefill(task: PrefillTask) returns (tasks: seq<DecodeTask>)
      requires Valid() && task.requestId < U64
      modifies this`prefillCursor, this`stats, inboxes, prefillAgents, Pools(Agents())
      ensures Valid()
      ensures var agent := prefillAgents[Pick(old(stats).prefillTasksRouted, |prefillAgents|, U64)];
              var sent := Cut(PayloadOr(task.kvPayload), agent.dma.blockBytes);
              && tasks == (if HasRoom(|task.tokens|) then [TaskFor(task, agent.nodeId, agent.dma.blockBytes)] else [])
              && stats == Count(old(stats), if HasRoom(|task.tokens|) then Migrated(HEADER + |sent|) else Failed)
      ensures if HasRoom(|task.tokens|) then
                var agent := prefillAgents[Pick(old(stats).prefillTasksRouted, |prefillAgents|, U64)];
                && |tasks| == 1 && IsOwnTask(task, agent.dma.blockBytes, agent.nodeId, tasks[0])
                && CountedSent(old(stats), stats, tasks[0])
              else tasks == [] && CountedFailed(old(stats), stats)
    {
      hide IsOwnTask, Cut, TaskFor, Ready, AllEmpty, Wired, OwnRegions, HasRoom;
      stats := stats.(prefillTasksRouted := stats.prefillTasksRouted + 1);
      var p := prefillCursor % |prefillAgents|;
      CursorCounts(stats.prefillTasksRouted - 1);
      prefillCursor := (prefillCursor + 1) % U64;
      assert prefillAgents[p] == Agents()[p];
      TaskCarries(task, prefillAgents[p].nodeId, prefillAgents[p].dma.blockBytes);
      var o;
      o, tasks := Migrate(p, task);
      if o.Sent? {
        stats := stats.(kvBlocksMigrated := stats.kvBlocksMigrated + 1, kvBytesMigrated := stats.kvBytesMigrated + o.bytes);
      } else {
        stats := stats.(migrationFailures := stats.migrationFailures + 1);
      }
    }

    /** The handoff of one block and the draining that follows. */
    method Migrate(p: nat, task: PrefillTask) returns (o: Outcome, tasks: seq<DecodeTask>)
      requires Idle() && p < |prefillAgents| && task.requestId < U64
      modifies inboxes, prefillAgents[p], prefillAgents[p].dma
      ensures Idle()
      ensures var agent := prefillAgents[p];
              var sent := Cut(PayloadOr(task.kvPayload), agent.dma.blockBytes);
              && (if HasRoom(|task.tokens|) then o.Sent? && o.bytes == HEADER + |sent| else o == DroppedLocally)
              && tasks == (if HasRoom(|task.tokens|) then [TaskFor(task, agent.nodeId, agent.dma.blockBytes)] else [])
    {
      hide Cut, AllEmpty, Holds, NodeRegistry.Valid, DmaBlockManager.Full;
      IdsInOrder();
      var agent := prefillAgents[p];
      assert agent == Agents()[p];
      o := HandOne(p, task);
      ArrivedTasks(inboxes.boxes, DecodeNodeIds(), o, ArrivingBlock(task, agent.nodeId, agent.dma.blockBytes), agent.nodeId);
      ghost var full := inboxes.boxes;
      tasks := DrainDecode(task.requestId, agent.nodeId);
      DrainedEmpty(full, inboxes.boxes, DecodeNodeIds(), o, ArrivingBlock(task, agent.nodeId, agent.dma.blockBytes));
    }

    /** The handoff of one block: at most one inbox is filled. */
    method HandOne(p: nat, task: PrefillTask) returns (o: Outcome)
      requires Idle() && p < |prefillAgents| && task.requestId < U64
      modifies inboxes, prefillAgents[p], prefillAgents[p].dma
      ensures Ready(Agents(), registry)
      ensures var agent := prefillAgents[p];
              var block := ArrivingBlock(task, agent.nodeId, agent.dma.blockBytes);
              && Holds(inboxes.boxes, o, block)
              && (if HasRoom(|task.tokens|) then o.Sent? && o.bytes == HEADER + |block.payload| && o.peer in DecodeNodeIds()
                  else o == DroppedLocally)
    {
      hide Cut, NodeRegistry.Valid, DmaBlockManager.Full, OutcomeOk, NoCandidate, AllEmpty, Holds, HasRoom, MailOf, PostAll, TallyAll;
      var agent := prefillAgents[p];
      assert agent == Agents()[p];
      RoomIsCandidate(p, |task.tokens|);
      var handle := Handle(task.requestId, |task.tokens|);
      var payload := PayloadOr(task.kvPayload);
      var outcomes := agent.Handoff([handle], [payload], Some(DecodeNodeIds()));
      o := outcomes[0];
      assert outcomes == [o];
      OneOutcome(registry.peers, agent.nodeId, handle, payload, agent.dma.blockBytes, DecodeNodeIds(), o,
                 old(inboxes.boxes), inboxes.boxes);
    }

    /** Picks the next decode node in turn. */
    method DispatchDecode() returns (node: nat)
      requires Valid()
      modifies this`decodeCursor, this`stats
      ensures Valid() && stats == Count(old(stats), Dispatched)
      ensures node == decodeAgents[Pick(old(stats).decodeTasksDispatched, |decodeAgents|, U64)].nodeId
    {
      stats := stats.(decodeTasksDispatched := stats.decodeTasksDispatched + 1);
      var idx := decodeCursor % |decodeAgents|;
      CursorCounts(stats.decodeTasksDispatched - 1);
      decodeCursor := (decodeCursor + 1) % U64;
      node := decodeAgents[idx].nodeId;
    }

    /** Prefill, migration and dispatch: exactly the migrated blocks are dispatched. */
    method RunPipeline(task: PrefillTask) returns (placed: seq<(DecodeTask, nat)>)
      requires Valid() && task.requestId < U64
      modifies this`prefillCursor, this`decodeCursor, this`stats, inboxes, prefillAgents, Pools(Agents())
      ensures Valid()
      ensures var agent := prefillAgents[Pick(old(stats).prefillTasksRouted, |prefillAgents|, U64)];
              var node := decodeAgents[Pick(old(stats).decodeTasksDispatched, |decodeAgents|, U64)].nodeId;
              var bytes := HEADER + |Cut(PayloadOr(task.kvPayload), agent.dma.blockBytes)|;
              && placed == (if HasRoom(|task.tokens|) then [(TaskFor(task, agent.nodeId, agent.dma.blockBytes), node)] else [])
              && stats == (if HasRoom(|task.tokens|) then Count(Count(old(stats), Migrated(bytes)), Dispatched) else Count(old(stats), Failed))
      ensures if HasRoom(|task.tokens|) then
                var agent := prefillAgents[Pick(old(stats).prefillTasksRouted, |prefillAgents|, U64)];
                && |placed| == 1 && IsOwnTask(task, agent.dma.blockBytes, agent.nodeId, placed[0].0)
                && stats.decodeTasksDispatched == old(stats).decodeTasksDispatched + 1
                && CountedSent(old(stats), stats.(decodeTasksDispatched := old(stats).decodeTasksDispatched), placed[0].0)
              else placed == [] && CountedFailed(old(stats), stats)
    {
      hide Cut, IsOwnTask;
      var tasks := RunPrefill(task);
      placed := [];
      ghost var routed := stats;
      for i := 0 to |tasks|
        invariant Valid() && |placed| == i
        invariant i == 0 ==> stats == routed
        invariant i == 1 ==> stats == Count(routed, Dispatched)
        invariant i > 0 ==>
          placed[0].0 == tasks[0] && placed[0].1 == decodeAgents[Pick(routed.decodeTasksDispatched, |decodeAgents|, U64)].nodeId
      {
        var node := DispatchDecode();
        placed := placed + [(tasks[i], node)];
      }
    }
  }

  /** A wrapping counter stays the call count modulo its range. */
  lemma CursorCounts(n: nat)
    ensures (n % U64 + 1) % U64 == (n + 1) % U64
  {}

  /** `t` is the prompt's own task: its id and length, the prefill node it came from, and its payload, whole if it fits a
      region of `size` bytes and its first `size` bytes otherwise. */
  ghost predicate IsOwnTask(task: PrefillTask, size: nat, origin: nat, t: DecodeTask) {
    && t.requestId == task.requestId && t.kvHandle == Handle(task.requestId, |task.tokens|) && t.prefillOrigin == origin
    && t.remoteBlock.handle == t.kvHandle && t.remoteBlock.origin == origin
    && match task.kvPayload
       case None => t.remoteBlock.payload == []
       case Some(p) => t.remoteBlock.payload == if |p| <= size then p else p[..size]
  }

  /** One more prompt routed and migrated, and the bytes of its message: sixteen of header and the payload. */
  ghost predicate CountedSent(before: DisaggStats, after: DisaggStats, t: DecodeTask) {
    && after.prefillTasksRouted == before.prefillTasksRouted + 1 && after.kvBlocksMigrated == before.kvBlocksMigrated + 1
    && after.kvBytesMigrated == before.kvBytesMigrated + 16 + |t.remoteBlock.payload|
    && after.migrationFailures == before.migrationFailures && after.decodeTasksDispatched == before.decodeTasksDispatched
  }

  /** One more prompt routed and one more failure. */
  ghost predicate CountedFailed(before: DisaggStats, after: DisaggStats) {
    && after.prefillTasksRouted == before.prefillTasksRouted + 1 && after.migrationFailures == before.migrationFailures + 1
    && after.kvBlocksMigrated == before.kvBlocksMigrated && after.kvBytesMigrated == before.kvBytesMigrated
    && after.decodeTasksDispatched == before.decodeTasksDispatched
  }

  lemma TaskCarries(task: PrefillTask, origin: nat, size: nat)
    ensures IsOwnTask(task, size, origin, TaskFor(task, origin, size))
    ensures |TaskFor(task, origin, size).remoteBlock.payload| == |Cut(PayloadOr(task.kvPayload), size)|
  {}

  /** The decode task a prompt is to yield: its own handle, and its payload cut to the region size. */
  function TaskFor(task: PrefillTask, origin: nat, size: nat): DecodeTask {
    DecodeTask(task.requestId, Handle(task.requestId, |task.tokens|), ArrivingBlock(task, origin, size), origin)
  }

  function ArrivingBlock(task: PrefillTask, origin: nat, size: nat): RemoteBlock {
    RemoteBlock(Handle(task.requestId, |task.tokens|), origin, Cut(PayloadOr(task.kvPayload), size))
  }

  function PayloadOr(payload: Option<seq<byte>>): seq<byte> {
    if payload.Some? then payload.value else []
  }

  /** At most one inbox is filled, with that one block. */
  ghost predicate Holds(boxes: Boxes, o: Outcome, block: RemoteBlock) {
    forall id: nat :: Box(boxes, id) == if o.Sent? && id == o.peer then [block] else []
  }

  /** A handoff of one block from empty inboxes: sent to one of the nodes, alone there, or dropped. */
  lemma OneOutcome(peers: map<nat, PeerStatus>, origin: nat, handle: Handle, payload: seq<byte>, size: nat, ids: seq<nat>,
                   o: Outcome, before: Boxes, after: Boxes)
    requires handle.blockId < U64 && AllEmpty(before)
    requires OutcomeOk(peers, origin, handle, Cut(payload, size), Some(ids), o)
    requires after == PostAll(before, MailOf(origin, [handle], [payload], size, [o]))
    ensures if NoCandidate(peers, origin, handle.tokenLen, Some(ids)) then o == DroppedLocally
            else o.Sent? && o.bytes == HEADER + |Cut(payload, size)| && o.peer in ids
    ensures Holds(after, o, RemoteBlock(handle, origin, Cut(payload, size)))
  {
    hide Serialize, Deserialize, Cut, NoCandidate, MailOf, PostAll, Box, Received;
    NeverFails(peers, origin, handle, Cut(payload, size), Some(ids), o);
    OneLetter(origin, handle, payload, size, o);
    var mail, block := LetterOf(origin, handle, payload, size, o), RemoteBlock(handle, origin, Cut(payload, size));
    forall id: nat ensures Box(after, id) == if o.Sent? && id == o.peer then [block] else [] {
      PostedReceived(before, mail, id);
      ReceivedOne(mail, id);
    }
  }

  lemma OneLetter(origin: nat, handle: Handle, payload: seq<byte>, size: nat, o: Outcome)
    ensures MailOf(origin, [handle], [payload], size, [o]) == LetterOf(origin, handle, payload, size, o)
  {
    assert [o][..0] == [];
  }

  lemma ReceivedOne(mail: seq<Letter>, id: nat)
    requires |mail| <= 1
    ensures Received(mail, id) == if mail != [] && mail[0].peer == id then [mail[0].block] else []
  {
    assert mail != [] ==> mail[..0] == [];
  }

  /** Once the decode nodes are drained nothing is left anywhere. */
  lemma DrainedEmpty(full: Boxes, left: Boxes, ids: seq<nat>, o: Outcome, block: RemoteBlock)
    requires Holds(full, o, block) && (o.Sent? ==> o.peer in ids)
    requires forall i :: 0 <= i < |ids| ==> Box(left, ids[i]) == []
    requires forall id: nat :: id !in ids ==> Box(left, id) == Box(full, id)
    ensures AllEmpty(left)
  {
    hide Box;
  }

  /** So the inboxes hold this one task or none. */
  lemma ArrivedTasks(boxes: Boxes, ids: seq<nat>, o: Outcome, block: RemoteBlock, origin: nat)
    requires Holds(boxes, o, block) && Distinct(ids) && (o.Sent? ==> o.peer in ids)
    ensures Collected(boxes, ids, |ids|, block.handle.blockId, origin)
         == if o.Sent? then [DecodeTask(block.handle.blockId, block.handle, block, origin)] else []
  {
    hide Collected, Box;
    if o.Sent? {
      var at: nat :| at < |ids| && ids[at] == o.peer;
      OneCollected(boxes, ids, |ids|, at, block, origin);
    } else {
      NothingCollected(boxes, ids, |ids|, block.handle.blockId, origin);
    }
  }
}
