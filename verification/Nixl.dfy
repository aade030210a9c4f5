/** The transfer fabric: registered memory regions, the node registry, and the agents that hand blocks to peers. */
module Nixl {
  import opened Common
  import opened WireFormat

  // ----- Registered memory regions -----

  datatype DmaStats = DmaStats(regionsAllocated: nat, blocksSerialized: nat, blocksDeserialized: nat, bytesTransferred: nat)

  /** What of a payload fits in a region. */
  function Cut(payload: seq<byte>, size: nat): (s: seq<byte>)
    ensures |s| <= size && s <= payload && (|s| < size ==> s == payload)
  {
    if |payload| <= size then payload else payload[..size]
  }

  function Indices(n: nat): (s: seq<nat>)
    ensures |s| == n && forall i :: 0 <= i < n ==> s[i] == i
  {
    seq(n, i requires 0 <= i < n => i)
  }

  class DmaBlockManager {
    const blockBytes: nat
    var freePool: seq<nat>
    var regions: seq<seq<byte>>
    var stats: DmaStats

    /** Regions have the right size; the free ones exist and are listed once. */
    ghost predicate Valid()
      reads this
    {
      && (forall i :: 0 <= i < |regions| ==> |regions[i]| == blockBytes)
      && (forall i :: 0 <= i < |freePool| ==> freePool[i] < |regions|)
      && Distinct(freePool)
      && stats.regionsAllocated == |regions|
    }

    /** No region is in use. */
    ghost predicate Full()
      reads this
    {
      Valid() && forall r: nat :: r < |regions| ==> r in freePool
    }

    constructor (blockBytes: nat, poolSize: nat)
      ensures Full() && this.blockBytes == blockBytes && |regions| == poolSize
      ensures stats == DmaStats(poolSize, 0, 0, 0)
    {
      this.blockBytes := blockBytes;
      freePool := Indices(poolSize);
      regions := seq(poolSize, _ => Repeat(0, blockBytes));
      stats := DmaStats(poolSize, 0, 0, 0);
      new;
      forall r: nat | r < poolSize ensures r in freePool {
        assert freePool[r] == r;
      }
    }

    /** Takes the last free region, or registers one more. */
    method Acquire() returns (idx: nat)
      requires Valid()
      modifies this
      ensures Valid() && idx < |regions| && idx !in freePool
      ensures old(freePool) == [] ==>
        freePool == [] && idx == |old(regions)| && regions == old(regions) + [Repeat(0, blockBytes)]
        && stats == old(stats).(regionsAllocated := |regions|)
      ensures old(freePool) != [] ==> old(freePool) == freePool + [idx] && regions == old(regions) && stats == old(stats)
    {
      if freePool == [] {
        idx := |regions|;
        regions := regions + [Repeat(0, blockBytes)];
        stats := stats.(regionsAllocated := stats.regionsAllocated + 1);
      } else {
        idx := freePool[|freePool| - 1];
        freePool := freePool[..|freePool| - 1];
      }
    }

    /** Putting a region back keeps the pool sound exactly when the region was not already in it. */
    method Release(idx: nat)
      requires Valid() && idx < |regions|
      modifies this`freePool
      ensures freePool == old(freePool) + [idx]
      ensures Valid() <==> idx !in old(freePool)
    {
      ghost var before := freePool;
      freePool := freePool + [idx];
      assert freePool[|before|] == idx;
      assert forall i :: 0 <= i < |before| ==> freePool[i] == before[i];
    }

    method WriteAndSerialize(idx: nat, handle: Handle, payload: seq<byte>) returns (wire: seq<byte>)
      requires Valid() && idx < |regions|
      modifies this`regions, this`stats
      ensures Valid() && wire == Serialize(handle, Cut(payload, blockBytes))
      ensures var cut := Cut(payload, blockBytes); regions == old(regions)[idx := cut + Repeat(0, blockBytes - |cut|)]
      ensures stats == old(stats).(blocksSerialized := old(stats).blocksSerialized + 1,
                                   bytesTransferred := old(stats).bytesTransferred + |payload|)
    {
      var copyLen := if |payload| < blockBytes then |payload| else blockBytes;
      var region := payload[..copyLen] + regions[idx][copyLen..];
      if copyLen < blockBytes {
        region := region[..copyLen] + Repeat(0, blockBytes - copyLen);
      }
      regions := regions[idx := region];
      stats := stats.(blocksSerialized := stats.blocksSerialized + 1, bytesTransferred := stats.bytesTransferred + |payload|);
      wire := Serialize(handle, region[..copyLen]);
      assert payload[..copyLen] == Cut(payload, blockBytes) == region[..copyLen];
      assert region == Cut(payload, blockBytes) + Repeat(0, blockBytes - copyLen);
    }

    method ReceiveInto(idx: nat, wire: seq<byte>) returns (r: Option<(Handle, nat)>)
      requires Valid() && idx < |regions|
      modifies this`regions, this`stats
      ensures Valid()
      ensures match Deserialize(wire)
              case None => r == None && regions == old(regions) && stats == old(stats)
              case Some((h, payload)) =>
                var cut := Cut(payload, blockBytes);
                && r == Some((h, |cut|))
                && regions == old(regions)[idx := cut + old(regions)[idx][|cut|..]]
                && stats == old(stats).(blocksDeserialized := old(stats).blocksDeserialized + 1,
                                        bytesTransferred := old(stats).bytesTransferred + |cut|)
    {
      var parsed := Deserialize(wire);
      if parsed.None? {
        return None;
      }
      var (handle, payload) := parsed.value;
      var copyLen := if |payload| < blockBytes then |payload| else blockBytes;
      assert payload[..copyLen] == Cut(payload, blockBytes);
      regions := regions[idx := payload[..copyLen] + regions[idx][copyLen..]];
      stats := stats.(blocksDeserialized := stats.blocksDeserialized + 1, bytesTransferred := stats.bytesTransferred + copyLen);
      r := Some((handle, copyLen));
    }
  }

  // ----- Peers -----

  datatype PeerStatus = PeerStatus(nodeId: nat, utilisation: real, freeTokens: nat)

  type Targets = Option<seq<nat>>

  predicate Allowed(targets: Targets, id: nat) {
    targets.None? || id in targets.value
  }

  /** A node other than the sender, among the allowed ones, with room for `needed` tokens. */
  predicate Candidate(peers: map<nat, PeerStatus>, exclude: nat, needed: nat, targets: Targets, id: nat) {
    id in peers && id != exclude && peers[id].freeTokens >= needed && Allowed(targets, id)
  }

  /** A least-loaded candidate. Which one of several equally loaded is not determined. */
  ghost predicate IsBest(peers: map<nat, PeerStatus>, exclude: nat, needed: nat, targets: Targets, id: nat) {
    && Candidate(peers, exclude, needed, targets, id)
    && forall other :: Candidate(peers, exclude, needed, targets, other) ==> peers[id].utilisation <= peers[other].utilisation
  }

  ghost predicate NoCandidate(peers: map<nat, PeerStatus>, exclude: nat, needed: nat, targets: Targets) {
    forall id :: !Candidate(peers, exclude, needed, targets, id)
  }

  class NodeRegistry {
    var nextId: nat
    var peers: map<nat, PeerStatus>

    ghost predicate Valid()
      reads this
    {
      forall id :: id in peers <==> id < nextId && id in peers && peers[id].nodeId == id
    }

    constructor ()
      ensures Valid() && nextId == 0 && peers == map[]
    {
      nextId := 0;
      peers := map[];
    }

    method Register(capacityTokens: nat) returns (id: nat)
      requires Valid()
      modifies this
      ensures Valid() && id == old(nextId) && nextId == id + 1 && id !in old(peers)
      ensures peers == old(peers)[id := PeerStatus(id, 0.0, capacityTokens)]
    {
      id := nextId;
      nextId := nextId + 1;
      peers := peers[id := PeerStatus(id, 0.0, capacityTokens)];
    }

    /** A node reports its load; an unknown node is ignored. */
    method Heartbeat(id: nat, utilisation: real, freeTokens: nat)
      requires Valid()
      modifies this`peers
      ensures Valid() && peers.Keys == old(peers).Keys
      ensures peers == if id in old(peers) then old(peers)[id := PeerStatus(id, utilisation, freeTokens)] else old(peers)
    {
      if id in peers {
        peers := peers[id := peers[id].(utilisation := utilisation, freeTokens := freeTokens)];
      }
    }

    /** The peers are visited in no particular order, as a hash map's values are. */
    method BestPeer(exclude: nat, needed: nat, targets: Targets) returns (r: Option<PeerStatus>)
      requires Valid()
      ensures r.None? <==> NoCandidate(peers, exclude, needed, targets)
      ensures r.Some? ==> IsBest(peers, exclude, needed, targets, r.value.nodeId) && peers[r.value.nodeId] == r.value
    {
      r := None;
      var rest := peers.Keys;
      while rest != {}
        invariant rest <= peers.Keys
        invariant r.None? ==> forall id :: id !in rest ==> !Candidate(peers, exclude, needed, targets, id)
        invariant r.Some? ==> Candidate(peers, exclude, needed, targets, r.value.nodeId) && peers[r.value.nodeId] == r.value
        invariant r.Some? ==> forall id :: id !in rest && Candidate(peers, exclude, needed, targets, id) ==>
          r.value.utilisation <= peers[id].utilisation
        decreases rest
      {
        var id :| id in rest;
        rest := rest - {id};
        var p := peers[id];
        if p.nodeId != exclude && p.freeTokens >= needed && (targets.None? || p.nodeId in targets.value)
          && (r.None? || p.utilisation < r.value.utilisation)
        {
          r := Some(p);
        }
      }
    }
  }

  // ----- Inboxes -----

  datatype RemoteBlock = RemoteBlock(handle: Handle, origin: nat, payload: seq<byte>)

  type Boxes = map<nat, seq<RemoteBlock>>

  function Box(boxes: Boxes, id: nat): seq<RemoteBlock> {
    if id in boxes then boxes[id] else []
  }

  /** A block addressed to a node. */
  datatype Letter = Letter(peer: nat, block: RemoteBlock)

  function Post(boxes: Boxes, l: Letter): Boxes {
    boxes[l.peer := Box(boxes, l.peer) + [l.block]]
  }

  function PostAll(boxes: Boxes, mail: seq<Letter>): Boxes {
    if mail == [] then boxes else Post(PostAll(boxes, mail[..|mail| - 1]), mail[|mail| - 1])
  }

  /** The blocks in `mail` addressed to `id`, in order. */
  function Received(mail: seq<Letter>, id: nat): seq<RemoteBlock> {
    if mail == [] then []
    else
      var front, last := Received(mail[..|mail| - 1], id), mail[|mail| - 1];
      if last.peer == id then front + [last.block] else front
  }

  /** Every inbox grows by exactly what was addressed to it. */
  lemma {:induction false} PostedReceived(boxes: Boxes, mail: seq<Letter>, id: nat)
    ensures Box(PostAll(boxes, mail), id) == Box(boxes, id) + Received(mail, id)
  {
    if mail != [] {
      PostedReceived(boxes, mail[..|mail| - 1], id);
    }
  }

  /** Blocks over all the inboxes of nodes `0 .. n`. */
  function TotalReceived(mail: seq<Letter>, n: nat): nat {
    if n == 0 then 0 else TotalReceived(mail, n - 1) + |Received(mail, n - 1)|
  }

  lemma {:induction false} ReceivedStep(mail: seq<Letter>, l: Letter, n: nat)
    ensures TotalReceived(mail + [l], n) == TotalReceived(mail, n) + if l.peer < n then 1 else 0
  {
    assert (mail + [l])[..|mail|] == mail;
    if n > 0 {
      ReceivedStep(mail, l, n - 1);
    }
  }

  lemma {:induction false} NothingReceived(n: nat)
    ensures TotalReceived([], n) == 0
  {
    if n > 0 {
      NothingReceived(n - 1);
    }
  }

  /** Each letter lands once: over all nodes, as many blocks arrive as were posted. */
  lemma {:induction false} EachLandsOnce(mail: seq<Letter>, n: nat)
    requires forall i :: 0 <= i < |mail| ==> mail[i].peer < n
    ensures TotalReceived(mail, n) == |mail|
  {
    if mail == [] {
      NothingReceived(n);
    } else {
      var front := mail[..|mail| - 1];
      EachLandsOnce(front, n);
      ReceivedStep(front, mail[|mail| - 1], n);
      assert mail == front + [mail[|mail| - 1]];
    }
  }

  /** Blocks waiting in the inboxes of nodes `0 .. n`. */
  function TotalIn(boxes: Boxes, n: nat): nat {
    if n == 0 then 0 else TotalIn(boxes, n - 1) + |Box(boxes, n - 1)|
  }

  lemma {:induction false} TotalPosted(boxes: Boxes, mail: seq<Letter>, n: nat)
    ensures TotalIn(PostAll(boxes, mail), n) == TotalIn(boxes, n) + TotalReceived(mail, n)
  {
    hide PostAll, Received, Box;
    if n > 0 {
      TotalPosted(boxes, mail, n - 1);
      PostedReceived(boxes, mail, n - 1);
    }
  }

  // ----- Handing blocks off -----

  datatype Outcome = Sent(peer: nat, bytes: nat) | DroppedLocally | PeerFull(peer: nat)

  datatype TransferStats = TransferStats(blocksSent: nat, blocksDropped: nat, bytesSent: nat, transfersFailed: nat)

  function PayloadOf(payloads: seq<seq<byte>>, i: nat): seq<byte> {
    if i < |payloads| then payloads[i] else []
  }

  /** What one outcome must be, given the peers and the block. */
  ghost predicate OutcomeOk(peers: map<nat, PeerStatus>, sender: nat, handle: Handle, sent: seq<byte>, targets: Targets,
                            o: Outcome) {
    match o
    case Sent(peer, bytes) => IsBest(peers, sender, handle.tokenLen, targets, peer) && bytes == HEADER + |sent|
    case DroppedLocally => NoCandidate(peers, sender, handle.tokenLen, targets)
    case PeerFull(_) => Deserialize(Serialize(handle, sent)).None?
  }

  /** The failure branch is never taken: what is serialised always parses, even with lengths over 32 bits. */
  lemma NeverFails(peers: map<nat, PeerStatus>, sender: nat, handle: Handle, sent: seq<byte>, targets: Targets, o: Outcome)
    requires handle.blockId < U64 && OutcomeOk(peers, sender, handle, sent, targets, o)
    ensures o.Sent? <==> !NoCandidate(peers, sender, handle.tokenLen, targets)
    ensures o.DroppedLocally? <==> NoCandidate(peers, sender, handle.tokenLen, targets)
  {
    hide Serialize, Deserialize;
    Delivered(handle, sent);
  }

  function Tally(s: TransferStats, o: Outcome): TransferStats {
    match o
    case Sent(_, bytes) => s.(blocksSent := s.blocksSent + 1, bytesSent := s.bytesSent + bytes)
    case DroppedLocally => s.(blocksDropped := s.blocksDropped + 1)
    case PeerFull(_) => s.(transfersFailed := s.transfersFailed + 1)
  }

  function TallyAll(s: TransferStats, os: seq<Outcome>): TransferStats {
    if os == [] then s else Tally(TallyAll(s, os[..|os| - 1]), os[|os| - 1])
  }

  /** The letters the outcomes stand for. */
  function MailOf(origin: nat, handles: seq<Handle>, payloads: seq<seq<byte>>, size: nat, os: seq<Outcome>): seq<Letter>
    requires |os| <= |handles|
  {
    if os == [] then []
    else
      var i := |os| - 1;
      MailOf(origin, handles, payloads, size, os[..i]) + LetterOf(origin, handles[i], PayloadOf(payloads, i), size, os[i])
  }

  function LetterOf(origin: nat, handle: Handle, payload: seq<byte>, size: nat, o: Outcome): (mail: seq<Letter>)
    ensures |mail| == if o.Sent? then 1 else 0
  {
    if o.Sent? then [Letter(o.peer, RemoteBlock(handle, origin, Cut(payload, size)))] else []
  }

  /** Over a whole handoff: one count per block, as many letters as sends, bytes that add up, and no failures. */
  lemma {:induction false} HandoffCounts(s: TransferStats, origin: nat, handles: seq<Handle>, payloads: seq<seq<byte>>,
                                         size: nat, os: seq<Outcome>)
    requires |os| <= |handles| && forall i :: 0 <= i < |os| ==> !os[i].PeerFull?
    requires forall i: nat :: i < |os| && os[i].Sent? ==> os[i].bytes == HEADER + |Cut(PayloadOf(payloads, i), size)|
    ensures var t := TallyAll(s, os);
            var mail := MailOf(origin, handles, payloads, size, os);
            && t.transfersFailed == s.transfersFailed
            && t.blocksSent + t.blocksDropped == s.blocksSent + s.blocksDropped + |os|
            && t.blocksSent == s.blocksSent + |mail|
            && t.bytesSent == s.bytesSent + MailBytes(mail)
  {
    if os != [] {
      var i := |os| - 1;
      HandoffCounts(s, origin, handles, payloads, size, os[..i]);
      var front := MailOf(origin, handles, payloads, size, os[..i]);
      var more := LetterOf(origin, handles[i], PayloadOf(payloads, i), size, os[i]);
      assert more == [] ==> front + more == front;
      assert more != [] ==> (front + more)[..|front|] == front;
    }
  }

  /** Letter `l` carries block `i` to a best peer for it, with as much of the block's own payload as fits in `size` bytes,
      or none if there is no payload `i`. */
  ghost predicate Carries(peers: map<nat, PeerStatus>, origin: nat, handles: seq<Handle>, payloads: seq<seq<byte>>,
                          size: nat, targets: Targets, l: Letter, i: nat)
  {
    && i < |handles|
    && l.block.handle == handles[i] && l.block.origin == origin
    && (if i >= |payloads| then l.block.payload == []
        else if |payloads[i]| <= size then l.block.payload == payloads[i]
        else l.block.payload == payloads[i][..size])
    && IsBest(peers, origin, handles[i].tokenLen, targets, l.peer)
  }

  /** Every block in the mail goes to an allowed, large-enough, least-loaded peer other than the sender. */
  lemma {:induction false} MailLands(peers: map<nat, PeerStatus>, origin: nat, handles: seq<Handle>,
                                     payloads: seq<seq<byte>>, size: nat, targets: Targets, os: seq<Outcome>, k: nat) returns (i: nat)
    requires |os| <= |handles| && k < |MailOf(origin, handles, payloads, size, os)|
    requires forall i: nat :: i < |os| ==>
      OutcomeOk(peers, origin, handles[i], Cut(PayloadOf(payloads, i), size), targets, os[i])
    ensures i < |os| && os[i].Sent?
    ensures var l := MailOf(origin, handles, payloads, size, os)[k];
            os[i].peer == l.peer && Carries(peers, origin, handles, payloads, size, targets, l, i)
  {
    hide IsBest, NoCandidate, Serialize, Deserialize;
    i := |os| - 1;
    if k < |MailOf(origin, handles, payloads, size, os[..i])| {
      i := MailLands(peers, origin, handles, payloads, size, targets, os[..i], k);
    } else {
      assert OutcomeOk(peers, origin, handles[i], Cut(PayloadOf(payloads, i), size), targets, os[i]);
    }
  }

  /** What a handoff of blocks with 64-bit ids amounts to: no failures, one count per block, and as many more blocks in
      the inboxes of the `n` nodes as were sent. */
  lemma HandoffDelivers(peers: map<nat, PeerStatus>, n: nat, s: TransferStats, boxes: Boxes, origin: nat, handles: seq<Handle>,
                        payloads: seq<seq<byte>>, size: nat, targets: Targets, os: seq<Outcome>)
    requires |os| == |handles| && (forall id :: id in peers ==> id < n) && forall i :: 0 <= i < |handles| ==> handles[i].blockId < U64
    requires forall i: nat :: i < |os| ==>
      OutcomeOk(peers, origin, handles[i], Cut(PayloadOf(payloads, i), size), targets, os[i])
    ensures var t := TallyAll(s, os);
            var mail := MailOf(origin, handles, payloads, size, os);
            && (forall i :: 0 <= i < |os| ==> !os[i].PeerFull?)
            && t.transfersFailed == s.transfersFailed
            && t.blocksSent + t.blocksDropped == s.blocksSent + s.blocksDropped + |handles|
            && t.bytesSent == s.bytesSent + MailBytes(mail)
            && TotalIn(PostAll(boxes, mail), n) + s.blocksSent == TotalIn(boxes, n) + t.blocksSent
  {
    hide Serialize, Deserialize, Cut, NoCandidate, MailOf, TallyAll, PostAll, MailBytes, TotalIn, TotalReceived;
    forall i: nat | i < |os|
      ensures !os[i].PeerFull? && (os[i].Sent? ==> os[i].bytes == HEADER + |Cut(PayloadOf(payloads, i), size)|)
    {
      NeverFails(peers, origin, handles[i], Cut(PayloadOf(payloads, i), size), targets, os[i]);
    }
    HandoffCounts(s, origin, handles, payloads, size, os);
    var mail := MailOf(origin, handles, payloads, size, os);
    forall k | 0 <= k < |mail| ensures mail[k].peer < n {
      var i := MailLands(peers, origin, handles, payloads, size, targets, os, k);
    }
    EachLandsOnce(mail, n);
    TotalPosted(boxes, mail, n);
  }

  /** Wire size of the letters. */
  function MailBytes(mail: seq<Letter>): nat {
    if mail == [] then 0 else MailBytes(mail[..|mail| - 1]) + HEADER + |mail[|mail| - 1].block.payload|
  }

  /** The shared inbox table. */
  class Inboxes {
    var boxes: Boxes

    constructor ()
      ensures boxes == map[]
    {
      boxes := map[];
    }
  }

  class CacheTransferAgent {
    const nodeId: nat
    const registry: NodeRegistry
    const dma: DmaBlockManager
    const inboxes: Inboxes
    var stats: TransferStats

    ghost predicate Valid()
      reads this, registry, dma
    {
      registry.Valid() && dma.Full() && nodeId in registry.peers
    }

    constructor (registry: NodeRegistry, inboxes: Inboxes, blockBytes: nat, poolSize: nat, capacityTokens: nat)
      requires registry.Valid()
      modifies registry, inboxes
      ensures Valid() && this.registry == registry && this.inboxes == inboxes && fresh(dma)
      ensures nodeId == old(registry.nextId) && registry.nextId == nodeId + 1
      ensures registry.peers == old(registry.peers)[nodeId := PeerStatus(nodeId, 0.0, capacityTokens)]
      ensures inboxes.boxes == old(inboxes.boxes)[nodeId := Box(old(inboxes.boxes), nodeId)]
      ensures dma.blockBytes == blockBytes && stats == TransferStats(0, 0, 0, 0)
    {
      var id := registry.Register(capacityTokens);
      inboxes.boxes := inboxes.boxes[id := Box(inboxes.boxes, id)];
      nodeId := id;
      this.registry := registry;
      dma := new DmaBlockManager(blockBytes, poolSize);
      this.inboxes := inboxes;
      stats := TransferStats(0, 0, 0, 0);
    }

    /** One block through the memory regions: out through one, in through one, both free again. */
    method Ship(handle: Handle, payload: seq<byte>) returns (wire: seq<byte>, arrived: bool)
      requires dma.Full()
      modifies dma
      ensures dma.Full() && arrived == Deserialize(wire).Some? && wire == Serialize(handle, Cut(payload, dma.blockBytes))
      ensures |dma.regions| == if old(dma.regions) == [] then 1 else |old(dma.regions)|
      ensures dma.stats.blocksSerialized == old(dma.stats).blocksSerialized + 1
      ensures dma.stats.blocksDeserialized == old(dma.stats).blocksDeserialized + if arrived then 1 else 0
    {
      hide Serialize, Deserialize, Cut;
      assert dma.regions != [] ==> 0 in dma.freePool;
      var regionIdx := dma.Acquire();
      wire := dma.WriteAndSerialize(regionIdx, handle, payload);
      dma.Release(regionIdx);
      var recvIdx := dma.Acquire();
      var received := dma.ReceiveInto(recvIdx, wire);
      dma.Release(recvIdx);
      arrived := received.Some?;
    }

    /** One block: chosen peer, wire, inbox, counters. */
    method SendOne(handle: Handle, payload: seq<byte>, targets: Targets) returns (o: Outcome)
      requires Valid()
      modifies this`stats, dma, inboxes
      ensures Valid()
      ensures OutcomeOk(registry.peers, nodeId, handle, Cut(payload, dma.blockBytes), targets, o)
      ensures stats == Tally(old(stats), o)
      ensures inboxes.boxes == PostAll(old(inboxes.boxes), LetterOf(nodeId, handle, payload, dma.blockBytes, o))
      ensures |old(dma.regions)| <= |dma.regions|
    {
      hide Serialize, Deserialize, IsBest, NoCandidate;
      var peer := registry.BestPeer(nodeId, handle.tokenLen, targets);
      if peer.None? {
        stats := stats.(blocksDropped := stats.blocksDropped + 1);
        return DroppedLocally;
      }
      var id := peer.value.nodeId;
      var wire, arrived := Ship(handle, payload);
      if !arrived {
        stats := stats.(transfersFailed := stats.transfersFailed + 1);
        return PeerFull(id);
      }
      var remote := RemoteBlock(handle, nodeId, wire[HEADER..]);
      inboxes.boxes := inboxes.boxes[id := Box(inboxes.boxes, id) + [remote]];
      stats := stats.(blocksSent := stats.blocksSent + 1, bytesSent := stats.bytesSent + |wire|);
      o := Sent(id, |wire|);
    }

    /** Hands each block to the best peer there is for it. For blocks with 64-bit ids nothing ever fails: each is counted
        as sent or dropped, and each one sent is one more block in some inbox. */
    method Handoff(handles: seq<Handle>, payloads: seq<seq<byte>>, targets: Targets) returns (os: seq<Outcome>)
      requires Valid()
      modifies this`stats, dma, inboxes
      ensures Valid() && |os| == |handles|
      ensures forall i: nat :: i < |os| ==>
        OutcomeOk(registry.peers, nodeId, handles[i], Cut(PayloadOf(payloads, i), dma.blockBytes), targets, os[i])
      ensures stats == TallyAll(old(stats), os)
      ensures inboxes.boxes == PostAll(old(inboxes.boxes), MailOf(nodeId, handles, payloads, dma.blockBytes, os))
      ensures |old(dma.regions)| <= |dma.regions|
      ensures (forall i :: 0 <= i < |handles| ==> handles[i].blockId < U64) ==>
        && (forall i :: 0 <= i < |os| ==> !os[i].PeerFull?)
        && stats.transfersFailed == old(stats).transfersFailed
        && stats.blocksSent + stats.blocksDropped == old(stats).blocksSent + old(stats).blocksDropped + |handles|
        && TotalIn(inboxes.boxes, registry.nextId) + old(stats).blocksSent == TotalIn(old(inboxes.boxes), registry.nextId) + stats.blocksSent
    {
      hide OutcomeOk, PostAll, Cut, MailOf, TallyAll, LetterOf, DmaBlockManager.Full, NodeRegistry.Valid;
      MailNothing(nodeId, handles, payloads, dma.blockBytes, stats);
      PostNothing(inboxes.boxes);
      os := [];
      for i := 0 to |handles|
        invariant Valid() && |os| == i && |old(dma.regions)| <= |dma.regions|
        invariant forall j: nat :: j < i ==>
          OutcomeOk(registry.peers, nodeId, handles[j], Cut(PayloadOf(payloads, j), dma.blockBytes), targets, os[j])
        invariant stats == TallyAll(old(stats), os)
        invariant inboxes.boxes == PostAll(old(inboxes.boxes), MailOf(nodeId, handles, payloads, dma.blockBytes, os))
      {
        var o := SendOne(handles[i], PayloadOf(payloads, i), targets);
        PostMore(old(inboxes.boxes), MailOf(nodeId, handles, payloads, dma.blockBytes, os),
                 LetterOf(nodeId, handles[i], PayloadOf(payloads, i), dma.blockBytes, o), o);
        MailStep(nodeId, handles, payloads, dma.blockBytes, os, o);
        TallyStep(old(stats), os, o);
        os := os + [o];
      }
      KnownNodes(registry);
      if forall i :: 0 <= i < |handles| ==> handles[i].blockId < U64 {
        HandoffDelivers(registry.peers, registry.nextId, old(stats), old(inboxes.boxes), nodeId, handles, payloads,
                        dma.blockBytes, targets, os);
      }
    }

    /** Takes everything delivered to this node. */
    method DrainInbox() returns (blocks: seq<RemoteBlock>)
      modifies inboxes
      ensures blocks == Box(old(inboxes.boxes), nodeId) && Box(inboxes.boxes, nodeId) == []
      ensures forall id: nat :: id != nodeId ==> Box(inboxes.boxes, id) == Box(old(inboxes.boxes), id)
    {
      if nodeId in inboxes.boxes {
        blocks := inboxes.boxes[nodeId];
        inboxes.boxes := inboxes.boxes[nodeId := []];
      } else {
        blocks := [];
      }
    }
  }

  lemma KnownNodes(registry: NodeRegistry)
    requires registry.Valid()
    ensures forall id :: id in registry.peers ==> id < registry.nextId
  {}

  lemma PostNothing(boxes: Boxes)
    ensures PostAll(boxes, []) == boxes
  {}

  lemma MailNothing(origin: nat, handles: seq<Handle>, payloads: seq<seq<byte>>, size: nat, s: TransferStats)
    ensures MailOf(origin, handles, payloads, size, []) == [] && TallyAll(s, []) == s
  {}

  lemma MailStep(origin: nat, handles: seq<Handle>, payloads: seq<seq<byte>>, size: nat, os: seq<Outcome>, o: Outcome)
    requires |os| < |handles|
    ensures MailOf(origin, handles, payloads, size, os + [o])
         == MailOf(origin, handles, payloads, size, os) + LetterOf(origin, handles[|os|], PayloadOf(payloads, |os|), size, o)
  {
    assert (os + [o])[..|os|] == os;
  }

  lemma TallyStep(s: TransferStats, os: seq<Outcome>, o: Outcome)
    ensures TallyAll(s, os + [o]) == Tally(TallyAll(s, os), o)
  {
    assert (os + [o])[..|os|] == os;
  }

  lemma {:induction false} PostMore(boxes: Boxes, mail: seq<Letter>, more: seq<Letter>, o: Outcome)
    requires |more| == if o.Sent? then 1 else 0
    ensures PostAll(PostAll(boxes, mail), more) == PostAll(boxes, mail + more)
  {
    if more == [] {
      assert mail + more == mail;
    } else {
      assert (mail + more)[..|mail|] == mail && more[..0] == [];
    }
  }
}
