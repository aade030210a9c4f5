/** Handles to blocks, handles to pages, and requests to slots. */
module Memory {
  import opened Common

  // ----- Block store -----

  datatype KvBlock = KvBlock(handle: Handle, bytes: nat)
  datatype StoreError = EmptyBlock | UnknownBlock(handle: Handle)

  class InMemoryKvStore {
    var nextBlockId: nat
    const bytesPerToken: nat
    var blocks: map<nat, KvBlock>

    /** Every block is filed under its own id, and ids still to come are unused. */
    ghost predicate Valid()
      reads this
    {
      forall id :: id in blocks ==> id < nextBlockId && blocks[id].handle.blockId == id
    }

    constructor (bytesPerToken: nat)
      ensures Valid() && blocks == map[] && nextBlockId == 1
    {
      nextBlockId := 1;
      this.bytesPerToken := bytesPerToken;
      blocks := map[];
    }

    /** The block of a handle; a handle with a known id but another length has none. */
    function Get(handle: Handle): (r: Option<KvBlock>)
      reads this
      ensures r.Some? ==> r.value.handle == handle && handle.blockId in blocks && blocks[handle.blockId] == r.value
    {
      if handle.blockId in blocks && blocks[handle.blockId].handle == handle then Some(blocks[handle.blockId]) else None
    }

    method Allocate(tokenLen: nat) returns (r: Result<Handle, StoreError>)
      requires Valid()
      modifies this
      ensures Valid()
      ensures tokenLen == 0 ==> r == Err(EmptyBlock) && blocks == old(blocks) && nextBlockId == old(nextBlockId)
      ensures tokenLen > 0 ==>
        && r == Ok(Handle(old(nextBlockId), tokenLen)) && r.value.blockId !in old(blocks)
        && nextBlockId == old(nextBlockId) + 1
        && blocks == old(blocks)[r.value.blockId := KvBlock(r.value, tokenLen * bytesPerToken)]
        && old(Get(r.value)) == None && Get(r.value) == Some(KvBlock(r.value, tokenLen * bytesPerToken))
    {
      if tokenLen == 0 {
        return Err(EmptyBlock);
      }
      var handle := Handle(nextBlockId, tokenLen);
      nextBlockId := nextBlockId + 1;
      blocks := blocks[handle.blockId := KvBlock(handle, tokenLen * bytesPerToken)];
      r := Ok(handle);
    }

    /** A handle with a known id but another length is not released. */
    method Release(handle: Handle) returns (r: Result<(), StoreError>)
      requires Valid()
      modifies this
      ensures Valid() && nextBlockId == old(nextBlockId)
      ensures r.Ok? <==> old(Get(handle)).Some?
      ensures Get(handle) == None
      ensures blocks == if r.Ok? then old(blocks) - {handle.blockId} else old(blocks)
    {
      if handle.blockId !in blocks {
        return Err(UnknownBlock(handle));
      }
      var block := blocks[handle.blockId];
      blocks := blocks - {handle.blockId};
      if block.handle != handle {
        blocks := blocks[block.handle.blockId := block];
        return Err(UnknownBlock(handle));
      }
      r := Ok(());
    }
  }

  datatype StoreOp = Alloc(tokenLen: nat) | Free(handle: Handle)

  /** Whatever is allocated and released afterwards, a handle that was once issued and is gone is never found again. */
  method DriveStore(store: InMemoryKvStore, ops: seq<StoreOp>)
    requires store.Valid()
    modifies store
    ensures store.Valid() && store.nextBlockId >= old(store.nextBlockId)
    ensures forall h: Handle :: h.blockId < old(store.nextBlockId) && old(store.Get(h)) == None ==> store.Get(h) == None
  {
    for n := 0 to |ops|
      invariant store.Valid() && store.nextBlockId >= old(store.nextBlockId)
      invariant forall h: Handle :: h.blockId < old(store.nextBlockId) && old(store.Get(h)) == None ==> store.Get(h) == None
    {
      match ops[n]
      case Alloc(tokenLen) => var a := store.Allocate(tokenLen);
      case Free(handle) => var r := store.Release(handle);
    }
  }

  // ----- Page allocator -----

  datatype BlockMapping = BlockMapping(handle: Handle, pages: seq<nat>, tokenLen: nat)
  datatype PageError = OutOfPages(requested: nat, available: nat) | UnknownHandle(handle: Handle)

  /** Pages needed for `n` tokens. */
  function PagesFor(n: nat, blockSize: nat): (p: nat)
    requires blockSize > 0
  {
    (n + blockSize - 1) / blockSize
  }

  /** Enough pages, and not one more than needed. */
  lemma PagesForIsCeiling(n: nat, blockSize: nat)
    requires blockSize > 0
    ensures n <= PagesFor(n, blockSize) * blockSize
    ensures PagesFor(n, blockSize) > 0 ==> (PagesFor(n, blockSize) - 1) * blockSize < n
  {
    var p := PagesFor(n, blockSize);
    assert n + blockSize - 1 == p * blockSize + (n + blockSize - 1) % blockSize;
    assert (p - 1) * blockSize == p * blockSize - blockSize;
  }

  ghost predicate Owns(maps: map<nat, BlockMapping>, id: nat, p: nat) {
    id in maps && p in maps[id].pages
  }

  /** Every page below `total` is either free or in one mapping, and nowhere twice. */
  ghost predicate Partition(free: seq<nat>, maps: map<nat, BlockMapping>, total: nat) {
    && Distinct(free)
    && (forall id :: id in maps ==> Distinct(maps[id].pages))
    && (forall id: nat, p: nat :: Owns(maps, id, p) ==> p < total && p !in free)
    && (forall id: nat, id': nat, p: nat :: Owns(maps, id, p) && Owns(maps, id', p) ==> id == id')
    && (forall p: nat :: p in free ==> p < total)
    && (forall p: nat :: p < total && p !in free ==> exists id: nat :: Owns(maps, id, p))
  }

  ghost function MappedPages(maps: map<nat, BlockMapping>): nat {
    if maps == map[] then 0
    else var id :| id in maps; |maps[id].pages| + MappedPages(maps - {id})
  }

  lemma {:induction false} MappedPagesRemove(maps: map<nat, BlockMapping>, x: nat)
    requires x in maps
    ensures MappedPages(maps) == |maps[x].pages| + MappedPages(maps - {x})
    decreases |maps|
  {
    var id :| id in maps && MappedPages(maps) == |maps[id].pages| + MappedPages(maps - {id});
    if id != x {
      assert maps.Keys - {id} == (maps - {id}).Keys && maps.Keys - {x} == (maps - {x}).Keys;
      MappedPagesRemove(maps - {id}, x);
      MappedPagesRemove(maps - {x}, id);
      assert maps - {id} - {x} == maps - {x} - {id};
    }
  }

  lemma {:induction false} DistinctCount(s: seq<nat>)
    requires Distinct(s)
    ensures |SetOf(s)| == |s|
  {
    if s != [] {
      var n := |s| - 1;
      DistinctCount(s[..n]);
      assert SetOf(s) == SetOf(s[..n]) + {s[n]};
      assert s[n] !in s[..n];
    }
  }

  /** Free pages and mapped pages add up to any set they partition. */
  lemma {:induction false} CountPages(universe: set<nat>, free: seq<nat>, maps: map<nat, BlockMapping>)
    requires Distinct(free)
    requires forall id :: id in maps ==> Distinct(maps[id].pages)
    requires forall id: nat, p: nat :: Owns(maps, id, p) ==> p in universe && p !in free
    requires forall id: nat, id': nat, p: nat :: Owns(maps, id, p) && Owns(maps, id', p) ==> id == id'
    requires forall p: nat :: p in free ==> p in universe
    requires forall p: nat :: p in universe && p !in free ==> exists id: nat :: Owns(maps, id, p)
    ensures |free| + MappedPages(maps) == |universe|
    decreases |maps|
  {
    if maps == map[] {
      assert SetOf(free) == universe;
      DistinctCount(free);
    } else {
      var id :| id in maps;
      var rest, part := maps - {id}, SetOf(maps[id].pages);
      assert rest.Keys == maps.Keys - {id};
      forall i: nat, p: nat | Owns(rest, i, p) ensures Owns(maps, i, p) && p in universe - part {
        assert i in rest.Keys && Owns(maps, i, p);
        assert p in part ==> Owns(maps, id, p);
      }
      forall p: nat | p in universe - part && p !in free ensures exists i: nat :: Owns(rest, i, p) {
        var i :| Owns(maps, i, p);
        assert Owns(rest, i, p);
      }
      forall p: nat | p in part ensures p in universe && p !in free {
        assert Owns(maps, id, p);
      }
      CountPages(universe - part, free, rest);
      DistinctCount(maps[id].pages);
      MappedPagesRemove(maps, id);
      assert part <= universe && |universe - part| == |universe| - |part|;
    }
  }

  ghost function Upto(n: nat): (s: set<nat>)
    ensures |s| == n && forall p: nat :: p in s <==> p < n
  {
    if n == 0 then {} else Upto(n - 1) + {n - 1}
  }

  /** No page is lost or owned twice. */
  lemma PagesConserved(free: seq<nat>, maps: map<nat, BlockMapping>, total: nat)
    requires Partition(free, maps, total)
    ensures |free| + MappedPages(maps) == total
  {
    CountPages(Upto(total), free, maps);
  }

  /** Handing the first `n` free pages to `id` keeps the partition exactly when `id` owned no page. */
  lemma AllocateKeepsPartition(free: seq<nat>, maps: map<nat, BlockMapping>, total: nat, n: nat, m: BlockMapping, id: nat)
    requires Partition(free, maps, total) && n <= |free| && m.pages == free[..n]
    ensures Partition(free[n..], maps[id := m], total) <==> id !in maps || maps[id].pages == []
  {
    var free', maps' := free[n..], maps[id := m];
    assert free == free[..n] + free';
    if id in maps && maps[id].pages != [] {
      var p := maps[id].pages[0];
      assert Owns(maps, id, p) && p !in free && p !in free';
      forall i: nat ensures !Owns(maps', i, p) {
        if i != id && Owns(maps', i, p) {
          assert Owns(maps, i, p);
        }
      }
    } else {
      AllocateDisjoint(free, maps, total, n, m, id);
      forall p: nat | p < total && p !in free' ensures exists i: nat :: Owns(maps', i, p) {
        if p in free {
          assert Owns(maps', id, p);
        } else {
          var i :| Owns(maps, i, p);
          assert Owns(maps', i, p);
        }
      }
    }
  }

  lemma AllocateDisjoint(free: seq<nat>, maps: map<nat, BlockMapping>, total: nat, n: nat, m: BlockMapping, id: nat)
    requires Partition(free, maps, total) && n <= |free| && m.pages == free[..n]
    requires id !in maps || maps[id].pages == []
    ensures var free', maps' := free[n..], maps[id := m];
            && Distinct(free')
            && (forall i :: i in maps' ==> Distinct(maps'[i].pages))
            && (forall i: nat, p: nat :: Owns(maps', i, p) ==> p < total && p !in free')
            && (forall i: nat, i': nat, p: nat :: Owns(maps', i, p) && Owns(maps', i', p) ==> i == i')
            && (forall p: nat :: p in free' ==> p < total)
  {
    var free', maps' := free[n..], maps[id := m];
    assert free == m.pages + free';
    forall p: nat | p in m.pages ensures p in free && p !in free' {
      var a :| 0 <= a < n && m.pages[a] == p;
      assert free[a] == p && forall b :: 0 <= b < |free'| ==> free'[b] == free[n + b];
    }
    forall i: nat, p: nat | Owns(maps', i, p) ensures if i == id then p in m.pages else Owns(maps, i, p) {}
    forall p: nat | p in free' ensures p in free {}
  }

  lemma ReleaseKeepsPartition(free: seq<nat>, maps: map<nat, BlockMapping>, total: nat, id: nat)
    requires Partition(free, maps, total) && id in maps
    ensures Partition(free + maps[id].pages, maps - {id}, total)
  {
    var free', maps', pages := free + maps[id].pages, maps - {id}, maps[id].pages;
    forall p: nat | p in pages ensures Owns(maps, id, p) {}
    forall i, j | 0 <= i < j < |free'| ensures free'[i] != free'[j] {
      if i < |free| <= j {
        assert free'[j] == pages[j - |free|] && Owns(maps, id, pages[j - |free|]);
        assert free'[i] in free;
      }
    }
    forall i: nat, p: nat | Owns(maps', i, p) ensures Owns(maps, i, p) && p !in pages {
      if p in pages {
        assert Owns(maps, i, p) && Owns(maps, id, p);
      }
    }
    forall p: nat | p < total && p !in free' ensures exists i: nat :: Owns(maps', i, p) {
      var i :| Owns(maps, i, p);
      assert Owns(maps', i, p);
    }
  }

  class PagedAttentionBlockManager {
    const blockSize: nat
    const totalPages: nat
    var freePages: seq<nat>
    var mappings: map<nat, BlockMapping>

    ghost predicate Valid()
      reads this
    {
      blockSize > 0 && Partition(freePages, mappings, totalPages)
    }

    constructor (blockSize: nat, totalPages: nat)
      requires blockSize > 0
      ensures Valid() && mappings == map[] && this.blockSize == blockSize && this.totalPages == totalPages
      ensures freePages == seq(totalPages, i => i)
    {
      this.blockSize := blockSize;
      this.totalPages := totalPages;
      freePages := seq(totalPages, i => i);
      mappings := map[];
      new;
      forall p: nat | p < totalPages ensures p in freePages {
        assert freePages[p] == p;
      }
    }

    /** Pop pages off the front of the free queue. */
    method Allocate(handle: Handle, tokenLen: nat) returns (r: Result<BlockMapping, PageError>)
      requires blockSize > 0
      modifies this
      ensures PagesFor(tokenLen, blockSize) > |old(freePages)| ==>
        && r == Err(OutOfPages(PagesFor(tokenLen, blockSize), |old(freePages)|))
        && freePages == old(freePages) && mappings == old(mappings)
      ensures PagesFor(tokenLen, blockSize) <= |old(freePages)| ==>
        && r == Ok(BlockMapping(handle, old(freePages)[..PagesFor(tokenLen, blockSize)], tokenLen))
        && freePages == old(freePages)[PagesFor(tokenLen, blockSize)..]
        && mappings == old(mappings)[handle.blockId := r.value]
      ensures old(Valid()) && (r.Err? || handle.blockId !in old(mappings)) ==> Valid()
    {
      var required, available := PagesFor(tokenLen, blockSize), |freePages|;
      if required > available {
        return Err(OutOfPages(required, available));
      }
      var pages := [];
      for n := 0 to required
        invariant n <= |old(freePages)| && mappings == old(mappings)
        invariant pages == old(freePages)[..n] && freePages == old(freePages)[n..]
      {
        pages := pages + [freePages[0]];
        freePages := freePages[1..];
      }
      var mapping := BlockMapping(handle, pages, tokenLen);
      mappings := mappings[handle.blockId := mapping];
      if old(Valid()) {
        AllocateKeepsPartition(old(freePages), old(mappings), totalPages, required, mapping, handle.blockId);
      }
      r := Ok(mapping);
    }

    /** Push a mapping's pages back, in order. */
    method Release(handle: Handle) returns (r: Result<(), PageError>)
      requires Valid()
      modifies this
      ensures Valid()
      ensures handle.blockId !in old(mappings) ==>
        r == Err(UnknownHandle(handle)) && freePages == old(freePages) && mappings == old(mappings)
      ensures handle.blockId in old(mappings) ==>
        && r == Ok(())
        && freePages == old(freePages) + old(mappings)[handle.blockId].pages
        && mappings == old(mappings) - {handle.blockId}
    {
      if handle.blockId !in mappings {
        return Err(UnknownHandle(handle));
      }
      ReleaseKeepsPartition(freePages, mappings, totalPages, handle.blockId);
      var pages := mappings[handle.blockId].pages;
      mappings := mappings - {handle.blockId};
      for n := 0 to |pages|
        invariant mappings == old(mappings) - {handle.blockId}
        invariant freePages == old(freePages) + pages[..n]
      {
        freePages := freePages + [pages[n]];
      }
      assert pages[..|pages|] == pages;
      r := Ok(());
    }

    function MaterializeSpan(handle: Handle): (r: Option<seq<nat>>)
      reads this
      ensures r.Some? <==> handle.blockId in mappings
      ensures r.Some? ==> r.value == mappings[handle.blockId].pages
    {
      if handle.blockId in mappings then Some(mappings[handle.blockId].pages) else None
    }

    /** The page lists of two different sequences share no page, with each other or with the free queue, and every page
        is in the pool and listed once. */
    lemma SpansDisjoint(h: Handle, h': Handle)
      requires Valid() && h.blockId != h'.blockId && MaterializeSpan(h).Some? && MaterializeSpan(h').Some?
      ensures var ps, ps' := MaterializeSpan(h).value, MaterializeSpan(h').value;
              && Distinct(ps)
              && forall i :: 0 <= i < |ps| ==> ps[i] !in ps' && ps[i] !in freePages && ps[i] < totalPages
    {
      var ps, ps' := MaterializeSpan(h).value, MaterializeSpan(h').value;
      forall i | 0 <= i < |ps| ensures ps[i] !in ps' && ps[i] !in freePages && ps[i] < totalPages {
        assert Owns(mappings, h.blockId, ps[i]);
        if ps[i] in ps' {
          assert Owns(mappings, h'.blockId, ps[i]);
        }
      }
    }
  }

  // ----- Slots -----

  class SlotPool {
    var freeSlots: seq<nat>
    const maxSlots: nat

    ghost predicate Valid()
      reads this
    {
      Distinct(freeSlots) && forall i :: 0 <= i < |freeSlots| ==> freeSlots[i] < maxSlots
    }

    constructor (maxSlots: nat)
      ensures Valid() && freeSlots == seq(maxSlots, i => i) && this.maxSlots == maxSlots
    {
      this.maxSlots := maxSlots;
      freeSlots := seq(maxSlots, i => i);
    }

    method Alloc() returns (r: Option<nat>)
      modifies this
      ensures old(freeSlots) == [] ==> r == None && freeSlots == []
      ensures old(freeSlots) != [] ==> r == Some(old(freeSlots)[0]) && freeSlots == old(freeSlots)[1..]
      ensures old(Valid()) ==> Valid()
    {
      if freeSlots == [] {
        return None;
      }
      r := Some(freeSlots[0]);
      freeSlots := freeSlots[1..];
    }

    /** Panics on a slot outside the pool; a slot that is already free would be queued twice. */
    method Release(slot: nat)
      requires slot < maxSlots
      modifies this
      ensures freeSlots == old(freeSlots) + [slot]
      ensures old(Valid()) ==> (Valid() <==> slot !in old(freeSlots))
    {
      freeSlots := freeSlots + [slot];
      if slot in old(freeSlots) {
        var i :| 0 <= i < |old(freeSlots)| && old(freeSlots)[i] == slot;
        assert freeSlots[i] == freeSlots[|freeSlots| - 1];
      }
    }
  }
}
