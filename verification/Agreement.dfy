/** The prefix cache, the block store and the page allocator describe the same sequences. */
module Agreement {
  import opened Common
  import opened RadixTree
  import opened PrefixMap
  import opened Memory

  /** The entry for `k` has a block and as many pages as its length needs, all under one handle. */
  ghost predicate Backed(m: map<Key, Entry>, blocks: map<nat, KvBlock>, maps: map<nat, BlockMapping>, bs: nat, k: Key)
    requires k in m && bs > 0
  {
    var h := m[k].handle;
    && k != [] && h.tokenLen == |k|
    && h.blockId in blocks && blocks[h.blockId].handle == h
    && h.blockId in maps && maps[h.blockId].handle == h
    && maps[h.blockId].tokenLen == |k| && |maps[h.blockId].pages| == PagesFor(|k|, bs)
  }

  ghost predicate KeyedBy(m: map<Key, Entry>, id: nat, k: Key) {
    k in m && m[k].handle.blockId == id
  }

  ghost predicate Agree(m: map<Key, Entry>, blocks: map<nat, KvBlock>, maps: map<nat, BlockMapping>, bs: nat) {
    && bs > 0
    && (forall k :: k in m ==> Backed(m, blocks, maps, bs, k))
    && (forall k, k', id: nat :: KeyedBy(m, id, k) && KeyedBy(m, id, k') ==> k == k')
    && (forall id: nat :: id in blocks || id in maps ==> exists k :: KeyedBy(m, id, k))
  }

  ghost function LiveHandles(m: map<Key, Entry>): set<Handle> {
    set k | k in m :: m[k].handle
  }

  ghost function StoredHandles(blocks: map<nat, KvBlock>): set<Handle> {
    set id | id in blocks :: blocks[id].handle
  }

  ghost function MappedHandles(maps: map<nat, BlockMapping>): set<Handle> {
    set id | id in maps :: maps[id].handle
  }

  /** The three components hold the same set of handles. */
  lemma SameHandles(m: map<Key, Entry>, blocks: map<nat, KvBlock>, maps: map<nat, BlockMapping>, bs: nat)
    requires Agree(m, blocks, maps, bs)
    ensures LiveHandles(m) == StoredHandles(blocks) == MappedHandles(maps)
  {
    hide Agree, Backed;
    forall h | h in LiveHandles(m) ensures h in StoredHandles(blocks) && h in MappedHandles(maps) {
      var k :| k in m && m[k].handle == h;
      EntryIsBacked(m, blocks, maps, bs, k);
    }
    forall h | h in StoredHandles(blocks) ensures h in LiveHandles(m) {
      var id :| id in blocks && blocks[id].handle == h;
      HandleIsLive(m, blocks, maps, bs, id);
    }
    forall h | h in MappedHandles(maps) ensures h in LiveHandles(m) {
      var id :| id in maps && maps[id].handle == h;
      HandleIsLive(m, blocks, maps, bs, id);
    }
  }

  lemma EntryIsBacked(m: map<Key, Entry>, blocks: map<nat, KvBlock>, maps: map<nat, BlockMapping>, bs: nat, k: Key)
    requires Agree(m, blocks, maps, bs) && k in m
    ensures var id := m[k].handle.blockId;
            id in blocks && blocks[id].handle == m[k].handle && id in maps && maps[id].handle == m[k].handle
  {
    assert Backed(m, blocks, maps, bs, k);
  }

  lemma HandleIsLive(m: map<Key, Entry>, blocks: map<nat, KvBlock>, maps: map<nat, BlockMapping>, bs: nat, id: nat)
    requires Agree(m, blocks, maps, bs) && (id in blocks || id in maps)
    ensures id in blocks && id in maps && blocks[id].handle == maps[id].handle && blocks[id].handle in LiveHandles(m)
  {
    var k :| KeyedBy(m, id, k);
    assert Backed(m, blocks, maps, bs, k);
  }

  /** A map with the same handles agrees as well. */
  lemma AgreeSameHandles(m: map<Key, Entry>, m': map<Key, Entry>, blocks: map<nat, KvBlock>, maps: map<nat, BlockMapping>, bs: nat)
    requires Agree(m, blocks, maps, bs)
    requires m'.Keys == m.Keys && forall k :: k in m ==> m'[k].handle == m[k].handle
    ensures Agree(m', blocks, maps, bs)
  {
    forall k | k in m' ensures Backed(m', blocks, maps, bs, k) {
      assert Backed(m, blocks, maps, bs, k);
    }
    forall k, id: nat ensures KeyedBy(m', id, k) <==> KeyedBy(m, id, k) {}
  }

  /** Forgetting an entry in all three places at once. */
  lemma AgreeRemove(m: map<Key, Entry>, blocks: map<nat, KvBlock>, maps: map<nat, BlockMapping>, bs: nat, x: Key)
    requires Agree(m, blocks, maps, bs) && x in m
    ensures var id := m[x].handle.blockId; Agree(m - {x}, blocks - {id}, maps - {id}, bs)
  {
    var id := m[x].handle.blockId;
    var m', blocks', maps' := m - {x}, blocks - {id}, maps - {id};
    assert KeyedBy(m, id, x);
    forall k, i: nat ensures KeyedBy(m', i, k) <==> KeyedBy(m, i, k) && i != id {
      assert KeyedBy(m, id, k) ==> k == x;
    }
    forall k | k in m' ensures Backed(m', blocks', maps', bs, k) {
      assert Backed(m, blocks, maps, bs, k);
      assert KeyedBy(m', m[k].handle.blockId, k);
    }
    forall i: nat | i in blocks' || i in maps' ensures exists k :: KeyedBy(m', i, k) {
      var k :| KeyedBy(m, i, k);
      assert KeyedBy(m', i, k);
    }
  }

  /** A fresh handle for a new key. */
  lemma AgreeAdd(m: map<Key, Entry>, blocks: map<nat, KvBlock>, maps: map<nat, BlockMapping>, bs: nat,
                 x: Key, e: Entry, block: KvBlock, mapping: BlockMapping)
    requires Agree(m, blocks, maps, bs) && x !in m && x != []
    requires var id := e.handle.blockId; id !in blocks && id !in maps
    requires e.handle.tokenLen == |x| && block.handle == e.handle
    requires mapping.handle == e.handle && mapping.tokenLen == |x| && |mapping.pages| == PagesFor(|x|, bs)
    ensures Agree(m[x := e], blocks[e.handle.blockId := block], maps[e.handle.blockId := mapping], bs)
  {
    var id := e.handle.blockId;
    var m', blocks', maps' := m[x := e], blocks[id := block], maps[id := mapping];
    forall k | k in m ensures m[k].handle.blockId != id {
      assert Backed(m, blocks, maps, bs, k);
    }
    forall k | k in m' ensures Backed(m', blocks', maps', bs, k) {
      if k != x {
        assert Backed(m, blocks, maps, bs, k);
      }
    }
    forall k, i: nat ensures KeyedBy(m', i, k) <==> (if k == x then i == id else KeyedBy(m, i, k)) {}
    forall i: nat | i in blocks' || i in maps' ensures exists k :: KeyedBy(m', i, k) {
      if i == id {
        assert KeyedBy(m', i, x);
      } else {
        var k :| KeyedBy(m, i, k);
        assert KeyedBy(m', i, k);
      }
    }
  }

  /** `cache_sequence` as a whole: store the new handle, forget the replaced one. */
  lemma AgreeInsert(m: map<Key, Entry>, blocks: map<nat, KvBlock>, maps: map<nat, BlockMapping>, bs: nat,
                    x: Key, h: Handle, tick: nat, block: KvBlock, mapping: BlockMapping)
    requires Agree(m, blocks, maps, bs) && x != []
    requires h.blockId !in blocks && h.blockId !in maps && h.tokenLen == |x| && block.handle == h
    requires mapping.handle == h && mapping.tokenLen == |x| && |mapping.pages| == PagesFor(|x|, bs)
    ensures var dead := if x in m then {m[x].handle.blockId} else {};
            Agree(Inserted(m, x, h, tick), blocks[h.blockId := block] - dead, maps[h.blockId := mapping] - dead, bs)
  {
    var t := Touch(m, [], tick);
    AgreeSameHandles(m, t, blocks, maps, bs);
    if x in m {
      assert Backed(m, blocks, maps, bs, x);
      hide Agree, Backed;
      var id := m[x].handle.blockId;
      AgreeRemove(t, blocks, maps, bs, x);
      AgreeAdd(t - {x}, blocks - {id}, maps - {id}, bs, x, Entry(h, tick), block, mapping);
      assert (t - {x})[x := Entry(h, tick)] == t[x := Entry(h, tick)];
      RemoveThenAdd(blocks, id, h.blockId, block);
      RemoveThenAdd(maps, id, h.blockId, mapping);
    } else {
      hide Agree, Backed;
      AgreeAdd(t, blocks, maps, bs, x, Entry(h, tick), block, mapping);
      RemoveNothing(blocks[h.blockId := block]);
      RemoveNothing(maps[h.blockId := mapping]);
    }
  }

  lemma RemoveThenAdd<V>(m: map<nat, V>, a: nat, b: nat, v: V)
    requires a != b
    ensures (m - {a})[b := v] == m[b := v] - {a}
  {}

  lemma RemoveNothing<V>(m: map<nat, V>)
    ensures m - {} == m
  {}

  /** Evicting from the cache alone breaks the agreement, unless nothing was evicted: the blocks and
      pages of evicted entries stay behind. This is why the engine's cache is unbounded. */
  lemma EvictionOrphans(m: map<Key, Entry>, blocks: map<nat, KvBlock>, maps: map<nat, BlockMapping>, bs: nat, gone: set<Key>)
    requires Agree(m, blocks, maps, bs) && gone <= m.Keys
    ensures Agree(m - gone, blocks, maps, bs) <==> gone == {}
  {
    if gone == {} {
      assert m - gone == m;
    } else {
      var x :| x in gone;
      var id := m[x].handle.blockId;
      assert Backed(m, blocks, maps, bs, x) && KeyedBy(m, id, x);
      forall k ensures !KeyedBy(m - gone, id, k) {
        assert KeyedBy(m - gone, id, k) ==> KeyedBy(m, id, k);
      }
    }
  }

  /** Pages needed by a set of cached sequences. */
  ghost function KeyPages(ks: set<Key>, bs: nat): nat
    requires bs > 0
  {
    if ks == {} then 0 else var k :| k in ks; PagesFor(|k|, bs) + KeyPages(ks - {k}, bs)
  }

  /** The allocator has handed out exactly the pages the cached sequences need. */
  lemma {:induction false} PagesMatchKeys(m: map<Key, Entry>, blocks: map<nat, KvBlock>, maps: map<nat, BlockMapping>, bs: nat)
    requires Agree(m, blocks, maps, bs)
    ensures MappedPages(maps) == KeyPages(m.Keys, bs)
    decreases |m|
  {
    if m == map[] {
      forall id: nat ensures id !in maps {
        assert forall k :: !KeyedBy(m, id, k);
      }
      assert maps == map[];
    } else {
      var k :| k in m.Keys && KeyPages(m.Keys, bs) == PagesFor(|k|, bs) + KeyPages(m.Keys - {k}, bs);
      assert Backed(m, blocks, maps, bs, k);
      var id := m[k].handle.blockId;
      AgreeRemove(m, blocks, maps, bs, k);
      assert (m - {k}).Keys == m.Keys - {k};
      PagesMatchKeys(m - {k}, blocks - {id}, maps - {id}, bs);
      MappedPagesRemove(maps, id);
    }
  }

  /** Page conservation: free pages plus the ceilings of all cached lengths make up the pool. */
  lemma PagesAddUp(m: map<Key, Entry>, blocks: map<nat, KvBlock>, maps: map<nat, BlockMapping>, bs: nat, free: seq<nat>, total: nat)
    requires Agree(m, blocks, maps, bs) && Partition(free, maps, total)
    ensures |free| + KeyPages(m.Keys, bs) == total
  {
    PagesConserved(free, maps, total);
    PagesMatchKeys(m, blocks, maps, bs);
  }
}
