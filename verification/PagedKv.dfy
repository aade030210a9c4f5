/** Paged addressing of the KV cache: the page table, the update kernel, and the flat cache they refine. */
module PagedKv {
  import opened Common
  import opened Arithmetic

  /** Layout of one layer's cache: pages of `blockSize` tokens, each `heads` vectors of `dim` numbers;
      a table of `slots` rows of `maxPages` page numbers. */
  datatype Layout = Layout(blockSize: nat, heads: nat, dim: nat, totalPages: nat, maxPages: nat, slots: nat)

  predicate LayoutOk(g: Layout) {
    g.blockSize > 0 && g.heads > 0 && g.dim > 0
  }

  /** Numbers per token. */
  function Stride(g: Layout): nat {
    g.heads * g.dim
  }

  function PoolLen(g: Layout): nat {
    g.totalPages * g.blockSize * Stride(g)
  }

  function TableLen(g: Layout): nat {
    g.slots * g.maxPages
  }

  /** Offset of a token's vector in the pool. */
  function TokenAddr(g: Layout, page: nat, tok: nat): nat {
    (page * g.blockSize + tok) * Stride(g)
  }

  /** The kernels' offset of (page, token, head, dim). */
  function Addr(g: Layout, page: nat, tok: nat, head: nat, d: nat): nat {
    page * g.blockSize * g.heads * g.dim + tok * g.heads * g.dim + head * g.dim + d
  }

  lemma AddrInToken(g: Layout, page: nat, tok: nat, head: nat, d: nat)
    ensures Addr(g, page, tok, head, d) == TokenAddr(g, page, tok) + (head * g.dim + d)
  {
    var x := page * g.blockSize;
    MulAssoc(x, g.heads, g.dim);
    MulAssoc(tok, g.heads, g.dim);
    assert (x + tok) * Stride(g) == x * Stride(g) + tok * Stride(g);
  }

  lemma InVector(g: Layout, head: nat, d: nat)
    requires head < g.heads && d < g.dim
    ensures head * g.dim + d < Stride(g)
  {
    MulLess(head, g.heads, g.dim);
  }

  lemma TokenInBounds(g: Layout, page: nat, tok: nat)
    requires page < g.totalPages && tok < g.blockSize
    ensures TokenAddr(g, page, tok) + Stride(g) <= PoolLen(g)
  {
    MulLess(page, g.totalPages, g.blockSize);
    MulLess(page * g.blockSize + tok, g.totalPages * g.blockSize, Stride(g));
  }

  /** Different tokens occupy disjoint ranges. */
  lemma TokensApart(g: Layout, page: nat, tok: nat, page': nat, tok': nat)
    requires tok < g.blockSize && tok' < g.blockSize && (page != page' || tok != tok')
    ensures TokenAddr(g, page, tok) + Stride(g) <= TokenAddr(g, page', tok')
         || TokenAddr(g, page', tok') + Stride(g) <= TokenAddr(g, page, tok)
  {
    var a, b := page * g.blockSize + tok, page' * g.blockSize + tok';
    if a == b {
      RadixUnique(page, tok, page', tok', g.blockSize);
    } else if a < b {
      MulLess(a, b, Stride(g));
    } else {
      MulLess(b, a, Stride(g));
    }
  }

  /** The address map is in bounds, and two cells share an address only if they are the same cell. */
  lemma AddrInjective(g: Layout, page: nat, tok: nat, head: nat, d: nat, page': nat, tok': nat, head': nat, d': nat)
    requires page < g.totalPages && tok < g.blockSize && head < g.heads && d < g.dim
    requires page' < g.totalPages && tok' < g.blockSize && head' < g.heads && d' < g.dim
    ensures Addr(g, page, tok, head, d) < PoolLen(g)
    ensures Addr(g, page, tok, head, d) == Addr(g, page', tok', head', d') ==>
      page == page' && tok == tok' && head == head' && d == d'
  {
    hide Addr, TokenAddr, PoolLen, Stride;
    AddrInToken(g, page, tok, head, d);
    AddrInToken(g, page', tok', head', d');
    InVector(g, head, d);
    InVector(g, head', d');
    TokenInBounds(g, page, tok);
    if page != page' || tok != tok' {
      TokensApart(g, page, tok, page', tok');
    } else if head * g.dim + d == head' * g.dim + d' {
      RadixUnique(head, d, head', d', g.dim);
    }
  }

  // ----- The page table -----

  function RowBase(g: Layout, slot: nat): nat {
    slot * g.maxPages
  }

  /** Row `slot` of the table. */
  ghost function RowOf(g: Layout, table: seq<nat>, slot: nat): (row: seq<nat>)
    requires |table| == TableLen(g) && slot < g.slots
    ensures |row| == g.maxPages
  {
    RowInBounds(g, slot);
    table[RowBase(g, slot)..RowBase(g, slot) + g.maxPages]
  }

  /** The row as `bind_slot` leaves it: the pages, then zeros. */
  ghost predicate RowIs(g: Layout, table: seq<nat>, slot: nat, pages: seq<nat>) {
    && |table| == TableLen(g) && slot < g.slots && |pages| <= g.maxPages
    && RowOf(g, table, slot) == pages + Repeat(0, g.maxPages - |pages|)
  }

  /** The row begins with the pages. What follows them, or stands in the row of a slot that serves nobody, is not
      constrained: releasing a slot does not clear its row. */
  ghost predicate RowHolds(g: Layout, table: seq<nat>, slot: nat, pages: seq<nat>) {
    && |table| == TableLen(g) && slot < g.slots && |pages| <= g.maxPages
    && RowOf(g, table, slot)[..|pages|] == pages
  }

  lemma RowIsHolds(g: Layout, table: seq<nat>, slot: nat, pages: seq<nat>)
    requires RowIs(g, table, slot, pages)
    ensures RowHolds(g, table, slot, pages)
  {}

  lemma RowInBounds(g: Layout, slot: nat)
    requires slot < g.slots
    ensures RowBase(g, slot) + g.maxPages <= TableLen(g)
  {
    MulLess(slot, g.slots, g.maxPages);
  }

  lemma RowsApart(g: Layout, slot: nat, other: nat)
    requires other != slot
    ensures RowBase(g, slot) + g.maxPages <= RowBase(g, other) || RowBase(g, other) + g.maxPages <= RowBase(g, slot)
  {
    if slot < other {
      MulLess(slot, other, g.maxPages);
    } else {
      MulLess(other, slot, g.maxPages);
    }
  }

  /** Write one slot's row: copy the pages, zero the rest. Other rows keep their contents; too many pages
      are refused with the table untouched. */
  method BindSlot(g: Layout, table: array<nat>, slot: nat, pages: seq<nat>) returns (ok: bool)
    requires table.Length == TableLen(g) && slot < g.slots
    modifies table
    ensures ok <==> |pages| <= g.maxPages
    ensures !ok ==> table[..] == old(table[..])
    ensures ok ==> RowIs(g, table[..], slot, pages)
    ensures forall other: nat :: other != slot && other < g.slots ==> RowOf(g, table[..], other) == RowOf(g, old(table[..]), other)
  {
    if |pages| > g.maxPages {
      return false;
    }
    RowInBounds(g, slot);
    var start := RowBase(g, slot);
    hide TableLen, RowBase;
    for i := 0 to |pages|
      invariant table[..start] == old(table[..start]) && table[start + g.maxPages..] == old(table[start + g.maxPages..])
      invariant table[start..start + i] == pages[..i]
    {
      table[start + i] := pages[i];
    }
    for i := |pages| to g.maxPages
      invariant table[..start] == old(table[..start]) && table[start + g.maxPages..] == old(table[start + g.maxPages..])
      invariant table[start..start + i] == pages + Repeat(0, i - |pages|)
    {
      table[start + i] := 0;
    }
    OtherRows(g, old(table[..]), table[..], slot);
    RowIsSlice(g, table[..], slot, start);
    assert table[..][start..start + g.maxPages] == table[start..start + g.maxPages];
    ok := true;
  }

  lemma OtherRows(g: Layout, before: seq<nat>, after: seq<nat>, slot: nat)
    requires |before| == |after| == TableLen(g) && RowBase(g, slot) + g.maxPages <= |before|
    requires after[..RowBase(g, slot)] == before[..RowBase(g, slot)]
    requires after[RowBase(g, slot) + g.maxPages..] == before[RowBase(g, slot) + g.maxPages..]
    ensures forall other: nat :: other != slot && other < g.slots ==> RowOf(g, after, other) == RowOf(g, before, other)
  {
    hide RowBase, TableLen;
    var start := RowBase(g, slot);
    forall other: nat | other != slot && other < g.slots ensures RowOf(g, after, other) == RowOf(g, before, other) {
      RowInBounds(g, other);
      RowsApart(g, slot, other);
      OtherRow(before, after, start, start + g.maxPages, RowBase(g, other), RowBase(g, other) + g.maxPages);
    }
  }

  lemma RowIsSlice(g: Layout, table: seq<nat>, slot: nat, start: nat)
    requires |table| == TableLen(g) && slot < g.slots && start == RowBase(g, slot)
    ensures start + g.maxPages <= |table| && RowOf(g, table, slot) == table[start..start + g.maxPages]
  {
    RowInBounds(g, slot);
  }

  /** Slices outside a rewritten range are unchanged. */
  lemma OtherRow(before: seq<nat>, after: seq<nat>, lo: nat, hi: nat, a: nat, b: nat)
    requires lo <= hi <= |before| == |after| && a <= b <= |before| && (hi <= a || b <= lo)
    requires after[..lo] == before[..lo] && after[hi..] == before[hi..]
    ensures after[a..b] == before[a..b]
  {
    forall i | a <= i < b ensures after[i] == before[i] {
      if b <= lo {
        assert after[..lo][i] == before[..lo][i];
      } else {
        assert after[hi..][i - hi] == before[hi..][i - hi];
      }
    }
  }

  /** Which page of a sequence holds a position, and where on that page. */
  function PageIdx(g: Layout, pos: nat): nat
    requires LayoutOk(g)
  {
    pos / g.blockSize
  }

  function TokIdx(g: Layout, pos: nat): nat
    requires LayoutOk(g)
  {
    pos % g.blockSize
  }

  lemma PosParts(g: Layout, pos: nat, pos': nat)
    requires LayoutOk(g)
    ensures TokIdx(g, pos) < g.blockSize && TokIdx(g, pos') < g.blockSize
    ensures PageIdx(g, pos) == PageIdx(g, pos') && TokIdx(g, pos) == TokIdx(g, pos') ==> pos == pos'
  {
    SameParts(pos, pos', g.blockSize);
  }

  /** Every slot is bound to its page list; no page is listed twice, by one slot or by two. */
  ghost predicate Bound(g: Layout, table: seq<nat>, rows: seq<seq<nat>>) {
    && |rows| == g.slots
    && (forall s :: 0 <= s < |rows| ==> RowHolds(g, table, s, rows[s]))
    && (forall s, i :: 0 <= s < |rows| && 0 <= i < |rows[s]| ==> rows[s][i] < g.totalPages)
    && (forall s, i, s', i' :: 0 <= s < |rows| && 0 <= i < |rows[s]| && 0 <= s' < |rows| && 0 <= i' < |rows[s']| && rows[s][i] == rows[s'][i']
          ==> s == s' && i == i')
  }

  /** Position `pos` of slot `s` lies on one of its pages. */
  ghost predicate Covered(g: Layout, rows: seq<seq<nat>>, s: nat, pos: nat)
    requires LayoutOk(g)
  {
    s < |rows| && PageIdx(g, pos) < |rows[s]|
  }

  ghost function Page(g: Layout, rows: seq<seq<nat>>, s: nat, pos: nat): nat
    requires LayoutOk(g) && Covered(g, rows, s, pos)
  {
    rows[s][PageIdx(g, pos)]
  }

  /** Where slot `s` keeps position `pos`. */
  ghost function Home(g: Layout, rows: seq<seq<nat>>, s: nat, pos: nat): nat
    requires LayoutOk(g) && Covered(g, rows, s, pos)
  {
    TokenAddr(g, Page(g, rows, s, pos), TokIdx(g, pos))
  }

  /** The page-table read every kernel makes. */
  lemma TableLookup(g: Layout, table: seq<nat>, rows: seq<seq<nat>>, s: nat, pos: nat)
    requires LayoutOk(g) && Bound(g, table, rows) && Covered(g, rows, s, pos)
    ensures RowBase(g, s) + PageIdx(g, pos) < |table|
    ensures table[RowBase(g, s) + PageIdx(g, pos)] == Page(g, rows, s, pos) < g.totalPages
    ensures Home(g, rows, s, pos) + Stride(g) <= PoolLen(g)
  {
    var i := PageIdx(g, pos);
    assert RowHolds(g, table, s, rows[s]);
    RowIsSlice(g, table, s, RowBase(g, s));
    assert RowOf(g, table, s)[..|rows[s]|][i] == rows[s][i];
    TokenInBounds(g, rows[s][i], TokIdx(g, pos));
  }

  lemma OneOwner(g: Layout, table: seq<nat>, rows: seq<seq<nat>>, s: nat, i: nat, s': nat, i': nat)
    requires Bound(g, table, rows) && s < |rows| && i < |rows[s]| && s' < |rows| && i' < |rows[s']|
    ensures rows[s][i] == rows[s'][i'] ==> s == s' && i == i'
  {}

  lemma SameParts(x: nat, y: nat, n: nat)
    requires n > 0
    ensures x / n == y / n && x % n == y % n ==> x == y
  {
    assert x == x / n * n + x % n && y == y / n * n + y % n;
  }

  /** Different positions, or positions of different slots, live apart. */
  lemma HomesApart(g: Layout, table: seq<nat>, rows: seq<seq<nat>>, s: nat, pos: nat, s': nat, pos': nat)
    requires LayoutOk(g) && Bound(g, table, rows) && Covered(g, rows, s, pos) && Covered(g, rows, s', pos')
    requires s != s' || pos != pos'
    ensures Home(g, rows, s, pos) + Stride(g) <= Home(g, rows, s', pos')
         || Home(g, rows, s', pos') + Stride(g) <= Home(g, rows, s, pos)
  {
    hide TokenAddr, Stride, Bound, PageIdx, TokIdx;
    PosParts(g, pos, pos');
    SlotTokensApart(g, table, rows, s, PageIdx(g, pos), TokIdx(g, pos), s', PageIdx(g, pos'), TokIdx(g, pos'));
  }

  lemma SlotTokensApart(g: Layout, table: seq<nat>, rows: seq<seq<nat>>, s: nat, i: nat, t: nat, s': nat, i': nat, t': nat)
    requires Bound(g, table, rows) && s < |rows| && i < |rows[s]| && s' < |rows| && i' < |rows[s']|
    requires t < g.blockSize && t' < g.blockSize && (s != s' || i != i' || t != t')
    ensures TokenAddr(g, rows[s][i], t) + Stride(g) <= TokenAddr(g, rows[s'][i'], t')
         || TokenAddr(g, rows[s'][i'], t') + Stride(g) <= TokenAddr(g, rows[s][i], t)
  {
    hide TokenAddr, Stride, Bound;
    OneOwner(g, table, rows, s, i, s', i');
    TokensApart(g, rows[s][i], t, rows[s'][i'], t');
  }

  // ----- The update kernel -----

  /** `s` with `vec` written from offset `at` on. */
  ghost function Patched(s: seq<real>, at: nat, vec: seq<real>): (r: seq<real>)
    requires at + |vec| <= |s|
    ensures |r| == |s|
  {
    s[..at] + vec + s[at + |vec|..]
  }

  /** The table entry the kernels read for a position, and the offset it stands for. Nothing is asked of the table
      but that the entry exists and names a page. */
  predicate HasEntry(g: Layout, table: seq<nat>, slot: nat, pos: nat)
    requires LayoutOk(g)
  {
    RowBase(g, slot) + PageIdx(g, pos) < |table| && table[RowBase(g, slot) + PageIdx(g, pos)] < g.totalPages
  }

  ghost function EntryAddr(g: Layout, table: seq<nat>, slot: nat, pos: nat): (a: nat)
    requires LayoutOk(g) && HasEntry(g, table, slot, pos)
    ensures a + Stride(g) <= PoolLen(g)
  {
    PosParts(g, pos, pos);
    TokenInBounds(g, table[RowBase(g, slot) + PageIdx(g, pos)], TokIdx(g, pos));
    TokenAddr(g, table[RowBase(g, slot) + PageIdx(g, pos)], TokIdx(g, pos))
  }

  /** At a covered position the entry is the slot's own page. */
  lemma CoveredEntry(g: Layout, table: seq<nat>, rows: seq<seq<nat>>, s: nat, pos: nat)
    requires LayoutOk(g) && Bound(g, table, rows) && Covered(g, rows, s, pos)
    ensures HasEntry(g, table, s, pos) && EntryAddr(g, table, s, pos) == Home(g, rows, s, pos)
  {
    hide Bound, PoolLen, Stride, TokenAddr;
    TableLookup(g, table, rows, s, pos);
  }

  /** The kernel's work for one token, one cache: thread `tpig` writes number `tpig` of the vector; surplus
      threads return at once. The vector lands where the table entry says, covered or not. */
  method KvUpdate(g: Layout, cache: array<real>, vec: seq<real>, slot: nat, table: seq<nat>, pos: nat, threads: nat)
    requires LayoutOk(g) && HasEntry(g, table, slot, pos)
    requires cache.Length == PoolLen(g) && |vec| == Stride(g) <= threads
    modifies cache
    ensures cache[..] == Patched(old(cache[..]), EntryAddr(g, table, slot, pos), vec)
  {
    hide HasEntry, EntryAddr, PoolLen, Stride;
    ghost var at := EntryAddr(g, table, slot, pos);
    var stride := Stride(g);
    for tpig := 0 to threads
      invariant forall e :: 0 <= e < tpig && e < stride ==> cache[at + e] == vec[e]
      invariant forall a :: 0 <= a < cache.Length && !(at <= a < at + tpig && a < at + stride) ==> cache[a] == old(cache[a])
    {
      KvThread(g, cache, vec, slot, table, pos, tpig);
    }
    assert cache[..at] == old(cache[..at]) && cache[at..at + stride] == vec && cache[at + stride..] == old(cache[at + stride..]);
  }

  /** One thread of the update kernel: it writes its own element of the vector, or is idle. */
  method KvThread(g: Layout, cache: array<real>, vec: seq<real>, slot: nat, table: seq<nat>, pos: nat, tpig: nat)
    requires LayoutOk(g) && HasEntry(g, table, slot, pos)
    requires cache.Length == PoolLen(g) && |vec| == Stride(g)
    modifies cache
    ensures cache[..] == if tpig < Stride(g) then old(cache[..])[EntryAddr(g, table, slot, pos) + tpig := vec[tpig]] else old(cache[..])
  {
    hide PoolLen, Stride, RowBase, PageIdx, TokIdx, TokenAddr, Addr;
    ghost var at := EntryAddr(g, table, slot, pos);
    var head, d := tpig / g.dim, tpig % g.dim;
    ThreadCell(g, tpig);
    if head < g.heads {
      var block := table[RowBase(g, slot) + PageIdx(g, pos)];
      AddrInToken(g, block, TokIdx(g, pos), head, d);
      cache[Addr(g, block, TokIdx(g, pos), head, d)] := vec[head * g.dim + d];
    }
  }

  /** A thread's head and dim give back its number; it is idle exactly when that is past the vector. */
  lemma ThreadCell(g: Layout, tpig: nat)
    requires LayoutOk(g)
    ensures tpig == (tpig / g.dim) * g.dim + tpig % g.dim
    ensures tpig / g.dim < g.heads <==> tpig < Stride(g)
  {
    var head, d := tpig / g.dim, tpig % g.dim;
    if head < g.heads {
      MulLess(head, g.heads, g.dim);
    } else {
      assert head * g.dim == (head - g.heads) * g.dim + g.heads * g.dim;
    }
  }

  // ----- Refinement of the flat cache -----

  /** Reading slot `s` through its pages gives its own flat array. */
  ghost predicate Refines(g: Layout, cache: seq<real>, rows: seq<seq<nat>>, flats: seq<seq<real>>)
    requires LayoutOk(g)
  {
    && |cache| == PoolLen(g) && |flats| == |rows|
    && forall s: nat, pos: nat :: Covered(g, rows, s, pos) ==> ReadsAs(g, cache, rows, flats, s, pos)
  }

  ghost predicate ReadsAs(g: Layout, cache: seq<real>, rows: seq<seq<nat>>, flats: seq<seq<real>>, s: nat, pos: nat)
    requires LayoutOk(g) && Covered(g, rows, s, pos) && |flats| == |rows|
  {
    && Home(g, rows, s, pos) + Stride(g) <= |cache|
    && FlatAddr(g, pos) + Stride(g) <= |flats[s]|
    && cache[Home(g, rows, s, pos)..Home(g, rows, s, pos) + Stride(g)] == flats[s][FlatAddr(g, pos)..FlatAddr(g, pos) + Stride(g)]
  }

  /** Offset of a position in the flat cache. */
  function FlatAddr(g: Layout, pos: nat): nat {
    pos * Stride(g)
  }

  /** `store_kv`: overwrite one position of a flat cache. */
  ghost function StoreKv(g: Layout, flat: seq<real>, pos: nat, vec: seq<real>): seq<real>
    requires |vec| == Stride(g) && FlatAddr(g, pos) + Stride(g) <= |flat|
  {
    Patched(flat, FlatAddr(g, pos), vec)
  }

  lemma PatchedReads(s: seq<real>, at: nat, vec: seq<real>, lo: nat, n: nat)
    requires at + |vec| <= |s| && lo + n <= |s|
    ensures lo == at && n == |vec| ==> Patched(s, at, vec)[lo..lo + n] == vec
    ensures lo + n <= at || at + |vec| <= lo ==> Patched(s, at, vec)[lo..lo + n] == s[lo..lo + n]
  {}

  /** One update through the page table is one update of its slot's flat array, and of no other. */
  lemma UpdateRefines(g: Layout, cache: seq<real>, table: seq<nat>, rows: seq<seq<nat>>, flats: seq<seq<real>>, s: nat, pos: nat, vec: seq<real>)
    requires LayoutOk(g) && Bound(g, table, rows) && Covered(g, rows, s, pos) && |vec| == Stride(g)
    requires Refines(g, cache, rows, flats)
    ensures ReadsAs(g, cache, rows, flats, s, pos)
    ensures Refines(g, Patched(cache, Home(g, rows, s, pos), vec), rows, flats[s := StoreKv(g, flats[s], pos, vec)])
  {
    assert ReadsAs(g, cache, rows, flats, s, pos);
    var cache', flats' := Patched(cache, Home(g, rows, s, pos), vec), flats[s := StoreKv(g, flats[s], pos, vec)];
    forall s': nat, pos': nat | Covered(g, rows, s', pos') ensures ReadsAs(g, cache', rows, flats', s', pos') {
      assert ReadsAs(g, cache, rows, flats, s', pos');
      UpdateReads(g, cache, table, rows, flats, s, pos, vec, s', pos');
    }
  }

  lemma UpdateReads(g: Layout, cache: seq<real>, table: seq<nat>, rows: seq<seq<nat>>, flats: seq<seq<real>>, s: nat, pos: nat, vec: seq<real>,
                    s': nat, pos': nat)
    requires LayoutOk(g) && Bound(g, table, rows) && |flats| == |rows| && |vec| == Stride(g)
    requires Covered(g, rows, s, pos) && ReadsAs(g, cache, rows, flats, s, pos)
    requires Covered(g, rows, s', pos') && ReadsAs(g, cache, rows, flats, s', pos')
    ensures ReadsAs(g, Patched(cache, Home(g, rows, s, pos), vec), rows, flats[s := StoreKv(g, flats[s], pos, vec)], s', pos')
  {
    var at, lo, n := Home(g, rows, s, pos), Home(g, rows, s', pos'), Stride(g);
    PatchedReads(cache, at, vec, lo, n);
    if s != s' || pos != pos' {
      HomesApart(g, table, rows, s, pos, s', pos');
    }
    if s == s' {
      PatchedReads(flats[s], FlatAddr(g, pos), vec, FlatAddr(g, pos'), n);
      if pos < pos' {
        MulLess(pos, pos', n);
      } else if pos' < pos {
        MulLess(pos', pos, n);
      }
    }
  }

  datatype Update = Update(slot: nat, pos: nat, vec: seq<real>)

  ghost predicate GoodUpdate(g: Layout, rows: seq<seq<nat>>, u: Update)
    requires LayoutOk(g)
  {
    Covered(g, rows, u.slot, u.pos) && |u.vec| == Stride(g)
  }

  /** What each slot's flat cache holds after a run of updates: only its own are applied to it. */
  ghost function FlatRun(g: Layout, rows: seq<seq<nat>>, flats: seq<seq<real>>, us: seq<Update>): (r: seq<seq<real>>)
    requires LayoutOk(g) && |flats| == |rows|
    requires forall i :: 0 <= i < |us| ==> GoodUpdate(g, rows, us[i]) && FlatAddr(g, us[i].pos) + Stride(g) <= |flats[us[i].slot]|
    ensures |r| == |flats| && forall s :: 0 <= s < |flats| ==> |r[s]| == |flats[s]|
  {
    if us == [] then flats
    else
      var u := us[|us| - 1];
      var before := FlatRun(g, rows, flats, us[..|us| - 1]);
      assert GoodUpdate(g, rows, u);
      before[u.slot := StoreKv(g, before[u.slot], u.pos, u.vec)]
  }

  /** The updates of slot `s` alone, applied to its own flat cache. */
  ghost function OwnRun(g: Layout, flat: seq<real>, us: seq<Update>, s: nat): (r: seq<real>)
    requires forall i :: 0 <= i < |us| && us[i].slot == s ==> |us[i].vec| == Stride(g) && FlatAddr(g, us[i].pos) + Stride(g) <= |flat|
    ensures |r| == |flat|
  {
    if us == [] then flat
    else
      var n := |us| - 1;
      var r := OwnRun(g, flat, us[..n], s);
      if us[n].slot == s then StoreKv(g, r, us[n].pos, us[n].vec) else r
  }

  /** The flat caches are independent: what a slot's cache holds after a run depends on its own updates only. */
  lemma {:induction false} FlatRunIsOwn(g: Layout, rows: seq<seq<nat>>, flats: seq<seq<real>>, us: seq<Update>, s: nat)
    requires LayoutOk(g) && |flats| == |rows| && s < |flats|
    requires forall i :: 0 <= i < |us| ==> GoodUpdate(g, rows, us[i]) && FlatAddr(g, us[i].pos) + Stride(g) <= |flats[us[i].slot]|
    ensures FlatRun(g, rows, flats, us)[s] == OwnRun(g, flats[s], us, s)
  {
    hide StoreKv, FlatAddr, Stride;
    if us != [] {
      FlatRunIsOwn(g, rows, flats, us[..|us| - 1], s);
    }
  }

  /** Paged memory refines flat memory: any interleaving of updates to bound slots reads back, slot by
      slot, as an independent flat array. */
  method ReplayUpdates(g: Layout, cache: array<real>, table: seq<nat>, us: seq<Update>, ghost rows: seq<seq<nat>>, ghost flats: seq<seq<real>>)
    requires LayoutOk(g) && Bound(g, table, rows)
    requires Refines(g, cache[..], rows, flats)
    requires forall i :: 0 <= i < |us| ==> GoodUpdate(g, rows, us[i]) && FlatAddr(g, us[i].pos) + Stride(g) <= |flats[us[i].slot]|
    modifies cache
    ensures Refines(g, cache[..], rows, FlatRun(g, rows, flats, us))
  {
    for n := 0 to |us|
      invariant Refines(g, cache[..], rows, FlatRun(g, rows, flats, us[..n]))
    {
      hide Bound, Refines, PoolLen, FlatAddr, RowBase, HasEntry, EntryAddr;
      var u := us[n];
      ghost var before, c := FlatRun(g, rows, flats, us[..n]), cache[..];
      assert GoodUpdate(g, rows, u);
      RefinesLen(g, c, rows, before);
      UpdateRefines(g, c, table, rows, before, u.slot, u.pos, u.vec);
      CoveredEntry(g, table, rows, u.slot, u.pos);
      KvUpdate(g, cache, u.vec, u.slot, table, u.pos, Stride(g));
      assert us[..n + 1][..n] == us[..n];
    }
    assert us[..|us|] == us;
  }

  lemma RefinesLen(g: Layout, cache: seq<real>, rows: seq<seq<nat>>, flats: seq<seq<real>>)
    requires LayoutOk(g) && Refines(g, cache, rows, flats)
    ensures |cache| == PoolLen(g) && |flats| == |rows|
  {}
}
