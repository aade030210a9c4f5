/** Block-quantised weight rows. */
module Quantized {
  import opened Common
  import opened Arithmetic
  import opened Chunks

  datatype Quant = F32 | F16 | Q4_0 | Q4K | Q8K

  /** Elements per block, as the sharding code counts them. */
  function BlockSize(q: Quant): (n: nat)
    ensures n > 0
  {
    if q.F32? || q.F16? then 1 else 32
  }

  /** The number formats themselves: a half from two bytes, a single from four. */
  datatype Codec = Codec(half: (byte, byte) -> real, single: (byte, byte, byte, byte) -> real)

  /** The formats whose rows are cut on block boundaries. */
  predicate Blocked(q: Quant) {
    q.F32? || q.Q4_0?
  }

  function BlockBytes(q: Quant): nat
    requires Blocked(q)
  {
    if q.F32? then 4 else 18
  }

  /** Low nibble first, recentred around zero. */
  function Nibble(b: byte, hi: bool): int {
    (if hi then b / 16 else b % 16) - 8
  }

  /** The numbers in one block. */
  function BlockValues(c: Codec, q: Quant, b: seq<byte>): (r: seq<real>)
    requires Blocked(q) && |b| == BlockBytes(q)
    ensures |r| == BlockSize(q)
  {
    if q.F32? then [c.single(b[0], b[1], b[2], b[3])]
    else seq(32, j requires 0 <= j < 32 => c.half(b[0], b[1]) * Nibble(b[2 + j / 2], j % 2 == 1) as real)
  }

  function Blocks(c: Codec, q: Quant, bytes: seq<byte>, n: nat): (bs: seq<seq<real>>)
    requires Blocked(q) && n * BlockBytes(q) <= |bytes|
    ensures |bs| == n && forall i :: 0 <= i < n ==>
      i * BlockBytes(q) + BlockBytes(q) <= |bytes| && bs[i] == BlockValues(c, q, Chunk(bytes, i, BlockBytes(q)))
  {
    seq(n, i requires 0 <= i < n => ChunkFits(i, n, BlockBytes(q)); BlockValues(c, q, Chunk(bytes, i, BlockBytes(q))))
  }

  /** A row of `n` blocks. */
  function DequantRow(c: Codec, q: Quant, bytes: seq<byte>, n: nat): (r: seq<real>)
    requires Blocked(q) && n * BlockBytes(q) <= |bytes|
    ensures |r| == n * BlockSize(q)
  {
    JoinLen(Blocks(c, q, bytes, n), BlockSize(q));
    Join(Blocks(c, q, bytes, n))
  }

  lemma DequantBlock(c: Codec, q: Quant, bytes: seq<byte>, n: nat, i: nat)
    requires Blocked(q) && n * BlockBytes(q) <= |bytes| && i < n
    ensures i * BlockBytes(q) + BlockBytes(q) <= |bytes| && i * BlockSize(q) + BlockSize(q) <= n * BlockSize(q)
    ensures Chunk(DequantRow(c, q, bytes, n), i, BlockSize(q)) == BlockValues(c, q, Chunk(bytes, i, BlockBytes(q)))
  {
    JoinChunk(Blocks(c, q, bytes, n), BlockSize(q), i);
  }

  /** Block `i` of a shard is block `rank * k + i` of the row. */
  lemma ShardBlock(c: Codec, q: Quant, bytes: seq<byte>, degree: nat, k: nat, rank: nat, i: nat, bb: nat, be: nat)
    requires Blocked(q) && rank < degree && i < k && bb == BlockBytes(q) && be == BlockSize(q)
    requires |bytes| == (degree * k) * bb
    requires rank * (k * bb) + k * bb <= |bytes| && rank * (k * be) + k * be <= (degree * k) * be
    ensures i * be + be <= k * be && i * bb + bb <= k * bb
    ensures BlockValues(c, q, Chunk(Chunk(bytes, rank, k * bb), i, bb))
         == Chunk(Chunk(DequantRow(c, q, bytes, degree * k), rank, k * be), i, be)
  {
    hide BlockBytes, BlockSize, BlockValues, DequantRow, Blocked;
    ShardIndex(rank, degree, k, i);
    ChunkOfChunk(bytes, rank, k, bb, i);
    DequantBlock(c, q, bytes, degree * k, rank * k + i);
    ChunkOfChunk(DequantRow(c, q, bytes, degree * k), rank, k, be, i);
  }

  /** Cutting a row's bytes on block boundaries and dequantising is dequantising and cutting. */
  lemma DequantShard(c: Codec, q: Quant, bytes: seq<byte>, degree: nat, k: nat, rank: nat)
    requires Blocked(q) && rank < degree && |bytes| == (degree * k) * BlockBytes(q)
    ensures rank * (k * BlockBytes(q)) + k * BlockBytes(q) <= |bytes|
    ensures rank * (k * BlockSize(q)) + k * BlockSize(q) <= (degree * k) * BlockSize(q)
    ensures Chunk(DequantRow(c, q, bytes, degree * k), rank, k * BlockSize(q))
         == DequantRow(c, q, Chunk(bytes, rank, k * BlockBytes(q)), k)
  {
    hide BlockBytes, BlockSize, BlockValues, DequantRow, Blocked, Chunk;
    var bb, be := BlockBytes(q), BlockSize(q);
    ShardFits(rank, degree, k, bb);
    ShardFits(rank, degree, k, be);
    var part := Chunk(bytes, rank, k * bb);
    var want := Chunk(DequantRow(c, q, bytes, degree * k), rank, k * be);
    var pieces := Blocks(c, q, part, k);
    forall i | 0 <= i < k ensures i * be + be <= |want| && pieces[i] == Chunk(want, i, be) {
      ShardBlock(c, q, bytes, degree, k, rank, i, bb, be);
    }
    JoinAll(want, pieces, be);
    DequantIsJoin(c, q, part, k);
  }

  lemma DequantIsJoin(c: Codec, q: Quant, bytes: seq<byte>, n: nat)
    requires Blocked(q) && n * BlockBytes(q) <= |bytes|
    ensures DequantRow(c, q, bytes, n) == Join(Blocks(c, q, bytes, n))
  {}

  lemma ShardIndex(rank: nat, degree: nat, k: nat, i: nat)
    requires rank < degree && i < k
    ensures rank * k + i < degree * k
  {
    MulLess(rank, degree, k);
  }

  lemma ShardFits(rank: nat, degree: nat, k: nat, n: nat)
    requires rank < degree
    ensures rank * (k * n) + k * n <= (degree * k) * n
  {
    MulLess(rank, degree, k * n);
    MulAssoc(degree, k, n);
  }

  /** `dequant_q4_0_block`: byte by byte, two numbers per byte, from `at` on. */
  method DequantQ40Block(c: Codec, block: seq<byte>, out: array<real>, at: nat)
    requires |block| == 18 && at + 32 <= out.Length
    modifies out
    ensures out[..at] == old(out[..at]) && out[at + 32..] == old(out[at + 32..])
    ensures out[at..at + 32] == BlockValues(c, Q4_0, block)
    ensures forall i :: 0 <= i < 16 ==>
      && out[at + 2 * i] == c.half(block[0], block[1]) * (block[2 + i] as int % 16 - 8) as real
      && out[at + 2 * i + 1] == c.half(block[0], block[1]) * (block[2 + i] as int / 16 - 8) as real
  {
    hide BlockValues, Nibble;
    ghost var vals := BlockValues(c, Q4_0, block);
    var delta := c.half(block[0], block[1]);
    for i := 0 to 16
      invariant forall j :: 0 <= j < 2 * i ==> out[at + j] == vals[j]
      invariant out[..at] == old(out[..at]) && out[at + 32..] == old(out[at + 32..])
    {
      NibblePair(c, block, i);
      var x := block[2 + i];
      out[at + i * 2] := delta * Nibble(x, false) as real;
      out[at + i * 2 + 1] := delta * Nibble(x, true) as real;
    }
    BlockDigits(c, block);
    forall i | 0 <= i < 16 ensures out[at + 2 * i] == vals[2 * i] && out[at + 2 * i + 1] == vals[2 * i + 1] {
      assert out[at + (2 * i)] == vals[2 * i] && out[at + (2 * i + 1)] == vals[2 * i + 1];
    }
  }

  /** Each byte holds two numbers: the first from its low digit in base 16, the second from its high digit. */
  lemma BlockDigits(c: Codec, b: seq<byte>)
    requires |b| == 18
    ensures forall i :: 0 <= i < 16 ==>
      && BlockValues(c, Q4_0, b)[2 * i] == c.half(b[0], b[1]) * (b[2 + i] as int % 16 - 8) as real
      && BlockValues(c, Q4_0, b)[2 * i + 1] == c.half(b[0], b[1]) * (b[2 + i] as int / 16 - 8) as real
  {
    hide BlockValues;
    forall i | 0 <= i < 16
      ensures BlockValues(c, Q4_0, b)[2 * i] == c.half(b[0], b[1]) * (b[2 + i] as int % 16 - 8) as real
      ensures BlockValues(c, Q4_0, b)[2 * i + 1] == c.half(b[0], b[1]) * (b[2 + i] as int / 16 - 8) as real
    {
      NibblePair(c, b, i);
    }
  }

  /** `dequant_q4_0_row`: block by block, as many whole blocks as `out` has room for. */
  method DequantQ40Row(c: Codec, data: seq<byte>, out: array<real>)
    requires out.Length / 32 * 18 <= |data|
    modifies out
    ensures out[..out.Length / 32 * 32] == DequantRow(c, Q4_0, data, out.Length / 32)
    ensures out[out.Length / 32 * 32..] == old(out[out.Length / 32 * 32..])
  {
    hide DequantRow, BlockValues;
    var n := out.Length / 32;
    ghost var want := DequantRow(c, Q4_0, data, n);
    assert want[..0] == [];
    for b := 0 to n
      invariant out[..b * 32] == want[..b * 32]
      invariant out[n * 32..] == old(out[n * 32..])
    {
      DequantBlock(c, Q4_0, data, n, b);
      ghost var before, end := out[..], n * 32;
      DequantQ40Block(c, data[b * 18..b * 18 + 18], out, b * 32);
      assert Chunk(want, b, 32) == out[b * 32..b * 32 + 32];
      GrowPrefix(before, out[..], want, b * 32, 32);
      SameTail(before, out[..], b * 32 + 32, end);
    }
    assert want[..n * 32] == want;
  }

  lemma GrowPrefix(before: seq<real>, after: seq<real>, want: seq<real>, at: nat, n: nat)
    requires |before| == |after| && at + n <= |after| && at + n <= |want|
    requires before[..at] == want[..at] && after[..at] == before[..at]
    requires after[at..at + n] == want[at..at + n]
    ensures after[..at + n] == want[..at + n]
  {
    assert after[..at + n] == after[..at] + after[at..at + n];
    assert want[..at + n] == want[..at] + want[at..at + n];
  }

  lemma SameTail(before: seq<real>, after: seq<real>, at: nat, end: nat)
    requires |before| == |after| && at <= end <= |after| && before[at..] == after[at..]
    ensures before[end..] == after[end..]
  {
    assert before[end..] == before[at..][end - at..];
    assert after[end..] == after[at..][end - at..];
  }

  lemma NibblePair(c: Codec, b: seq<byte>, i: nat)
    requires |b| == 18 && i < 16
    ensures var r := BlockValues(c, Q4_0, b);
            r[2 * i] == c.half(b[0], b[1]) * Nibble(b[2 + i], false) as real
            && r[2 * i + 1] == c.half(b[0], b[1]) * Nibble(b[2 + i], true) as real
  {
    hide Nibble;
    assert 2 * i / 2 == i && 2 * i % 2 == 0 && (2 * i + 1) / 2 == i && (2 * i + 1) % 2 == 1;
  }

  /** `copy_f32_row`: whole four-byte groups, as many as there are and as fit. */
  method CopyF32Row(c: Codec, data: seq<byte>, out: array<real>) returns (n: nat)
    modifies out
    ensures n == if |data| / 4 < out.Length then |data| / 4 else out.Length
    ensures out[..n] == DequantRow(c, F32, data, n) && out[n..] == old(out[n..])
  {
    n := if |data| / 4 < out.Length then |data| / 4 else out.Length;
    ghost var want := DequantRow(c, F32, data, n);
    for i := 0 to n
      invariant forall j :: 0 <= j < i ==> out[j] == want[j]
      invariant out[n..] == old(out[n..])
    {
      DequantBlock(c, F32, data, n, i);
      assert Chunk(want, i, 1)[0] == want[i * 1 + 0];
      out[i] := c.single(data[i * 4], data[i * 4 + 1], data[i * 4 + 2], data[i * 4 + 3]);
    }
  }
}
