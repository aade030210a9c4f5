/** Splitting weight tensors over devices. A matrix of `rows` rows is stored row after row, shape `[cols, rows]`. */
module Sharding {
  import opened Common
  import opened Arithmetic
  import opened Chunks
  import opened Quantized

  datatype Strategy = Replicated | Column | Row

  datatype Sharded = Sharded(data: seq<byte>, shape: seq<nat>)

  datatype ShardError = RowsNotDivisible | ColsNotDivisible | CutsBlock

  /** Output rows as the column split counts them: the last dimension. */
  function LastDim(shape: seq<nat>): nat
    requires shape != []
  {
    shape[|shape| - 1]
  }

  /** Output rows as the row split counts them: the second dimension, if any. */
  function SecondDim(shape: seq<nat>): nat {
    if |shape| > 1 then shape[1] else 1
  }

  predicate Splits(strategy: Strategy, degree: nat) {
    degree > 1 && !strategy.Replicated?
  }

  /** What a split needs of its tensor so that no index is out of range and nothing is divided by zero. */
  predicate Splittable(strategy: Strategy, shape: seq<nat>, degree: nat, rank: nat) {
    && shape != [] && rank < degree
    && (strategy.Column? ==> LastDim(shape) > 0)
    && (strategy.Row? ==> SecondDim(shape) > 0)
  }

  /** Why a split is refused, if it is. */
  function Refusal(shape: seq<nat>, q: Quant, strategy: Strategy, degree: nat): Option<ShardError>
    requires shape != [] && degree > 0
  {
    match strategy
    case Replicated => None
    case Column => if LastDim(shape) % degree != 0 then Some(RowsNotDivisible) else None
    case Row =>
      if shape[0] % degree != 0 then Some(ColsNotDivisible)
      else if shape[0] / degree % BlockSize(q) != 0 then Some(CutsBlock)
      else None
  }

  /** Bytes in a number of whole rows. */
  function BandSize(rows: nat, bytesPerRow: nat): nat {
    rows * bytesPerRow
  }

  /** `s` holds a contiguous band of rows. */
  ghost predicate IsBand(data: seq<byte>, shape: seq<nat>, degree: nat, rank: nat, s: Sharded)
    requires shape != [] && LastDim(shape) > 0 && degree > 0
  {
    var rows := LastDim(shape);
    var size := BandSize(rows / degree, |data| / rows);
    && s.shape == shape[|shape| - 1 := rows / degree]
    && rank * size + size <= |data|
    && s.data == Chunk(data, rank, size)
  }

  /** `s` holds the same stretch of every row. */
  ghost predicate IsStripe(data: seq<byte>, shape: seq<nat>, degree: nat, rank: nat, s: Sharded)
    requires shape != [] && SecondDim(shape) > 0 && degree > 0
  {
    var rows := SecondDim(shape);
    var full, part := |data| / rows, |data| / rows / degree;
    && s.shape == shape[0 := shape[0] / degree]
    && |s.data| == rows * part
    && rank * part + part <= full
    && forall r: nat :: r < rows ==> StripeRow(data, s.data, full, part, rank, r)
  }

  ghost predicate StripeRow(data: seq<byte>, sdata: seq<byte>, full: nat, part: nat, rank: nat, r: nat)
    requires rank * part + part <= full
  {
    && r * full + full <= |data| && r * part + part <= |sdata|
    && Chunk(sdata, r, part) == Chunk(Chunk(data, r, full), rank, part)
  }

  lemma BandFits(len: nat, rows: nat, degree: nat, rank: nat, h: nat, w: nat)
    requires rows == degree * h && rank < degree && rows * w <= len
    ensures rank * h * w == rank * (h * w) && (rank + 1) * h * w == rank * (h * w) + h * w
    ensures rank * (h * w) + h * w <= len
  {
    MulAssoc(rank, h, w);
    MulAssoc(rank + 1, h, w);
    NextPiece(rank, h * w);
    ShardFits(rank, degree, h, w);
  }

  lemma NextPiece(i: nat, n: nat)
    ensures (i + 1) * n == i * n + n
  {}

  lemma PartFits(full: nat, degree: nat, rank: nat)
    requires rank < degree
    ensures rank * (full / degree) + full / degree <= full
  {
    ChunkFits(rank, degree, full / degree);
    DivMulLe(full, degree);
  }

  method ShardWeight(data: seq<byte>, shape: seq<nat>, q: Quant, strategy: Strategy, degree: nat, rank: nat)
    returns (r: Result<Sharded, ShardError>)
    requires Splits(strategy, degree) ==> Splittable(strategy, shape, degree, rank)
    ensures !Splits(strategy, degree) ==> r == Ok(Sharded(data, shape))
    ensures Splits(strategy, degree) ==>
      match Refusal(shape, q, strategy, degree)
      case Some(e) => r == Err(e)
      case None => r.Ok? && if strategy.Column? then IsBand(data, shape, degree, rank, r.value)
                            else IsStripe(data, shape, degree, rank, r.value)
  {
    hide StripeRow, BlockSize, Chunk, IsBand, IsStripe;
    if degree <= 1 || strategy == Replicated {
      return Ok(Sharded(data, shape));
    }
    if strategy.Column? {
      var rows := LastDim(shape);
      if rows % degree != 0 {
        return Err(RowsNotDivisible);
      }
      var band := CutBand(data, shape, degree, rank);
      return Ok(band);
    }
    var cols := shape[0];
    if cols % degree != 0 {
      return Err(ColsNotDivisible);
    }
    var shardCols := cols / degree;
    if shardCols % BlockSize(q) != 0 {
      return Err(CutsBlock);
    }
    var stripe := CutStripe(data, shape, degree, rank);
    return Ok(stripe);
  }

  /** Whole rows: one slice. */
  method CutBand(data: seq<byte>, shape: seq<nat>, degree: nat, rank: nat) returns (s: Sharded)
    requires shape != [] && LastDim(shape) > 0 && rank < degree && LastDim(shape) % degree == 0
    ensures IsBand(data, shape, degree, rank, s)
  {
    hide IsBand, Chunk;
    var rows := LastDim(shape);
    ExactDiv(rows, degree);
    DivMulLe(|data|, rows);
    var band := BandBytes(data, rank, degree, rows, rows / degree, |data| / rows);
    s := Sharded(band, shape[|shape| - 1 := rows / degree]);
    BandIs(data, shape, degree, rank, band, rows, rows / degree, |data| / rows);
  }

  method BandBytes(data: seq<byte>, rank: nat, degree: nat, rows: nat, shardRows: nat, bytesPerRow: nat)
    returns (band: seq<byte>)
    requires rows == degree * shardRows && rank < degree && rows * bytesPerRow <= |data|
    ensures rank * (shardRows * bytesPerRow) + shardRows * bytesPerRow <= |data|
    ensures band == Chunk(data, rank, shardRows * bytesPerRow)
  {
    hide Chunk;
    BandFits(|data|, rows, degree, rank, shardRows, bytesPerRow);
    var start, end := rank * shardRows * bytesPerRow, (rank + 1) * shardRows * bytesPerRow;
    ChunkIs(data, rank, shardRows * bytesPerRow);
    band := data[start..end];
  }

  /** A piece of each row. */
  method CutStripe(data: seq<byte>, shape: seq<nat>, degree: nat, rank: nat) returns (s: Sharded)
    requires shape != [] && SecondDim(shape) > 0 && rank < degree
    ensures IsStripe(data, shape, degree, rank, s)
  {
    hide IsStripe, StripeRow;
    var rows := SecondDim(shape);
    var full := |data| / rows;
    DivMulLe(|data|, rows);
    var stripe := StripeRows(data, rows, full, degree, rank);
    StripeIs(data, shape, degree, rank, stripe, rows, full, full / degree);
    s := Sharded(stripe, shape[0 := shape[0] / degree]);
  }

  lemma BandIs(data: seq<byte>, shape: seq<nat>, degree: nat, rank: nat, band: seq<byte>, rows: nat, h: nat, w: nat)
    requires shape != [] && rows == LastDim(shape) && rows > 0 && degree > 0 && h == rows / degree && w == |data| / rows
    requires rank * (h * w) + h * w <= |data| && band == Chunk(data, rank, h * w)
    ensures IsBand(data, shape, degree, rank, Sharded(band, shape[|shape| - 1 := h]))
  {
    hide Chunk;
  }

  lemma StripeIs(data: seq<byte>, shape: seq<nat>, degree: nat, rank: nat, stripe: seq<byte>, rows: nat, full: nat, part: nat)
    requires shape != [] && rows == SecondDim(shape) && rows > 0 && degree > 0
    requires full == |data| / rows && part == full / degree
    requires |stripe| == rows * part && rank * part + part <= full
    requires forall r: nat :: r < rows ==> StripeRow(data, stripe, full, part, rank, r)
    ensures IsStripe(data, shape, degree, rank, Sharded(stripe, shape[0 := shape[0] / degree]))
  {
    hide StripeRow;
  }

  /** The loop over rows. */
  method StripeRows(data: seq<byte>, rows: nat, full: nat, degree: nat, rank: nat) returns (out: seq<byte>)
    requires rank < degree && rows * full <= |data|
    ensures var part := full / degree;
            && |out| == rows * part
            && rank * part + part <= full
            && forall r: nat :: r < rows ==> StripeRow(data, out, full, part, rank, r)
  {
    hide StripeRow;
    var part := full / degree;
    PartFits(full, degree, rank);
    out := [];
    for r := 0 to rows
      invariant |out| == r * part
      invariant forall r': nat :: r' < r ==> StripeRow(data, out, full, part, rank, r')
    {
      RowFits(r, rows, full, |data|);
      var piece := RowPiece(data, r, full, rank, part);
      StripeGrows(data, out, piece, full, part, rank, r);
      out := out + piece;
    }
  }

  /** One row's share. */
  method RowPiece(data: seq<byte>, r: nat, full: nat, rank: nat, part: nat) returns (piece: seq<byte>)
    requires r * full + full <= |data| && rank * part + part <= full
    ensures piece == Chunk(Chunk(data, r, full), rank, part)
  {
    hide Chunk;
    var rowStart := r * full;
    var shardStart := rowStart + rank * part;
    PieceIs(data, r, full, rank, part, r * full, rank * part);
    piece := data[shardStart..shardStart + part];
  }

  lemma PieceIs(data: seq<byte>, r: nat, full: nat, rank: nat, part: nat, a: nat, b: nat)
    requires a == r * full && b == rank * part && a + full <= |data| && b + part <= full
    ensures data[a + b..a + b + part] == Chunk(Chunk(data, r, full), rank, part)
  {
    hide Chunk;
    ChunkIs(data, r, full);
    ChunkIs(Chunk(data, r, full), rank, part);
    SliceOfSlice(data, a, full, b, part);
  }

  lemma RowFits(r: nat, rows: nat, full: nat, len: nat)
    requires r < rows && rows * full <= len
    ensures r * full + full <= len
  {
    ChunkFits(r, rows, full);
  }

  lemma StripeGrows(data: seq<byte>, before: seq<byte>, piece: seq<byte>, full: nat, part: nat, rank: nat, r: nat)
    requires rank * part + part <= full && r * full + full <= |data| && |before| == r * part
    requires piece == Chunk(Chunk(data, r, full), rank, part)
    requires forall r': nat :: r' < r ==> StripeRow(data, before, full, part, rank, r')
    ensures |before + piece| == (r + 1) * part
    ensures forall r': nat :: r' < r + 1 ==> StripeRow(data, before + piece, full, part, rank, r')
  {
    hide StripeRow, Chunk;
    NextPiece(r, part);
    forall r': nat | r' < r + 1 ensures StripeRow(data, before + piece, full, part, rank, r') {
      if r' < r {
        StripeKept(data, before, piece, full, part, rank, r');
      } else {
        StripeNew(data, before, piece, full, part, rank, r);
      }
    }
  }

  lemma StripeKept(data: seq<byte>, before: seq<byte>, piece: seq<byte>, full: nat, part: nat, rank: nat, r: nat)
    requires rank * part + part <= full && StripeRow(data, before, full, part, rank, r)
    ensures StripeRow(data, before + piece, full, part, rank, r)
  {
    ChunkPrefix(before, piece, r, part);
  }

  lemma StripeNew(data: seq<byte>, before: seq<byte>, piece: seq<byte>, full: nat, part: nat, rank: nat, r: nat)
    requires rank * part + part <= full && r * full + full <= |data| && |before| == r * part
    requires piece == Chunk(Chunk(data, r, full), rank, part)
    ensures StripeRow(data, before + piece, full, part, rank, r)
  {
    hide Chunk;
    ChunkSuffix(before, piece, r);
  }

  lemma ChunkPrefix<T>(s: seq<T>, t: seq<T>, i: nat, n: nat)
    requires i * n + n <= |s|
    ensures Chunk(s + t, i, n) == Chunk(s, i, n)
  {}

  lemma ChunkSuffix<T>(s: seq<T>, t: seq<T>, i: nat)
    requires |s| == i * |t|
    ensures Chunk(s + t, i, |t|) == t
  {}

  // ----- What the shards mean as matrices -----

  /** Row `r` of the matrix stored in `data`, in rows of `n` blocks and `w` bytes. */
  function MatrixRow(c: Codec, q: Quant, data: seq<byte>, n: nat, w: nat, r: nat): (row: seq<real>)
    requires Blocked(q) && w == n * BlockBytes(q) && r * w + w <= |data|
    ensures |row| == n * BlockSize(q)
  {
    DequantRow(c, q, Chunk(data, r, w), n)
  }

  /** All `rows` rows. */
  function Matrix(c: Codec, q: Quant, data: seq<byte>, rows: nat, n: nat, w: nat): (m: seq<seq<real>>)
    requires Blocked(q) && w == n * BlockBytes(q) && |data| == rows * w
    ensures |m| == rows && forall r :: 0 <= r < rows ==> |m[r]| == n * BlockSize(q)
  {
    seq(rows, r requires 0 <= r < rows => ChunkFits(r, rows, w); MatrixRow(c, q, data, n, w, r))
  }

  lemma MatrixAt(c: Codec, q: Quant, data: seq<byte>, rows: nat, n: nat, w: nat, r: nat)
    requires Blocked(q) && w == n * BlockBytes(q) && |data| == rows * w && r < rows
    ensures r * w + w <= |data| && Matrix(c, q, data, rows, n, w)[r] == MatrixRow(c, q, data, n, w, r)
  {
    hide MatrixRow, Blocked, BlockBytes, BlockSize;
    ChunkFits(r, rows, w);
  }

  /** A whole number of rows, each `n` whole blocks in `w` bytes. */
  ghost predicate WellFormed(q: Quant, data: seq<byte>, shape: seq<nat>, n: nat, w: nat) {
    && Blocked(q) && |shape| == 2 && shape[0] == n * BlockSize(q) && shape[1] > 0
    && w == n * BlockBytes(q) && |data| == shape[1] * w
  }

  /** A column shard is a band of the matrix. */
  lemma BandMatrix(c: Codec, q: Quant, data: seq<byte>, degree: nat, h: nat, n: nat, w: nat, rank: nat)
    requires Blocked(q) && w == n * BlockBytes(q) && rank < degree && |data| == (degree * h) * w
    requires rank * (h * w) + h * w <= |data|
    ensures rank * h + h <= degree * h
    ensures Matrix(c, q, Chunk(data, rank, h * w), h, n, w) == Chunk(Matrix(c, q, data, degree * h, n, w), rank, h)
  {
    hide BlockBytes, BlockSize, Blocked, MatrixRow, Chunk, Matrix;
    ChunkFits(rank, degree, h);
    var sdata := Chunk(data, rank, h * w);
    var got, want := Matrix(c, q, sdata, h, n, w), Chunk(Matrix(c, q, data, degree * h, n, w), rank, h);
    forall r: nat | r < h ensures got[r] == want[r] {
      ShardIndex(rank, degree, h, r);
      BandRow(c, q, data, h, n, w, rank, r);
      MatrixAt(c, q, sdata, h, n, w, r);
      MatrixAt(c, q, data, degree * h, n, w, rank * h + r);
    }
  }

  lemma BandRow(c: Codec, q: Quant, data: seq<byte>, h: nat, n: nat, w: nat, rank: nat, r: nat)
    requires Blocked(q) && w == n * BlockBytes(q) && rank * (h * w) + h * w <= |data| && r < h
    ensures r * w + w <= h * w && (rank * h + r) * w + w <= |data|
    ensures MatrixRow(c, q, Chunk(data, rank, h * w), n, w, r) == MatrixRow(c, q, data, n, w, rank * h + r)
  {
    hide BlockBytes, BlockSize, Blocked, DequantRow, Chunk;
    ChunkOfChunk(data, rank, h, w, r);
  }

  /** A row shard is a stripe of the matrix. */
  lemma StripeMatrix(c: Codec, q: Quant, data: seq<byte>, sdata: seq<byte>, degree: nat, k: nat, rank: nat,
                     full: nat, part: nat, r: nat)
    requires Blocked(q) && rank < degree && full == (degree * k) * BlockBytes(q) && part == k * BlockBytes(q)
    requires rank * part + part <= full && StripeRow(data, sdata, full, part, rank, r)
    ensures rank * (k * BlockSize(q)) + k * BlockSize(q) <= (degree * k) * BlockSize(q)
    ensures MatrixRow(c, q, sdata, k, part, r)
         == Chunk(MatrixRow(c, q, data, degree * k, full, r), rank, k * BlockSize(q))
  {
    hide BlockBytes, BlockSize, Blocked, DequantRow, Chunk;
    DequantShard(c, q, Chunk(data, r, full), degree, k, rank);
  }

  // ----- `shard_weight` on well-formed matrices -----

  lemma BandSizes(len: nat, rows: nat, degree: nat, w: nat)
    requires rows > 0 && degree > 0 && rows % degree == 0 && len == rows * w
    ensures len / rows == w && rows == degree * (rows / degree)
  {
    MulDiv(w, rows);
  }

  lemma StripeBlocks(cols: nat, n: nat, bs: nat, degree: nat) returns (k: nat)
    requires degree > 0 && bs > 0 && cols == n * bs && cols % degree == 0 && cols / degree % bs == 0
    ensures n == degree * k && cols / degree == k * bs
  {
    k := cols / degree / bs;
    assert cols == degree * (k * bs);
    MulAssoc(degree, k, bs);
    MulCancel(n, degree * k, bs);
  }

  /** Column shards: device `rank` holds rows `rank * h ..` of the matrix, exactly. */
  lemma ColumnShard(c: Codec, q: Quant, data: seq<byte>, shape: seq<nat>, n: nat, w: nat, degree: nat, rank: nat, s: Sharded)
    requires WellFormed(q, data, shape, n, w) && rank < degree && Refusal(shape, q, Column, degree).None?
    requires IsBand(data, shape, degree, rank, s)
    ensures WellFormed(q, s.data, s.shape, n, w) && s.shape[0] == shape[0]
    ensures shape[1] == degree * s.shape[1] && rank * s.shape[1] + s.shape[1] <= shape[1]
    ensures Matrix(c, q, s.data, s.shape[1], n, w) == Chunk(Matrix(c, q, data, shape[1], n, w), rank, s.shape[1])
  {
    hide BlockBytes, BlockSize, Blocked, MatrixRow, Chunk, Matrix;
    BandSizes(|data|, shape[1], degree, w);
    BandMatrix(c, q, data, degree, shape[1] / degree, n, w, rank);
  }

  /** Row shards: device `rank` holds columns `rank * shardCols ..` of every row, exactly. */
  lemma RowShard(c: Codec, q: Quant, data: seq<byte>, shape: seq<nat>, n: nat, w: nat, degree: nat, rank: nat, s: Sharded)
    returns (k: nat, part: nat)
    requires WellFormed(q, data, shape, n, w) && rank < degree && Refusal(shape, q, Row, degree).None?
    requires IsStripe(data, shape, degree, rank, s)
    ensures WellFormed(q, s.data, s.shape, k, part) && n == degree * k && s.shape[1] == shape[1]
    ensures shape[0] == degree * s.shape[0] && rank * s.shape[0] + s.shape[0] <= shape[0]
    ensures forall r :: 0 <= r < shape[1] ==>
      Matrix(c, q, s.data, shape[1], k, part)[r] == Chunk(Matrix(c, q, data, shape[1], n, w)[r], rank, s.shape[0])
  {
    hide BlockBytes, BlockSize, Blocked, MatrixRow, StripeRow, Chunk, Matrix;
    k := StripeBlocks(shape[0], n, BlockSize(q), degree);
    part := k * BlockBytes(q);
    StripeSizes(|data|, shape[1], degree, k, BlockBytes(q), w);
    ChunkFits(rank, degree, s.shape[0]);
    forall r | 0 <= r < shape[1]
      ensures Matrix(c, q, s.data, shape[1], k, part)[r] == Chunk(Matrix(c, q, data, shape[1], n, w)[r], rank, s.shape[0])
    {
      StripeMatrix(c, q, data, s.data, degree, k, rank, w, part, r);
      MatrixAt(c, q, data, shape[1], n, w, r);
      MatrixAt(c, q, s.data, shape[1], k, part, r);
    }
  }

  lemma StripeSizes(len: nat, rows: nat, degree: nat, k: nat, bb: nat, w: nat)
    requires rows > 0 && degree > 0 && len == rows * w && w == (degree * k) * bb
    ensures len / rows == w && w / degree == k * bb
  {
    MulDiv(w, rows);
    MulAssoc(degree, k, bb);
    MulDiv(k * bb, degree);
  }
}
