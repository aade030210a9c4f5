/** Sequences cut into pieces of equal length. */
module Chunks {
  import opened Arithmetic

  /** Piece number `i` of length `n`. */
  function Chunk<T>(s: seq<T>, i: nat, n: nat): (r: seq<T>)
    requires i * n + n <= |s|
    ensures |r| == n && forall j :: 0 <= j < n ==> r[j] == s[i * n + j]
  {
    s[i * n..i * n + n]
  }

  lemma ChunkFits(i: nat, k: nat, n: nat)
    requires i < k
    ensures i * n + n <= k * n
  {
    MulLess(i, k, n);
  }

  lemma SliceOfSlice<T>(a: seq<T>, at: nat, len: nat, lo: nat, n: nat)
    requires at + len <= |a| && lo + n <= len
    ensures a[at..at + len][lo..lo + n] == a[at + lo..at + lo + n]
  {
    var x, y := a[at..at + len][lo..lo + n], a[at + lo..at + lo + n];
    forall i | 0 <= i < n ensures x[i] == y[i] {
      assert a[at..at + len][lo + i] == a[at + (lo + i)];
    }
  }

  lemma ChunkIs<T>(s: seq<T>, i: nat, n: nat)
    requires i * n + n <= |s|
    ensures Chunk(s, i, n) == s[i * n..i * n + n]
  {}

  lemma ChunkNest<T>(s: seq<T>, i: nat, w: nat, r: nat, n: nat, q: nat)
    requires i * w + w <= |s| && r * n + n <= w && q * n == i * w + r * n
    ensures Chunk(Chunk(s, i, w), r, n) == Chunk(s, q, n)
  {
    hide Chunk;
    ChunkIs(s, i, w);
    ChunkIs(Chunk(s, i, w), r, n);
    ChunkIs(s, q, n);
    SliceOfSlice(s, i * w, w, r * n, n);
  }

  /** A piece of a piece is a piece. */
  lemma ChunkOfChunk<T>(s: seq<T>, i: nat, k: nat, n: nat, r: nat)
    requires i * (k * n) + k * n <= |s| && r < k
    ensures r * n + n <= k * n && (i * k + r) * n + n <= |s|
    ensures Chunk(Chunk(s, i, k * n), r, n) == Chunk(s, i * k + r, n)
  {
    hide Chunk;
    ChunkFits(r, k, n);
    NestedIndex(i, k, n, r);
    ChunkNest(s, i, k * n, r, n, i * k + r);
  }

  /** Everything, in order. */
  function Join<T>(pieces: seq<seq<T>>): seq<T> {
    if pieces == [] then [] else Join(pieces[..|pieces| - 1]) + pieces[|pieces| - 1]
  }

  lemma JoinStep<T>(pieces: seq<seq<T>>, p: seq<T>)
    ensures Join(pieces + [p]) == Join(pieces) + p
  {
    assert (pieces + [p])[..|pieces|] == pieces;
  }

  lemma {:induction false} JoinLen<T>(pieces: seq<seq<T>>, n: nat)
    requires forall i :: 0 <= i < |pieces| ==> |pieces[i]| == n
    ensures |Join(pieces)| == |pieces| * n
  {
    if pieces != [] {
      JoinLen(pieces[..|pieces| - 1], n);
      assert |pieces| * n == (|pieces| - 1) * n + n;
    }
  }

  /** The joined pieces can be cut apart again. */
  lemma {:induction false} JoinChunk<T>(pieces: seq<seq<T>>, n: nat, i: nat)
    requires i < |pieces| && forall j :: 0 <= j < |pieces| ==> |pieces[j]| == n
    ensures |Join(pieces)| == |pieces| * n && i * n + n <= |Join(pieces)|
    ensures Chunk(Join(pieces), i, n) == pieces[i]
  {
    var last := |pieces| - 1;
    JoinLen(pieces, n);
    JoinLen(pieces[..last], n);
    ChunkFits(i, |pieces|, n);
    if i < last {
      JoinChunk(pieces[..last], n, i);
    }
  }

  lemma ChunkOfPrefix<T>(s: seq<T>, at: nat, i: nat, n: nat)
    requires i * n + n <= at <= |s|
    ensures Chunk(s[..at], i, n) == Chunk(s, i, n)
  {}

  /** A sequence of `k` pieces is their join. */
  lemma {:induction false} JoinAll<T>(s: seq<T>, pieces: seq<seq<T>>, n: nat)
    requires |s| == |pieces| * n
    requires forall i :: 0 <= i < |pieces| ==> i * n + n <= |s| && pieces[i] == Chunk(s, i, n)
    ensures Join(pieces) == s
  {
    hide Chunk;
    if pieces != [] {
      var last := |pieces| - 1;
      var at := last * n;
      assert |pieces| * n == at + n;
      forall i: nat | i < last ensures i * n + n <= at && pieces[..last][i] == Chunk(s[..at], i, n) {
        ChunkFits(i, last, n);
        ChunkOfPrefix(s, at, i, n);
      }
      JoinAll(s[..at], pieces[..last], n);
      ChunkIs(s, last, n);
      assert s == s[..at] + s[at..at + n];
    }
  }
}
