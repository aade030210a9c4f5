/** Values shared by every component of the engine model. */
module Common {

  datatype Option<+T> = None | Some(value: T)

  datatype Result<+T, +E> = Ok(value: T) | Err(error: E)

  /** Token identifiers are only ever compared for equality. */
  type TokenId = nat

  type byte = b: nat | b < 256

  /** Names one cached sequence: `block_id` identifies it, `tokenLen` is its length in tokens. */
  datatype Handle = Handle(blockId: nat, tokenLen: nat)

  const U64_MAX: nat := 0xFFFF_FFFF_FFFF_FFFF

  /** Rust's `saturating_add(1)` on a 64-bit counter. */
  function SatInc(x: nat): nat {
    if x < U64_MAX then x + 1 else x
  }

  ghost predicate Distinct<T>(s: seq<T>) {
    forall i, j :: 0 <= i < j < |s| ==> s[i] != s[j]
  }

  ghost function SetOf<T>(s: seq<T>): set<T> {
    set x | x in s
  }

  function Repeat<T>(x: T, n: nat): (s: seq<T>)
    ensures |s| == n && forall i :: 0 <= i < n ==> s[i] == x
  {
    seq(n, _ => x)
  }

  /** Rust's `saturating_sub`. */
  function SatSub(x: nat, y: nat): nat {
    if y <= x then x - y else 0
  }
}
