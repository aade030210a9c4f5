/** The transfer wire format: block id (8 bytes), token length (4), payload length (4), payload; little-endian. */
module WireFormat {
  import opened Common
  import opened Arithmetic

  const HEADER: nat := 16
  const U32: nat := 0x1_0000_0000
  const U64: nat := 0x1_0000_0000_0000_0000

  /** The `n` low bytes of `x`, lowest first: a cast to an `n`-byte integer and `to_le_bytes` in one. */
  function LowBytes(x: nat, n: nat): (bs: seq<byte>)
    ensures |bs| == n
  {
    if n == 0 then [] else [x % 256] + LowBytes(x / 256, n - 1)
  }

  /** `from_le_bytes`. */
  function FromBytes(bs: seq<byte>): nat {
    if bs == [] then 0 else bs[0] + 256 * FromBytes(bs[1..])
  }

  function Pow256(n: nat): (p: nat)
    ensures p > 0
  {
    if n == 0 then 1 else 256 * Pow256(n - 1)
  }

  lemma Powers()
    ensures Pow256(4) == U32 && Pow256(8) == U64
  {
    assert Pow256(2) == 65536;
    assert Pow256(3) == 16777216;
    assert Pow256(4) == U32;
    assert Pow256(6) == 65536 * U32;
    assert Pow256(7) == 16777216 * U32;
  }

  lemma ModStep(x: nat, p: nat)
    requires p > 0
    ensures x % (256 * p) == x % 256 + 256 * (x / 256 % p)
  {
    var q, r := x / 256 / p, x / 256 % p;
    assert x / 256 == p * q + r;
    MulAssoc(256, p, q);
    assert x == q * (256 * p) + (x % 256 + 256 * r);
    DivIs(x, q, x % 256 + 256 * r, 256 * p);
  }

  /** Reading back the low bytes is reducing modulo their range. */
  lemma {:induction false} LowBytesValue(x: nat, n: nat)
    ensures FromBytes(LowBytes(x, n)) == x % Pow256(n)
  {
    if n > 0 {
      LowBytesValue(x / 256, n - 1);
      ModStep(x, Pow256(n - 1));
      assert LowBytes(x, n)[1..] == LowBytes(x / 256, n - 1);
    }
  }

  /** Every string of bytes is the encoding of its value. */
  lemma {:induction false} BytesOfValue(bs: seq<byte>)
    ensures LowBytes(FromBytes(bs), |bs|) == bs && FromBytes(bs) < Pow256(|bs|)
  {
    if bs != [] {
      BytesOfValue(bs[1..]);
      DivIs(FromBytes(bs), FromBytes(bs[1..]), bs[0], 256);
    }
  }

  function Serialize(h: Handle, payload: seq<byte>): (wire: seq<byte>)
    ensures |wire| == HEADER + |payload| && wire[HEADER..] == payload
  {
    LowBytes(h.blockId, 8) + LowBytes(h.tokenLen, 4) + LowBytes(|payload|, 4) + payload
  }

  function Deserialize(wire: seq<byte>): Option<(Handle, seq<byte>)> {
    if |wire| < HEADER then None
    else
      var blockId, tokenLen, byteLen := FromBytes(wire[0..8]), FromBytes(wire[8..12]), FromBytes(wire[12..16]);
      if |wire| < HEADER + byteLen then None
      else Some((Handle(blockId, tokenLen), wire[HEADER..HEADER + byteLen]))
  }

  /** What a transfer delivers, for every handle and payload: each length reduced to 32 bits. It never fails. */
  lemma Delivered(h: Handle, payload: seq<byte>)
    requires h.blockId < U64
    ensures |payload| % U32 <= |payload|
    ensures Deserialize(Serialize(h, payload)) == Some((Handle(h.blockId, h.tokenLen % U32), payload[..|payload| % U32]))
  {
    hide LowBytes, FromBytes, Pow256;
    var wire := Serialize(h, payload);
    var a, b, c := LowBytes(h.blockId, 8), LowBytes(h.tokenLen, 4), LowBytes(|payload|, 4);
    assert wire[0..8] == a && wire[8..12] == b && wire[12..16] == c;
    LowBytesValue(h.blockId, 8);
    LowBytesValue(h.tokenLen, 4);
    LowBytesValue(|payload|, 4);
    Powers();
    var n := |payload| % U32;
    assert wire[HEADER..HEADER + n] == payload[..n];
  }

  /** The round trip is exact precisely for lengths that fit 32 bits. */
  lemma RoundTrip(h: Handle, payload: seq<byte>)
    requires h.blockId < U64
    ensures Deserialize(Serialize(h, payload)) == Some((h, payload)) <==> h.tokenLen < U32 && |payload| < U32
  {
    hide Serialize, Deserialize;
    Delivered(h, payload);
    var n := |payload| % U32;
    if |payload| < U32 {
      assert payload[..n] == payload;
    } else {
      assert |payload[..n]| != |payload|;
    }
  }

  /** Whatever is accepted is an encoding: re-encoding it gives back the bytes read. */
  lemma AcceptedIsEncoded(wire: seq<byte>)
    requires Deserialize(wire).Some?
    ensures var (h, payload) := Deserialize(wire).value;
            && h.blockId < U64 && h.tokenLen < U32 && |payload| < U32
            && HEADER + |payload| <= |wire| && Serialize(h, payload) == wire[..HEADER + |payload|]
  {
    hide LowBytes, FromBytes, Pow256;
    BytesOfValue(wire[0..8]);
    BytesOfValue(wire[8..12]);
    BytesOfValue(wire[12..16]);
    Powers();
    var n := FromBytes(wire[12..16]);
    assert wire[..HEADER + n] == wire[0..8] + wire[8..12] + wire[12..16] + wire[HEADER..HEADER + n];
  }

  /** A buffer is refused exactly when it is shorter than its header or than its announced payload. */
  lemma RefusedIff(h: Handle, payload: seq<byte>, wire: seq<byte>)
    requires h.blockId < U64 && h.tokenLen < U32 && |payload| < U32 && wire <= Serialize(h, payload)
    ensures Deserialize(wire).None? <==> wire != Serialize(h, payload)
  {
    hide LowBytes, FromBytes, Pow256;
    Delivered(h, payload);
    var whole := Serialize(h, payload);
    if HEADER <= |wire| {
      assert wire[12..16] == whole[12..16];
      assert FromBytes(whole[12..16]) == |payload| by {
        assert whole[12..16] == LowBytes(|payload|, 4);
        LowBytesValue(|payload|, 4);
        Powers();
      }
      if |wire| == |whole| {
        assert wire == whole;
      }
    }
  }
}
