/** Bytes and fixed-width little-endian integers. */
module Bytes {

  /** One octet, as Rust `u8`, a `Uint8Array` element or a Python `bytes` item. */
  type byte = x: int | 0 <= x < 256

  const U64_MAX: nat := 0xFFFF_FFFF_FFFF_FFFF

  /** `u64` values. */
  type u64 = x: int | 0 <= x <= U64_MAX

  /** `u32` values. */
  type u32 = x: int | 0 <= x < 0x1_0000_0000

  /** `i32` values. */
  type i32 = x: int | -0x8000_0000 <= x < 0x8000_0000

  /** 256 to the power `n`. */
  function Pow256(n: nat): (r: nat)
    ensures r >= 1
  {
    if n == 0 then 1 else 256 * Pow256(n - 1)
  }

  /** The `n` low-order bytes of `v`, least significant first. */
  function LittleEndian(v: nat, n: nat): (r: seq<byte>)
    ensures |r| == n
  {
    if n == 0 then [] else [v % 256] + LittleEndian(v / 256, n - 1)
  }

  /** The number whose little-endian bytes are `bs`. */
  function FromLittleEndian(bs: seq<byte>): nat {
    if bs == [] then 0 else bs[0] + 256 * FromLittleEndian(bs[1..])
  }

  /** Byte `k` of `v` in little-endian order. */
  function ByteAt(v: nat, k: nat): byte {
    (v / Pow256(k)) % 256
  }

  /** Rust `u64::to_le_bytes`: byte k is bits 8k..8k+7 of `v`. */
  function U64Le(v: u64): (r: seq<byte>)
    ensures |r| == 8
  {
    seq(8, k requires 0 <= k < 8 => ByteAt(v, k))
  }

  /** Dividing twice is dividing by the product. */
  lemma DivDiv(a: nat, b: nat, c: nat)
    requires b > 0 && c > 0
    ensures a / b / c == a / (b * c)
  {
    var q, r := a / b, a % b;
    var q2, r2 := q / c, q % c;
    MulAssoc(b, c, q2);
    assert b * q == b * (c * q2) + b * r2;
    assert a == (b * c) * q2 + (b * r2 + r);
    MulAtMost(b, r2, c - 1);
    assert b * (c - 1) == b * c - b;
    DivUnique(a, b * c, q2, b * r2 + r);
  }

  lemma MulAssoc(x: int, y: int, z: int)
    ensures x * (y * z) == (x * y) * z
  {
  }

  lemma MulAtMost(b: nat, x: nat, y: nat)
    requires x <= y
    ensures b * x <= b * y
  {
  }

  lemma DivUnique(a: int, d: int, q: int, r: int)
    requires d > 0 && a == d * q + r && 0 <= r < d
    ensures a / d == q
  {
    var q', r' := a / d, a % d;
    if q < q' {
      assert d * (q' - q) == d * q' - d * q;
      MulAtLeast(d, q' - q);
    } else if q > q' {
      assert d * (q - q') == d * q - d * q';
      MulAtLeast(d, q - q');
    }
  }

  lemma MulAtLeast(d: int, e: int)
    requires d > 0 && e >= 1
    ensures d * e >= d
  {
  }

  /** Byte k of `LittleEndian(v, n)` is `ByteAt(v, k)`. */
  lemma {:induction false} LittleEndianAt(v: nat, n: nat, k: nat)
    requires k < n
    ensures LittleEndian(v, n)[k] == ByteAt(v, k)
  {
    if k > 0 {
      LittleEndianAt(v / 256, n - 1, k - 1);
      DivDiv(v, 256, Pow256(k - 1));
    }
  }

  /** `to_le_bytes` agrees with the recursive definition. */
  lemma U64LeIsLittleEndian(v: u64)
    ensures U64Le(v) == LittleEndian(v, 8)
  {
    forall k | 0 <= k < 8 ensures U64Le(v)[k] == LittleEndian(v, 8)[k] {
      LittleEndianAt(v, 8, k);
    }
  }

  lemma {:induction false} LittleEndianRoundTrip(v: nat, n: nat)
    requires v < Pow256(n)
    ensures FromLittleEndian(LittleEndian(v, n)) == v
  {
    if n > 0 {
      LittleEndianRoundTrip(v / 256, n - 1);
      assert LittleEndian(v, n)[1..] == LittleEndian(v / 256, n - 1);
    }
  }

  /** The eight bytes of `to_le_bytes` decode back to the value. */
  lemma U64LeRoundTrip(v: u64)
    ensures FromLittleEndian(U64Le(v)) == v
  {
    assert Pow256(8) == U64_MAX + 1;
    LittleEndianRoundTrip(v, 8);
    U64LeIsLittleEndian(v);
  }
}
