/**
 * The fixed-width integers of the on-chain program (`u8`, `u64`, `i64`,
 * `u128`) as subsets of Dafny's unbounded `int`, and Rust's `checked_*`
 * operations, which return `None` instead of wrapping.
 */
module Numeric {
  import opened Wrappers

  const U64_MAX: int := 0xFFFF_FFFF_FFFF_FFFF
  const U128_MAX: int := 0xFFFF_FFFF_FFFF_FFFF_FFFF_FFFF_FFFF_FFFF
  const I64_MIN: int := -0x8000_0000_0000_0000
  const I64_MAX: int := 0x7FFF_FFFF_FFFF_FFFF

  newtype Byte = b: int | 0 <= b < 256

  type U64 = x: int | 0 <= x <= U64_MAX
  type I64 = x: int | I64_MIN <= x <= I64_MAX

  /** `u64::checked_add` */
  function CheckedAdd(a: U64, b: U64): (r: Option<U64>)
    ensures r.Some? <==> a + b <= U64_MAX
    ensures r.Some? ==> r.value == a + b
  {
    if a + b <= U64_MAX then Some(a + b) else None
  }

  /** `u64::checked_sub` */
  function CheckedSub(a: U64, b: U64): (r: Option<U64>)
    ensures r.Some? <==> b <= a
    ensures r.Some? ==> r.value + b == a
  {
    if b <= a then Some(a - b) else None
  }

  /** `u64::checked_mul` */
  function CheckedMul(a: U64, b: U64): (r: Option<U64>)
    ensures r.Some? <==> a * b <= U64_MAX
    ensures r.Some? ==> r.value == a * b
  {
    if a * b <= U64_MAX then Some(a * b) else None
  }

  /** A `u128` product of two `u64` values never overflows. */
  lemma WideProductFits(a: U64, b: U64)
    ensures 0 <= a * b <= U128_MAX
  {
    assert a * b <= U64_MAX * U64_MAX by {
      assert a * b <= U64_MAX * b;
      assert U64_MAX * b <= U64_MAX * U64_MAX;
    }
  }

  /** Rust's `as u64` on a non-negative wider integer keeps the low 64 bits. */
  function TruncateU64(x: nat): (r: U64)
    ensures x <= U64_MAX ==> r == x
    ensures (r - x) % (U64_MAX + 1) == 0
  {
    x % (U64_MAX + 1)
  }

  // ---------------------------------------------------------------------------
  // Little-endian byte encodings, as Borsh writes integers.

  /** The `n` little-endian bytes of `x`. */
  function LittleEndian(x: nat, n: nat): (r: seq<Byte>)
    requires x < Pow256(n)
    ensures |r| == n
    decreases n
  {
    if n == 0 then []
    else [(x % 256) as Byte] + LittleEndian(x / 256, n - 1)
  }

  /** The unsigned value of a little-endian byte string. */
  function FromLittleEndian(s: seq<Byte>): (r: nat)
    ensures r < Pow256(|s|)
  {
    if s == [] then 0
    else
      var rest := FromLittleEndian(s[1..]);
      assert s[0] as int + 256 * rest < Pow256(|s|) by {
        assert rest + 1 <= Pow256(|s| - 1);
        assert 256 * (rest + 1) <= 256 * Pow256(|s| - 1);
      }
      s[0] as nat + 256 * rest
  }

  function Pow256(n: nat): (r: nat)
    ensures r > 0
  {
    if n == 0 then 1 else 256 * Pow256(n - 1)
  }

  lemma {:induction false} FromLittleEndianInverts(x: nat, n: nat)
    requires x < Pow256(n)
    ensures FromLittleEndian(LittleEndian(x, n)) == x
    decreases n
  {
    if n > 0 {
      assert x / 256 < Pow256(n - 1);
      FromLittleEndianInverts(x / 256, n - 1);
      var s := LittleEndian(x, n);
      assert s[1..] == LittleEndian(x / 256, n - 1);
    }
  }

  lemma {:induction false} LittleEndianInverts(s: seq<Byte>)
    ensures LittleEndian(FromLittleEndian(s), |s|) == s
  {
    if s != [] {
      LittleEndianInverts(s[1..]);
      var x := FromLittleEndian(s);
      assert x % 256 == s[0] as int;
      assert x / 256 == FromLittleEndian(s[1..]);
    }
  }

  lemma Pow256Eight()
    ensures Pow256(8) == U64_MAX + 1
  {
  }

  /** The 8 little-endian bytes of a `u64`. */
  function U64Bytes(x: U64): (r: seq<Byte>)
    ensures |r| == 8
  {
    Pow256Eight();
    LittleEndian(x, 8)
  }

  function U64FromBytes(s: seq<Byte>): (r: U64)
    requires |s| == 8
  {
    Pow256Eight();
    FromLittleEndian(s)
  }

  lemma U64RoundTrip(x: U64)
    ensures U64FromBytes(U64Bytes(x)) == x
  {
    Pow256Eight();
    FromLittleEndianInverts(x, 8);
  }

  lemma U64BytesRoundTrip(s: seq<Byte>)
    requires |s| == 8
    ensures U64Bytes(U64FromBytes(s)) == s
  {
    Pow256Eight();
    LittleEndianInverts(s);
  }

  /** The 8 little-endian two's-complement bytes of an `i64`. */
  function I64Bytes(x: I64): (r: seq<Byte>)
    ensures |r| == 8
  {
    Pow256Eight();
    LittleEndian(if x < 0 then x + U64_MAX + 1 else x, 8)
  }

  function I64FromBytes(s: seq<Byte>): (r: I64)
    requires |s| == 8
  {
    Pow256Eight();
    var u := FromLittleEndian(s);
    if u > I64_MAX then u - (U64_MAX + 1) else u
  }

  lemma I64RoundTrip(x: I64)
    ensures I64FromBytes(I64Bytes(x)) == x
  {
    Pow256Eight();
    FromLittleEndianInverts(if x < 0 then x + U64_MAX + 1 else x, 8);
  }
}
