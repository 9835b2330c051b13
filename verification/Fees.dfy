/**
  * Priority-fee arithmetic of src/tx.rs, with the 64- and 128-bit saturation written out.
  */
module Fees {
  import opened Common

  const U64_MAX: nat := 0xFFFF_FFFF_FFFF_FFFF
  const U128_MAX: nat := 0xFFFF_FFFF_FFFF_FFFF_FFFF_FFFF_FFFF_FFFF

  const MAX_COMPUTE_UNITS: nat := 1_400_000
  const MICRO: nat := 1_000_000

  function SatAdd64(a: nat, b: nat): nat {
    Min(a + b, U64_MAX)
  }

  function SatMul128(a: nat, b: nat): nat {
    Min(a * b, U128_MAX)
  }

  function SatAdd128(a: nat, b: nat): nat {
    Min(a + b, U128_MAX)
  }

  /** The compute-unit limit a fee is charged on. */
  function EffectiveLimit(limit: nat): nat {
    Min(limit, MAX_COMPUTE_UNITS)
  }

  /** The legacy rule: limit times price in micro-lamports, rounded up to lamports. */
  function PriorityFee(effective: nat, price: nat): nat {
    Min(SatAdd128(SatMul128(effective, price), 999_999) / MICRO, U64_MAX)
  }

  /** The v1 rule, which goes the other way: a price derived from a total fee. */
  function DerivedPrice(fee: nat, effective: nat): nat {
    if effective == 0 then 0 else Min(fee * MICRO / effective, U64_MAX)
  }

  /** `c` is the quotient `n / d` rounded up: the least `c` with `n <= c * d`. */
  ghost predicate IsCeiling(c: nat, n: nat, d: nat) {
    n <= c * d && (c == 0 || (c - 1) * d < n)
  }

  lemma ProductBound(a: nat, b: nat, x: nat, y: nat)
    requires a <= x && b <= y
    ensures a * b <= x * y
  {
    assert a * b <= a * y;
    assert a * y <= x * y;
  }

  lemma CeilingByDivision(c: nat, n: nat)
    requires IsCeiling(c, n, MICRO)
    ensures (n + 999_999) / MICRO == c
  {
  }

  lemma NoSaturation(effective: nat, price: nat)
    requires effective <= MAX_COMPUTE_UNITS && price <= U64_MAX
    ensures SatAdd128(SatMul128(effective, price), 999_999) == effective * price + 999_999
  {
    ProductBound(effective, price, MAX_COMPUTE_UNITS, U64_MAX);
  }

  /** No intermediate saturation: the fee is the exact ceiling, capped once at 2^64 - 1. */
  lemma PriorityFeeIsCeiling(limit: nat, price: nat, c: nat)
    requires price <= U64_MAX
    requires IsCeiling(c, EffectiveLimit(limit) * price, MICRO)
    ensures PriorityFee(EffectiveLimit(limit), price) == Min(c, U64_MAX)
  {
    NoSaturation(EffectiveLimit(limit), price);
    CeilingByDivision(c, EffectiveLimit(limit) * price);
  }

  /** Such a ceiling always exists, so the lemma above determines every legacy fee. */
  lemma CeilingExists(limit: nat, price: nat) returns (c: nat)
    ensures IsCeiling(c, EffectiveLimit(limit) * price, MICRO)
  {
    c := (EffectiveLimit(limit) * price + 999_999) / MICRO;
  }

  /**
    * Charging the legacy rule at a v1 transaction's derived price gives back the v1 fee:
    * exactly up to a million compute units, and at most one lamport short above that. What
    * decides is the remainder lost when the price was rounded down: less than a lamport or not.
    */
  lemma DerivedPriceRecoversFee(fee: nat, limit: nat)
    requires 1 <= limit <= MAX_COMPUTE_UNITS
    requires fee <= U64_MAX
    requires fee * MICRO / limit <= U64_MAX
    ensures limit <= MICRO ==> PriorityFee(limit, DerivedPrice(fee, limit)) == fee
    ensures PriorityFee(limit, DerivedPrice(fee, limit)) == fee <==> fee * MICRO % limit < MICRO
    ensures fee - 1 <= PriorityFee(limit, DerivedPrice(fee, limit)) <= fee
  {
    var micros := fee * MICRO;
    var price := micros / limit;
    DivisionBounds(micros, limit);
    var charged := limit * price;
    assert charged == price * limit;
    var c := CeilingExists(limit, price);
    PriorityFeeIsCeiling(limit, price, c);
    CeilingNearFee(fee, limit, charged, c);
  }

  lemma CeilingNearFee(fee: nat, limit: nat, n: nat, c: nat)
    requires 1 <= limit <= MAX_COMPUTE_UNITS
    requires fee * MICRO - limit < n <= fee * MICRO
    requires IsCeiling(c, n, MICRO)
    ensures limit <= MICRO ==> c == fee
    ensures c == fee <==> fee * MICRO - n < MICRO
    ensures fee - 1 <= c <= fee
  {
  }

  lemma DivisionBounds(n: nat, d: nat)
    requires d > 0
    ensures n / d * d <= n < n / d * d + d
    ensures n % d == n - n / d * d
  {
    assert n == n / d * d + n % d;
  }

  /** The lamport is really lost above a million units: one lamport at the maximum limit. */
  lemma DerivedPriceLosesALamport()
    ensures PriorityFee(MAX_COMPUTE_UNITS, DerivedPrice(1, MAX_COMPUTE_UNITS)) == 0
  {
    assert DerivedPrice(1, MAX_COMPUTE_UNITS) == 0;
  }
}
