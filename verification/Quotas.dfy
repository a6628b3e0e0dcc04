/** Quantities and user quotas.  A Quantity is an exact number of nano-units;
    MaxBuckets is a 64-bit integer whose additions wrap. */
module Quotas {

  const NANO := 1_000_000_000
  const TWO63 := 0x8000_0000_0000_0000
  const TWO64 := 0x1_0000_0000_0000_0000

  /** The three resource names that quotas are expressed in. */
  const S3_OBJECTS := "s3/objects"
  const S3_SIZE := "s3/size"
  const S3_BUCKETS := "s3/buckets"

  /** UserQuota: objects and size in nano-units, buckets as a plain count. */
  datatype Quota = Quota(objects: int, size: int, buckets: int)

  const ZERO := Quota(0, 0, 0)

  function Plus(a: Quota, b: Quota): Quota {
    Quota(a.objects + b.objects, a.size + b.size, a.buckets + b.buckets)
  }

  predicate NonNegative(q: Quota) {
    0 <= q.objects && 0 <= q.size && 0 <= q.buckets
  }

  predicate AtMost(a: Quota, b: Quota) {
    a.objects <= b.objects && a.size <= b.size && a.buckets <= b.buckets
  }

  /** Two's complement wrap-around of a 64-bit signed integer. */
  function Wrap64(x: int): (r: int)
    ensures -TWO63 <= r < TWO63
    ensures -TWO63 <= x < TWO63 ==> r == x
  {
    (x + TWO63) % TWO64 - TWO63
  }

  /** What a running total holds: exact quantities, a wrapped bucket count. */
  function Wrap(q: Quota): Quota {
    q.(buckets := Wrap64(q.buckets))
  }

  lemma WrapPlus(a: Quota, b: Quota)
    ensures Wrap(Plus(Wrap(a), b)) == Wrap(Plus(a, b))
  {
    var x, y := a.buckets + TWO63, b.buckets;
    assert (x % TWO64 + y) % TWO64 == (x + y) % TWO64;
  }

  lemma WrapIsCongruent(x: int)
    ensures (x - Wrap64(x)) % TWO64 == 0
  {
    var y := x + TWO63;
    assert x - Wrap64(x) == y - y % TWO64 == y / TWO64 * TWO64;
  }

  /** A whole number of units, the nearest that is no closer to zero. */
  predicate RoundsAway(units: int, quantity: int) {
    if quantity >= 0 then (units - 1) * NANO < quantity <= units * NANO
    else units * NANO <= quantity < (units + 1) * NANO
  }

  lemma RoundedAwayIsUnique(units: int, other: int, quantity: int)
    requires RoundsAway(units, quantity) && RoundsAway(other, quantity)
    ensures units == other
  {}

  /** Quantity.Value(): the number of units, rounded away from zero. */
  function Value(quantity: int): (units: int)
    ensures RoundsAway(units, quantity)
    ensures quantity % NANO == 0 ==> units * NANO == quantity
  {
    if quantity >= 0 then (quantity + NANO - 1) / NANO else -((-quantity + NANO - 1) / NANO)
  }
}
