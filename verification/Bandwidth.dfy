/** bandwidth.go: how long a unit takes to serialize onto a throttled link. */
module Bandwidth {
  import opened Words

  /** time.Second in nanoseconds. */
  const SECOND: Word := 1_000_000_000

  /** serializationDelay, with the 128-bit intermediate product and both clamps. */
  function SerializationDelay(size: int, bytesPerSecond: int): (d: int)
    requires 0 <= size <= MAX_INT && 0 < bytesPerSecond <= MAX_INT
    ensures 0 <= d <= MAX_INT
  {
    var (hi, lo) := Mul64(size, SECOND);
    if hi >= bytesPerSecond then MAX_INT
    else
      var (q, _) := Div64(hi, lo, bytesPerSecond);
      if q > MAX_INT then MAX_INT else q
  }

  function Min(a: int, b: int): int { if a <= b then a else b }

  /** The delay is the exact quotient, rounded down, and clamped only when that quotient is not a
      time.Duration. */
  lemma DelayIsExact(size: int, rate: int)
    requires 0 <= size <= MAX_INT && 0 < rate <= MAX_INT
    ensures SerializationDelay(size, rate) == Min(size * SECOND / rate, MAX_INT)
  {
    var (hi, lo) := Mul64(size, SECOND);
    if hi >= rate {
      MulMonotone(rate, hi, WORD);
      QuotientAtLeast(size * SECOND, rate, WORD);
    } else {
      var (q, r) := Div64(hi, lo, rate);
      QuotientIs(size * SECOND, rate, q, r);
    }
  }

  /** A longer unit never takes less time and a faster link never takes more. */
  lemma DelayMonotone(size: int, size': int, rate: int, rate': int)
    requires 0 <= size <= size' <= MAX_INT && 0 < rate' <= rate <= MAX_INT
    ensures SerializationDelay(size, rate) <= SerializationDelay(size', rate')
  {
    DelayIsExact(size, rate);
    DelayIsExact(size', rate');
    QuotientMonotone(size * SECOND, size' * SECOND, rate, rate');
  }

  /** An unclamped delay covers the unit: at most what the rate allows in the delay plus less than
      one nanosecond more. */
  lemma DelayCoversUnit(size: int, rate: int)
    requires 0 <= size <= MAX_INT && 0 < rate <= MAX_INT
    requires SerializationDelay(size, rate) < MAX_INT
    ensures rate * SerializationDelay(size, rate) <= size * SECOND < rate * SerializationDelay(size, rate) + rate
  {
    DelayIsExact(size, rate);
  }
}
