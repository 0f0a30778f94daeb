/** Machine words: the 64-bit arithmetic the draws and the link clock are written in. */
module Words {
  /** One more than the largest uint64. */
  const WORD: int := 0x1_0000_0000_0000_0000

  /** math.MaxInt64: the largest time.Duration, and the largest length a Go slice can have. */
  const MAX_INT: int := 0x7FFF_FFFF_FFFF_FFFF

  type Word = x: int | 0 <= x < 0x1_0000_0000_0000_0000

  /** The larger of two numbers: of two instants, the later. */
  function Later(a: int, b: int): int { if a <= b then b else a }

  /** bits.Mul64: the 128-bit product of two words as a high and a low word. */
  function Mul64(x: Word, y: Word): (p: (Word, Word))
    ensures p.0 * WORD + p.1 == x * y
  {
    MulMonotone(y, WORD, x);
    MulNonNegative(x, y);
    (x * y / WORD, x * y % WORD)
  }

  /** bits.Div64: the quotient and the remainder of a 128-bit number by a word. It panics
      unless the high word is below the divisor, which is when the quotient fits a word. */
  function Div64(hi: Word, lo: Word, y: Word): (r: (Word, Word))
    requires hi < y
    ensures r.0 * y + r.1 == hi * WORD + lo
    ensures r.1 < y
  {
    QuotientBelow(hi * WORD + lo, y, WORD);
    ((hi * WORD + lo) / y, (hi * WORD + lo) % y)
  }

  lemma MulMonotone(a: int, b: int, c: int)
    requires a <= b && 0 <= c
    ensures a * c <= b * c && c * a <= c * b
  {}

  lemma MulNonNegative(a: int, b: int)
    requires 0 <= a && 0 <= b
    ensures 0 <= a * b
  {}

  /** Division against multiplication, from below. */
  lemma QuotientAtLeast(n: int, d: int, q: int)
    requires 0 < d && q * d <= n
    ensures q <= n / d
  {
    var a := n / d;
    assert n < (a + 1) * d;
    if a + 1 <= q {
      MulMonotone(a + 1, q, d);
      assert false;
    }
  }

  /** Division against multiplication, from above. */
  lemma QuotientBelow(n: int, d: int, q: int)
    requires 0 < d && n < q * d
    ensures n / d < q
  {
    var a := n / d;
    assert a * d <= n;
    if q <= a {
      MulMonotone(q, a, d);
      assert false;
    }
  }

  /** A larger dividend and a smaller divisor give no smaller a quotient. */
  lemma QuotientMonotone(n: int, n': int, d: int, d': int)
    requires 0 <= n <= n' && 0 < d' <= d
    ensures n / d <= n' / d'
  {
    var q := n / d;
    assert q * d <= n;
    MulMonotone(d', d, q);
    QuotientAtLeast(n', d', q);
  }

  /** A quotient is pinned down by the division equation. */
  lemma QuotientIs(n: int, d: int, q: int, r: int)
    requires 0 <= r < d && n == q * d + r
    ensures n / d == q && n % d == r
  {
    assert (q + 1) * d == q * d + d;
    QuotientAtLeast(n, d, q);
    QuotientBelow(n, d, q + 1);
  }
}
