/** rand.go: the values a fault draws from its own stream of raw 64-bit words. */
module Draws {
  import opened Words

  /** The raw words of one derived stream, in draw order. */
  type Source = nat -> Word

  // ---- Lemire's bounded draw ----

  function High(x: Word, n: Word): Word { Mul64(x, n).0 }

  function Low(x: Word, n: Word): Word { Mul64(x, n).1 }

  /** `-n % n` in uint64 arithmetic. */
  function Threshold(n: Word): (t: Word)
    requires 0 < n
    ensures t < n
  {
    (WORD - n) % n
  }

  /** A raw draw that the rejection loop keeps. */
  predicate Accepts(x: Word, n: Word)
    requires 0 < n
  {
    Threshold(n) <= Low(x, n)
  }

  /** The value that the word stands for: the whole part of x * n / 2^64. */
  ghost predicate Picks(x: Word, n: Word, v: int) {
    v * WORD <= x * n < (v + 1) * WORD
  }

  lemma HighIsPicked(x: Word, n: Word)
    ensures Picks(x, n, High(x, n))
  {
    var (hi, lo) := Mul64(x, n);
    assert hi * WORD + WORD == (hi + 1) * WORD;
  }

  /** The largest word survives rejection for every n, so a stream on which the rejection loop always
      ends exists; a stream that rejects for ever would hang boundedUint64 itself. */
  lemma LargestWordIsAccepted(n: Word)
    requires 0 < n
    ensures Accepts(WORD - 1, n)
  {
    assert (WORD - 1) * n == (n - 1) * WORD + (WORD - n);
    QuotientIs((WORD - 1) * n, WORD, n - 1, WORD - n);
    if 2 * n <= WORD {
    } else {
      QuotientIs(WORD - n, n, 0, WORD - n);
    }
  }

  /** Every rejection loop started anywhere on the stream comes to an end. */
  ghost predicate Fair(src: Source) {
    forall n: Word, i: nat | 0 < n :: KeepsSomeFrom(src, n, i)
  }

  ghost predicate KeepsSomeFrom(src: Source, n: Word, i: nat)
    requires 0 < n
  {
    exists j: nat :: i <= j && Accepts(src(j), n)
  }

  /** The position of the first raw draw at or after i that the rejection loop keeps. */
  ghost function FirstKept(src: Source, n: Word, i: nat): (k: nat)
    requires 0 < n && Fair(src)
    ensures i <= k && Accepts(src(k), n)
    ensures forall j: nat | i <= j < k :: !Accepts(src(j), n)
  {
    assert KeepsSomeFrom(src, n, i);
    var j: nat :| i <= j && Accepts(src(j), n);
    FirstKeptUpTo(src, n, i, j)
  }

  ghost function FirstKeptUpTo(src: Source, n: Word, i: nat, j: nat): (k: nat)
    requires 0 < n && i <= j && Accepts(src(j), n)
    ensures i <= k && Accepts(src(k), n)
    ensures forall m: nat | i <= m < k :: !Accepts(src(m), n)
    decreases j - i
  {
    if Accepts(src(i), n) then i else FirstKeptUpTo(src, n, i + 1, j)
  }

  /** What boundedUint64(n) returns from position i, and the position it leaves the stream at. */
  ghost function Bounded(src: Source, n: Word, i: nat): (r: (Word, nat))
    requires 0 < n && Fair(src)
    ensures r.0 < n && i < r.1
  {
    var k := FirstKept(src, n, i);
    HighIsBelow(src(k), n);
    (High(src(k), n), k + 1)
  }

  lemma HighIsBelow(x: Word, n: Word)
    requires 0 < n
    ensures High(x, n) < n
  {
    MulMonotone(x + 1, WORD, n);
    QuotientBelow(x * n, WORD, n);
  }

  // ---- The bounded draw is exactly uniform ----

  /** The raw words for which the accepted draw is v. */
  ghost function Hits(n: Word, v: int): set<int>
    requires 0 < n
  {
    set x: int | 0 <= x < WORD && Accepts(x, n) && High(x, n) == v
  }

  ghost function Rejected(n: Word): set<int>
    requires 0 < n
  {
    set x: int | 0 <= x < WORD && !Accepts(x, n)
  }

  lemma ThresholdIsRemainder(n: Word)
    requires 0 < n
    ensures Threshold(n) == WORD % n
    ensures WORD == (WORD / n) * n + Threshold(n)
  {
    var q, r := WORD / n, WORD % n;
    assert WORD - n == (q - 1) * n + r;
    QuotientIs(WORD - n, n, q - 1, r);
  }

  /** The first raw word whose product with n reaches v * 2^64 plus the threshold. */
  function FirstHit(n: Word, v: int): int
    requires 0 < n
  {
    (v * WORD + Threshold(n) + n - 1) / n
  }

  lemma HitsAreAnInterval(n: Word, v: int, x: int)
    requires 0 < n && 0 <= v < n && 0 <= x < WORD
    ensures x in Hits(n, v) <==> FirstHit(n, v) <= x < FirstHit(n, v) + WORD / n
  {
    hide High, Low, FirstHit, Threshold;
    FromTheFirstHit(n, v, x);
    ToTheLastHit(n, v, x);
    HitsByProduct(n, v, x);
  }

  lemma FromTheFirstHit(n: Word, v: int, x: int)
    requires 0 < n && 0 <= v < n
    ensures FirstHit(n, v) <= x <==> v * WORD + Threshold(n) <= x * n
  {
    var t, a := Threshold(n), FirstHit(n, v);
    CeilingBounds(v * WORD + t, n);
    if a <= x {
      MulMonotone(a, x, n);
    } else {
      MulMonotone(x, a - 1, n);
    }
  }

  lemma ToTheLastHit(n: Word, v: int, x: int)
    requires 0 < n && 0 <= v < n
    ensures x < FirstHit(n, v) + WORD / n <==> x * n < (v + 1) * WORD
  {
    var t, q, a := Threshold(n), WORD / n, FirstHit(n, v);
    ThresholdIsRemainder(n);
    CeilingBounds(v * WORD + t, n);
    assert (a + q) * n == a * n + q * n;
    assert (a + q - 1) * n == (a - 1) * n + q * n;
    if x < a + q {
      MulMonotone(x, a + q - 1, n);
    } else {
      MulMonotone(a + q, x, n);
    }
  }

  lemma HitsByProduct(n: Word, v: int, x: int)
    requires 0 < n && 0 <= v < n && 0 <= x < WORD
    ensures x in Hits(n, v) <==> v * WORD + Threshold(n) <= x * n < (v + 1) * WORD
  {
    hide Threshold;
    var h, l := High(x, n), Low(x, n);
    if v * WORD + Threshold(n) <= x * n < (v + 1) * WORD {
      QuotientIs(x * n, WORD, v, x * n - v * WORD);
    }
  }

  lemma CeilingBounds(m: int, n: int)
    requires 0 < n
    ensures ((m + n - 1) / n - 1) * n < m <= ((m + n - 1) / n) * n
  {
    var c := (m + n - 1) / n;
    assert m + n - 1 == c * n + (m + n - 1) % n;
    assert (c - 1) * n == c * n - n;
  }

  ghost function Interval(a: int, b: int): (s: set<int>)
    requires a <= b
    ensures forall x: int :: x in s <==> a <= x < b
    ensures |s| == b - a
    decreases b - a
  {
    if a == b then {} else Interval(a, b - 1) + {b - 1}
  }

  /** Each value in [0, n) is produced by exactly floor(2^64 / n) of the 2^64 raw words. */
  lemma BoundedDrawIsUniform(n: Word, v: int)
    requires 0 < n && 0 <= v < n
    ensures |Hits(n, v)| == WORD / n
  {
    var a, q := FirstHit(n, v), WORD / n;
    HitsFitAWord(n, v);
    forall x: int | 0 <= x < WORD
      ensures x in Hits(n, v) <==> a <= x < a + q
    {
      HitsAreAnInterval(n, v, x);
    }
    assert Hits(n, v) == Interval(a, a + q);
  }

  lemma HitsFitAWord(n: Word, v: int)
    requires 0 < n && 0 <= v < n
    ensures 0 <= FirstHit(n, v) && FirstHit(n, v) + WORD / n <= WORD
  {
    var t, q, a := Threshold(n), WORD / n, FirstHit(n, v);
    ThresholdIsRemainder(n);
    CeilingBounds(v * WORD + t, n);
    MulNonNegative(v, WORD);
    QuotientAtLeast(v * WORD + t + n - 1, n, 0);
    MulMonotone(v + 1, n, WORD);
    assert (a + q - 1) * n == (a - 1) * n + q * n;
    if WORD < a + q {
      MulMonotone(WORD, a + q - 1, n);
      assert false;
    }
  }

  /** The raw words for which the accepted draw is below v. */
  ghost function KeptBelow(n: Word, v: int): set<int>
    requires 0 < n
  {
    set x: int | 0 <= x < WORD && Accepts(x, n) && High(x, n) < v
  }

  lemma {:induction false} KeptBelowSize(n: Word, v: nat)
    requires 0 < n && v <= n
    ensures |KeptBelow(n, v)| == v * (WORD / n)
  {
    if v == 0 {
      assert KeptBelow(n, v) == {};
    } else {
      KeptBelowSize(n, v - 1);
      BoundedDrawIsUniform(n, v - 1);
      assert KeptBelow(n, v) == KeptBelow(n, v - 1) + Hits(n, v - 1);
      assert KeptBelow(n, v - 1) !! Hits(n, v - 1);
      assert v * (WORD / n) == (v - 1) * (WORD / n) + WORD / n;
    }
  }

  lemma KeptOrRejected(n: Word)
    requires 0 < n
    ensures |KeptBelow(n, n)| + |Rejected(n)| == WORD
  {
    forall x: int | 0 <= x < WORD
      ensures High(x, n) < n
    {
      HighIsBelow(x, n);
    }
    assert Interval(0, WORD) == KeptBelow(n, n) + Rejected(n);
    assert KeptBelow(n, n) !! Rejected(n);
  }

  lemma RemainderBelowHalf(n: Word)
    requires 0 < n
    ensures 2 * (WORD % n) < WORD
  {
    if WORD < 2 * n {
      QuotientIs(WORD, n, 1, WORD - n);
    }
  }

  /** Exactly 2^64 mod n raw words are rejected, which is fewer than half of them. */
  lemma RejectedDraws(n: Word)
    requires 0 < n
    ensures |Rejected(n)| == WORD % n
    ensures 2 * |Rejected(n)| < WORD
  {
    KeptBelowSize(n, n);
    KeptOrRejected(n);
    assert n * (WORD / n) == (WORD / n) * n;
    ThresholdIsRemainder(n);
    RemainderBelowHalf(n);
  }

  // ---- The three decisions ----

  /** The top 53 bits of a draw as a value in [0, 1). */
  function Unit53(draw: Word): (v: real)
    ensures 0.0 <= v < 1.0
  {
    (draw / 2048) as real / 9007199254740992.0
  }

  /** bernoulli's verdict on one raw draw. */
  predicate Trial(draw: Word, rate: real) {
    0.0 < rate && (1.0 <= rate || Unit53(draw) < rate)
  }

  /** uniformDuration from position i: the duration and the position it leaves. */
  ghost function Duration(src: Source, min: int, max: int, i: nat): (r: (int, nat))
    requires 0 <= min <= max <= MAX_INT && Fair(src)
    ensures min <= r.0 <= max && i < r.1
  {
    var (v, j) := Bounded(src, max - min + 1, i);
    (min + v, j)
  }

  /** corruptionSite from position i: a byte index, a bit index and the position it leaves. */
  ghost function Site(src: Source, size: int, i: nat): (r: (nat, nat, nat))
    requires 0 < size <= MAX_INT && Fair(src)
    ensures r.0 < size && r.1 < 8 && i < r.2
  {
    var (byteIndex, j) := Bounded(src, size, i);
    var (bitIndex, k) := Bounded(src, 8, j);
    (byteIndex, bitIndex, k)
  }

  /** One derived stream. Every draw advances it. */
  class Stream {
    const src: Source
    var pos: nat

    constructor (src: Source)
      ensures this.src == src && pos == 0
    {
      this.src := src;
      pos := 0;
    }

    method Next() returns (x: Word)
      modifies this
      ensures x == src(old(pos)) && pos == old(pos) + 1
    {
      x := src(pos);
      pos := pos + 1;
    }

    method Bernoulli(rate: real) returns (hit: bool)
      modifies this
      ensures hit == Trial(src(old(pos)), rate) && pos == old(pos) + 1
    {
      var draw := Next();
      if rate <= 0.0 {
        return false;
      }
      if rate >= 1.0 {
        return true;
      }
      var v := (draw / 2048) as real / 9007199254740992.0;
      return v < rate;
    }

    /** The threshold is only computed when the low word is below n; since it is itself below n, the
        draws kept are those that always comparing against it would keep. */
    method BoundedUint64(n: Word) returns (v: Word)
      requires 0 < n && Fair(src)
      modifies this
      ensures (v, pos) == Bounded(src, n, old(pos))
      ensures old(pos) < pos && Accepts(src(pos - 1), n) && Picks(src(pos - 1), n, v)
      ensures forall i: nat | old(pos) <= i < pos - 1 :: !Accepts(src(i), n)
    {
      ghost var k := FirstKept(src, n, pos);
      var x := Next();
      var (hi, lo) := Mul64(x, n);
      if lo < n {
        var thresh: Word := (WORD - n) % n;
        while lo < thresh
          invariant old(pos) < pos <= k + 1
          invariant (hi, lo) == Mul64(src(pos - 1), n)
          invariant forall j: nat | old(pos) <= j < pos - 1 :: !Accepts(src(j), n)
          decreases k + 1 - pos
        {
          assert !Accepts(src(pos - 1), n);
          x := Next();
          var product := Mul64(x, n);
          hi, lo := product.0, product.1;
        }
        assert Accepts(src(pos - 1), n);
      }
      HighIsPicked(src(pos - 1), n);
      return hi;
    }

    method UniformDuration(min: int, max: int) returns (d: int)
      requires 0 <= min <= max <= MAX_INT && Fair(src)
      modifies this
      ensures (d, pos) == Duration(src, min, max, old(pos))
    {
      hide Picks;
      var span: Word := max - min + 1;
      var v := BoundedUint64(span);
      d := min + v;
    }

    method CorruptionSite(size: int) returns (byteIndex: nat, bitIndex: nat)
      requires 0 < size <= MAX_INT && Fair(src)
      modifies this
      ensures (byteIndex, bitIndex, pos) == Site(src, size, old(pos))
    {
      hide Picks;
      byteIndex := BoundedUint64(size);
      bitIndex := BoundedUint64(8);
    }
  }

  /** Raising the rate can only turn failures into successes. */
  lemma TrialMonotone(draw: Word, rate: real, rate': real)
    requires rate <= rate'
    ensures Trial(draw, rate) ==> Trial(draw, rate')
  {}
}
