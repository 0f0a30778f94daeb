/** What the draws of rand.go mean in terms of the raw words they consume. */
module DrawLaws {
  import opened Words
  import opened Draws

  // ---- The bounded draw ----

  /** A bounded draw reads up to the first word the rejection keeps, and stands for that word. */
  lemma BoundedIsExact(src: Source, n: Word, i: nat)
    requires 0 < n && Fair(src)
    ensures var (v, j) := Bounded(src, n, i);
            && i < j && Accepts(src(j - 1), n) && Picks(src(j - 1), n, v)
            && forall k: nat | i <= k < j - 1 :: !Accepts(src(k), n)
  {
    HighIsPicked(src(FirstKept(src, n, i)), n);
  }

  /** A stream that begins with the word and goes on with words that are always kept. */
  function Beginning(x: Word): Source {
    (i: nat) => if i == 0 then x else WORD - 1
  }

  lemma BeginningIsFair(x: Word)
    ensures Fair(Beginning(x))
  {
    forall n: Word, i: nat | 0 < n
      ensures KeepsSomeFrom(Beginning(x), n, i)
    {
      LargestWordIsAccepted(n);
      assert Accepts(Beginning(x)(i + 1), n);
    }
  }

  /** What a bounded draw returns that starts on this word. */
  ghost function Drawn(x: Word, n: Word): int
    requires 0 < n
  {
    BeginningIsFair(x);
    Bounded(Beginning(x), n, 0).0
  }

  /** The words that the rejection keeps and for which the draw returns v. */
  ghost function Returning(n: Word, v: int): set<int>
    requires 0 < n
  {
    set x: int | 0 <= x < WORD && Accepts(x, n) && Drawn(x, n) == v
  }

  lemma KeptWordIsDrawn(x: Word, n: Word)
    requires 0 < n && Accepts(x, n)
    ensures Drawn(x, n) == High(x, n)
  {
    hide High, Accepts;
    BeginningIsFair(x);
    assert FirstKept(Beginning(x), n, 0) == 0;
  }

  /** The value returned is uniform: every v below n is returned for exactly floor(2^64 / n) of the words
      that are kept. */
  lemma ReturnedValueIsUniform(n: Word, v: int)
    requires 0 < n && 0 <= v < n
    ensures |Returning(n, v)| == WORD / n
  {
    hide High, Accepts, Drawn;
    forall x: int | 0 <= x < WORD && Accepts(x, n)
      ensures Drawn(x, n) == High(x, n)
    {
      KeptWordIsDrawn(x, n);
    }
    assert Returning(n, v) == Hits(n, v);
    BoundedDrawIsUniform(n, v);
  }

  /** A duration is the minimum plus a bounded draw of the inclusive span. */
  lemma DurationIsExact(src: Source, min: int, max: int, i: nat)
    requires 0 <= min <= max <= MAX_INT && Fair(src)
    ensures var (d, j) := Duration(src, min, max, i);
            && min <= d <= max && i < j
            && Accepts(src(j - 1), max - min + 1) && Picks(src(j - 1), max - min + 1, d - min)
            && forall k: nat | i <= k < j - 1 :: !Accepts(src(k), max - min + 1)
  {
    hide Picks, Accepts;
    BoundedIsExact(src, max - min + 1, i);
  }

  /** The words that are kept and for which the duration is d. */
  ghost function Lasting(min: int, max: int, d: int): set<int>
    requires 0 <= min <= max <= MAX_INT
  {
    set x: int | 0 <= x < WORD && Accepts(x, max - min + 1) && LastsFor(x, min, max, d)
  }

  ghost predicate LastsFor(x: Word, min: int, max: int, d: int)
    requires 0 <= min <= max <= MAX_INT
  {
    BeginningIsFair(x);
    Duration(Beginning(x), min, max, 0).0 == d
  }

  /** Every duration of the range is as likely as any other. */
  lemma DurationIsUniform(min: int, max: int, d: int)
    requires 0 <= min <= d <= max <= MAX_INT
    ensures |Lasting(min, max, d)| == WORD / (max - min + 1)
  {
    hide Accepts, Bounded;
    ReturnedValueIsUniform(max - min + 1, d - min);
    assert Lasting(min, max, d) == Returning(max - min + 1, d - min);
  }

  /** The byte is drawn first, then the bit, each by a bounded draw of its own. */
  lemma SiteIsExact(src: Source, size: int, i: nat) returns (j: nat)
    requires 0 < size <= MAX_INT && Fair(src)
    ensures var (byteIndex, bitIndex, k) := Site(src, size, i);
            && i < j < k && byteIndex < size && bitIndex < 8
            && Accepts(src(j - 1), size) && Picks(src(j - 1), size, byteIndex)
            && Accepts(src(k - 1), 8) && Picks(src(k - 1), 8, bitIndex)
            && (forall m: nat | i <= m < j - 1 :: !Accepts(src(m), size))
            && (forall m: nat | j <= m < k - 1 :: !Accepts(src(m), 8))
  {
    hide Picks, Accepts;
    j := Bounded(src, size, i).1;
    BoundedIsExact(src, size, i);
    BoundedIsExact(src, 8, j);
  }

  // ---- The trial ----

  /** The top 53 bits of the word are below the rate, as fractions of 2^53: for rates of 0 and less never,
      for rates of 1 and more always. */
  lemma TrialIsExact(x: Word, rate: real)
    ensures Trial(x, rate) <==> (x / 2048) as real < rate * 9007199254740992.0
  {
    var top := (x / 2048) as real;
    assert 0.0 <= top < 9007199254740992.0;
    if rate <= 0.0 {
      assert rate * 9007199254740992.0 <= 0.0;
    } else if 1.0 <= rate {
      assert 9007199254740992.0 <= rate * 9007199254740992.0;
    } else {
      assert Unit53(x) * 9007199254740992.0 == top;
    }
  }

  /** The words that hit at the rate. */
  ghost function Hitting(rate: real): set<int> {
    set x: int | 0 <= x < WORD && Trial(x, rate)
  }

  function Ceiling(r: real): (c: int)
    ensures (c - 1) as real < r <= c as real
  {
    -((-r).Floor)
  }

  /** A rate is met to the last of its 2^53 parts: the words that hit number 2^11 times the rate in such
      parts, rounded up. */
  lemma TrialsMeetTheRate(rate: real)
    requires 0.0 <= rate <= 1.0
    ensures |Hitting(rate)| == 2048 * Ceiling(rate * 9007199254740992.0)
  {
    var c := Ceiling(rate * 9007199254740992.0);
    assert 0 <= c <= 9007199254740992;
    forall x: int | 0 <= x < WORD
      ensures Trial(x, rate) <==> x < 2048 * c
    {
      TrialIsExact(x, rate);
      assert (x / 2048) as real < rate * 9007199254740992.0 <==> x / 2048 < c;
    }
    assert Hitting(rate) == Interval(0, 2048 * c);
  }
}
