/** rand.go's deriveStream: what is hashed into a stream's key tells the streams apart. */
module Encoding {
  import opened Words

  type Octets = seq<nat>

  /** The last n octets of v, most significant first. */
  function BigEndian(v: nat, n: nat): (o: Octets)
    ensures |o| == n
    ensures forall i | 0 <= i < n :: o[i] < 256
  {
    if n == 0 then [] else BigEndian(v / 256, n - 1) + [v % 256]
  }

  /** The number n octets can hold. */
  function Span(n: nat): nat {
    if n == 0 then 1 else 256 * Span(n - 1)
  }

  /** The number the octets stand for, most significant first. */
  function Value(o: Octets): nat {
    if o == [] then 0 else 256 * Value(o[..|o| - 1]) + o[|o| - 1]
  }

  lemma {:induction false} BigEndianRoundTrips(v: nat, n: nat)
    requires v < Span(n)
    ensures Value(BigEndian(v, n)) == v
  {
    if n == 0 {
    } else {
      BigEndianRoundTrips(v / 256, n - 1);
      assert BigEndian(v, n)[..n - 1] == BigEndian(v / 256, n - 1);
    }
  }

  lemma {:induction false} BigEndianIsInjective(v: nat, w: nat, n: nat)
    requires v < Span(n) && w < Span(n) && BigEndian(v, n) == BigEndian(w, n)
    ensures v == w
  {
    if n == 0 {
    } else {
      var a, b := BigEndian(v, n), BigEndian(w, n);
      assert a[..n - 1] == BigEndian(v / 256, n - 1) && b[..n - 1] == BigEndian(w / 256, n - 1);
      assert a[n - 1] == v % 256 && b[n - 1] == w % 256;
      BigEndianIsInjective(v / 256, w / 256, n - 1);
    }
  }

  lemma SpanOfWord()
    ensures Span(8) == WORD
  {
    assert Span(4) == 256 * (256 * (256 * (256 * Span(0))));
    assert Span(8) == 256 * (256 * (256 * (256 * Span(4))));
  }

  // ---- deriveStream ----

  /** Which stream: the master seed, the connection, the side that writes and the kind of fault. */
  datatype StreamId = StreamId(seed: int, ordinal: nat, side: nat, kind: nat)
  {
    predicate Valid() {
      -0x8000_0000_0000_0000 <= seed < 0x8000_0000_0000_0000 && ordinal < WORD && side < 256 && kind < 256
    }
  }

  const TAG: Octets := [0x6e, 0x63, 0x31, 0x00]

  /** Two's complement: the seed is signed. */
  function Unsigned(seed: int): (w: int)
    requires -0x8000_0000_0000_0000 <= seed < 0x8000_0000_0000_0000
    ensures 0 <= w < WORD
  {
    if seed < 0 then seed + WORD else seed
  }

  /** The 22 octets that are hashed. */
  function KeyInput(id: StreamId): (o: Octets)
    requires id.Valid()
    ensures |o| == 22
  {
    TAG + BigEndian(Unsigned(id.seed), 8) + BigEndian(id.ordinal, 8) + [id.side, id.kind]
  }

  /** Where what is: the tag, the seed as an unsigned word, the ordinal, the side and the kind. */
  lemma KeyInputLayout(id: StreamId)
    requires id.Valid()
    ensures var o := KeyInput(id);
            && o[..4] == [0x6e, 0x63, 0x31, 0x00]
            && Value(o[4..12]) == (if id.seed < 0 then id.seed + 0x1_0000_0000_0000_0000 else id.seed)
            && Value(o[12..20]) == id.ordinal
            && o[20] == id.side && o[21] == id.kind
  {
    hide BigEndian, Span, Value;
    SpanOfWord();
    BigEndianRoundTrips(Unsigned(id.seed), 8);
    BigEndianRoundTrips(id.ordinal, 8);
    var o := KeyInput(id);
    assert o[4..12] == BigEndian(Unsigned(id.seed), 8) && o[12..20] == BigEndian(id.ordinal, 8);
  }

  /** Different streams have different inputs, so nothing short of a hash collision can make two
      directions, connections or faults draw from one stream. */
  lemma KeyInputIsInjective(x: StreamId, y: StreamId)
    requires x.Valid() && y.Valid() && KeyInput(x) == KeyInput(y)
    ensures x == y
  {
    hide BigEndian, Span;
    var a, b := KeyInput(x), KeyInput(y);
    SpanOfWord();
    assert a[4..12] == BigEndian(Unsigned(x.seed), 8) && b[4..12] == BigEndian(Unsigned(y.seed), 8);
    assert a[12..20] == BigEndian(x.ordinal, 8) && b[12..20] == BigEndian(y.ordinal, 8);
    assert a[20] == x.side && b[20] == y.side && a[21] == x.kind && b[21] == y.kind;
    BigEndianIsInjective(Unsigned(x.seed), Unsigned(y.seed), 8);
    BigEndianIsInjective(x.ordinal, y.ordinal, 8);
  }
}
