/** faults.go: what is decided about one admitted write, and what the decision does to its bytes. */
module Faults {
  import opened Words
  import opened Draws

  datatype Option<+T> = None | Some(value: T)

  type Bytes = seq<bv8>

  /** The fault settings a unit is evaluated against. A setting that is None is not configured. */
  datatype FaultConfig = FaultConfig(
    loss: Option<real>,
    latency: Option<(int, int)>,
    bandwidth: Option<int>,
    duplicate: Option<real>,
    corrupt: Option<real>)
  {
    /** What option and setter validation let through. */
    predicate Valid() {
      && (latency.Some? ==> 0 <= latency.value.0 <= latency.value.1 <= MAX_INT)
      && (bandwidth.Some? ==> 0 < bandwidth.value <= MAX_INT)
    }

    /** Units go through the release queue rather than straight to the reader. */
    predicate Delays() { latency.Some? || bandwidth.Some? }

    /** A setting once on is never off again, and the throttle has no setter. */
    predicate GrowsInto(next: FaultConfig) {
      && (loss.Some? ==> next.loss.Some?)
      && (latency.Some? ==> next.latency.Some?)
      && bandwidth == next.bandwidth
      && (duplicate.Some? ==> next.duplicate.Some?)
      && (corrupt.Some? ==> next.corrupt.Some?)
    }
  }

  /** One write that passed the buffer bound, with all that its evaluation reads. */
  datatype Admission = Admission(data: Bytes, at: int, cfg: FaultConfig, partitioned: bool)
  {
    predicate Valid() { |data| <= MAX_INT && cfg.Valid() && 0 <= at }
  }

  /** The four streams of one direction and how far each has been read. */
  datatype Sources = Sources(loss: Source, latency: Source, duplicate: Source, corrupt: Source)
  {
    ghost predicate Fair() {
      Draws.Fair(loss) && Draws.Fair(latency) && Draws.Fair(duplicate) && Draws.Fair(corrupt)
    }
  }

  datatype Positions = Positions(loss: nat, latency: nat, duplicate: nat, corrupt: nat)

  const ORIGIN := Positions(0, 0, 0, 0)

  /** The fields of a fault event that come from draws and from the unit itself. */
  datatype Draw = Draw(
    partitioned: bool, dropped: bool, duplicated: bool, corrupted: bool,
    drawn: int, size: int, corruptByte: nat, corruptBit: nat)
  {
    predicate Survives() { !partitioned && !dropped }
  }

  const PARTITIONED := Draw(true, false, false, false, 0, 0, 0, 0)

  /** An event as the recorder keeps it: the draw-derived fields and the two clock-derived ones. */
  datatype FaultEvent = FaultEvent(sequence: nat, draw: Draw, serialized: int, effective: int)

  // ---- The decision ----

  /** A configured probability costs one draw, an unconfigured one none. */
  ghost function Coin(src: Source, rate: Option<real>, i: nat): (bool, nat) {
    if rate.None? then (false, i) else (Trial(src(i), rate.value), i + 1)
  }

  ghost function Delay(src: Source, range: Option<(int, int)>, i: nat): (r: (int, nat))
    requires Draws.Fair(src)
    requires range.Some? ==> 0 <= range.value.0 <= range.value.1 <= MAX_INT
    ensures if range.Some? then range.value.0 <= r.0 <= range.value.1 else r.0 == 0
  {
    if range.None? then (0, i) else Duration(src, range.value.0, range.value.1, i)
  }

  /** Corruption's coin, and the site of the flip when there is something to flip. */
  ghost function Corruption(src: Source, rate: Option<real>, size: nat, dropped: bool, i: nat): (r: (bool, nat, nat, nat))
    requires Draws.Fair(src) && size <= MAX_INT
    ensures 0 < size ==> r.1 < size
    ensures r.2 < 8
  {
    var (corrupted, j) := Coin(src, rate, i);
    if corrupted && 0 < size && !dropped then
      var (byteIndex, bitIndex, k) := Site(src, size, j);
      (true, byteIndex, bitIndex, k)
    else (corrupted, 0, 0, j)
  }

  /** Everything the streams decide about one unit, and where they stand afterwards. */
  ghost function Decide(src: Sources, pos: Positions, a: Admission): (r: (Draw, Positions))
    requires src.Fair() && a.Valid()
    ensures 0 <= r.0.drawn && r.0.corruptBit < 8
    ensures a.data != [] ==> r.0.corruptByte < |a.data|
  {
    if a.partitioned then (PARTITIONED, pos)
    else
      var (dropped, loss) := Coin(src.loss, a.cfg.loss, pos.loss);
      var (drawn, latency) := Delay(src.latency, a.cfg.latency, pos.latency);
      var (duplicated, duplicate) := Coin(src.duplicate, a.cfg.duplicate, pos.duplicate);
      var (corrupted, byteIndex, bitIndex, corrupt) :=
        Corruption(src.corrupt, a.cfg.corrupt, |a.data|, dropped, pos.corrupt);
      (Draw(false, dropped, duplicated, corrupted, drawn, |a.data|, byteIndex, bitIndex),
       Positions(loss, latency, duplicate, corrupt))
  }

  // ---- What the decision does to the bytes ----

  function FlipBit(b: bv8, bit: nat): bv8
    requires bit < 8
  {
    b ^ ((1 as bv8) << bit)
  }

  /** The flip changes the byte and is its own inverse. */
  lemma FlipBitIsInvolution(b: bv8, bit: nat)
    requires bit < 8
    ensures FlipBit(b, bit) != b && FlipBit(FlipBit(b, bit), bit) == b
  {
    if bit == 0 {} else if bit == 1 {} else if bit == 2 {} else if bit == 3 {}
    else if bit == 4 {} else if bit == 5 {} else if bit == 6 {} else {}
  }

  /** The content every delivered copy of the unit has. */
  function Content(data: Bytes, d: Draw): (c: Bytes)
    ensures |c| == |data|
  {
    if d.corrupted && d.corruptByte < |data| && d.corruptBit < 8
    then data[d.corruptByte := FlipBit(data[d.corruptByte], d.corruptBit)]
    else data
  }

  /** The copies of the unit that reach the reader. */
  function Copies(data: Bytes, d: Draw): (c: seq<Bytes>)
    ensures |c| <= 2 && forall x | x in c :: |x| == |data|
  {
    if !d.Survives() then []
    else if d.duplicated then [Content(data, d), Content(data, d)]
    else [Content(data, d)]
  }

  function Flat(chunks: seq<Bytes>): Bytes {
    if chunks == [] then [] else chunks[0] + Flat(chunks[1..])
  }

  lemma {:induction false} FlatConcat(xs: seq<Bytes>, ys: seq<Bytes>)
    ensures Flat(xs + ys) == Flat(xs) + Flat(ys)
  {
    if xs == [] {
      assert xs + ys == ys;
    } else {
      FlatConcat(xs[1..], ys);
      assert (xs + ys)[1..] == xs[1..] + ys;
    }
  }

  /** One admitted write together with the event its evaluation recorded. */
  datatype Unit = Unit(a: Admission, e: FaultEvent)

  /** The byte stream that admitted payloads become under their recorded events: a partitioned or
      dropped unit gives nothing, a corrupted one has the recorded bit flipped, a duplicated one
      appears twice. */
  function Replay(units: seq<Unit>): Bytes {
    if units == [] then []
    else
      var last := units[|units| - 1];
      Replay(units[..|units| - 1]) + Flat(Copies(last.a.data, last.e.draw))
  }
}
