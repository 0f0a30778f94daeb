/** Which streams are isolated from which faults. */
module Isolation {
  import opened Words
  import opened Draws
  import opened Faults
  import opened Determinism

  // ---- The fields of the units that cleared the partition gate ----

  function Dropped(draws: seq<Draw>): seq<bool> {
    if draws == [] then []
    else
      var d := draws[|draws| - 1];
      Dropped(draws[..|draws| - 1]) + if d.partitioned then [] else [d.dropped]
  }

  function Duplicated(draws: seq<Draw>): seq<bool> {
    if draws == [] then []
    else
      var d := draws[|draws| - 1];
      Duplicated(draws[..|draws| - 1]) + if d.partitioned then [] else [d.duplicated]
  }

  function Drawn(draws: seq<Draw>): seq<int> {
    if draws == [] then []
    else
      var d := draws[|draws| - 1];
      Drawn(draws[..|draws| - 1]) + if d.partitioned then [] else [d.drawn]
  }

  function Sites(draws: seq<Draw>): seq<(bool, nat, nat)> {
    if draws == [] then []
    else
      var d := draws[|draws| - 1];
      Sites(draws[..|draws| - 1]) + if d.partitioned then [] else [(d.corrupted, d.corruptByte, d.corruptBit)]
  }

  // ---- The setting history of one fault kind, over the same units ----

  function LossRates(admitted: seq<Admission>): seq<Option<real>> {
    if admitted == [] then []
    else
      var a := admitted[|admitted| - 1];
      LossRates(admitted[..|admitted| - 1]) + if a.partitioned then [] else [a.cfg.loss]
  }

  function DuplicateRates(admitted: seq<Admission>): seq<Option<real>> {
    if admitted == [] then []
    else
      var a := admitted[|admitted| - 1];
      DuplicateRates(admitted[..|admitted| - 1]) + if a.partitioned then [] else [a.cfg.duplicate]
  }

  type Range = r: Option<(int, int)> | r.Some? ==> 0 <= r.value.0 <= r.value.1 <= MAX_INT witness None

  function Ranges(admitted: seq<Admission>): seq<Range>
    requires forall i | 0 <= i < |admitted| :: admitted[i].Valid()
  {
    if admitted == [] then []
    else
      var a := admitted[|admitted| - 1];
      assert a.Valid();
      var range: Range := a.cfg.latency;
      Ranges(admitted[..|admitted| - 1]) + if a.partitioned then [] else [range]
  }

  /** What corruption sees of a unit: its own rate, the unit's size and whether loss dropped it. */
  datatype Exposure = Exposure(rate: Option<real>, size: nat, dropped: bool)

  type Exposed = x: Exposure | x.size <= MAX_INT witness Exposure(None, 0, false)

  function Exposures(admitted: seq<Admission>, draws: seq<Draw>): seq<Exposed>
    requires |admitted| == |draws| && forall i | 0 <= i < |admitted| :: admitted[i].Valid()
  {
    if admitted == [] then []
    else
      var n := |admitted| - 1;
      var a := admitted[n];
      assert a.Valid();
      var exposed: Exposed := Exposure(a.cfg.corrupt, |a.data|, draws[n].dropped);
      Exposures(admitted[..n], draws[..n]) + if a.partitioned then [] else [exposed]
  }

  // ---- Each kind alone ----

  /** Coins tossed off one stream, and how far that reads it. */
  ghost function Coins(src: Source, rates: seq<Option<real>>): (seq<bool>, nat) {
    if rates == [] then ([], 0)
    else
      var (hits, i) := Coins(src, rates[..|rates| - 1]);
      var (hit, j) := Coin(src, rates[|rates| - 1], i);
      (hits + [hit], j)
  }

  ghost function Waits(src: Source, ranges: seq<Range>): (seq<int>, nat)
    requires Draws.Fair(src)
  {
    if ranges == [] then ([], 0)
    else
      var (waits, i) := Waits(src, ranges[..|ranges| - 1]);
      var (wait, j) := Delay(src, ranges[|ranges| - 1], i);
      (waits + [wait], j)
  }

  ghost function Flips(src: Source, exposures: seq<Exposed>): (seq<(bool, nat, nat)>, nat)
    requires Draws.Fair(src)
  {
    if exposures == [] then ([], 0)
    else
      var (flips, i) := Flips(src, exposures[..|exposures| - 1]);
      var x := exposures[|exposures| - 1];
      var (corrupted, byteIndex, bitIndex, j) := Corruption(src, x.rate, x.size, x.dropped, i);
      (flips + [(corrupted, byteIndex, bitIndex)], j)
  }

  // ---- Isolation ----

  lemma FieldsAppend(draws: seq<Draw>, d: Draw)
    requires !d.partitioned
    ensures Dropped(draws + [d]) == Dropped(draws) + [d.dropped]
    ensures Duplicated(draws + [d]) == Duplicated(draws) + [d.duplicated]
    ensures Drawn(draws + [d]) == Drawn(draws) + [d.drawn]
    ensures Sites(draws + [d]) == Sites(draws) + [(d.corrupted, d.corruptByte, d.corruptBit)]
  {
    assert (draws + [d])[..|draws|] == draws;
  }

  lemma FieldsSkip(draws: seq<Draw>, d: Draw)
    requires d.partitioned
    ensures Dropped(draws + [d]) == Dropped(draws)
    ensures Duplicated(draws + [d]) == Duplicated(draws)
    ensures Drawn(draws + [d]) == Drawn(draws)
    ensures Sites(draws + [d]) == Sites(draws)
  {
    assert (draws + [d])[..|draws|] == draws;
  }

  lemma CoinsAppend(src: Source, rates: seq<Option<real>>, rate: Option<real>)
    ensures var (hits, i) := Coins(src, rates);
            Coins(src, rates + [rate]) == (hits + [Coin(src, rate, i).0], Coin(src, rate, i).1)
  {
    assert (rates + [rate])[..|rates|] == rates;
  }

  lemma WaitsAppend(src: Source, ranges: seq<Range>, range: Range)
    requires Draws.Fair(src)
    ensures var (waits, i) := Waits(src, ranges);
            Waits(src, ranges + [range]) == (waits + [Delay(src, range, i).0], Delay(src, range, i).1)
  {
    assert (ranges + [range])[..|ranges|] == ranges;
  }

  lemma FlipsAppend(src: Source, exposures: seq<Exposed>, x: Exposed)
    requires Draws.Fair(src)
    ensures var (flips, i) := Flips(src, exposures);
            var (corrupted, byteIndex, bitIndex, j) := Corruption(src, x.rate, x.size, x.dropped, i);
            Flips(src, exposures + [x]) == (flips + [(corrupted, byteIndex, bitIndex)], j)
  {
    assert (exposures + [x])[..|exposures|] == exposures;
  }

  /** Loss decisions are coins tossed off loss's own stream under loss's own settings; partitioned units
      consume nothing. */
  lemma {:induction false} LossIsIsolated(src: Sources, admitted: seq<Admission>)
    requires src.Fair() && AllValid(admitted)
    ensures var (draws, pos) := DecideAll(src, admitted);
            (Dropped(draws), pos.loss) == Coins(src.loss, LossRates(admitted))
  {
    hide Corruption, Delay, Coin, Coins, Dropped;
    if admitted == [] {
      assert Dropped([]) == [] && Coins(src.loss, []) == ([], 0) by { NothingDrawn(src); }
    } else {
      var n := |admitted| - 1;
      var (draws, pos) := DecideAll(src, admitted[..n]);
      var d := Decide(src, pos, admitted[n]).0;
      LossIsIsolated(src, admitted[..n]);
      if admitted[n].partitioned {
        FieldsSkip(draws, d);
        assert LossRates(admitted[..n]) + [] == LossRates(admitted[..n]);
      } else {
        FieldsAppend(draws, d);
        CoinsAppend(src.loss, LossRates(admitted[..n]), admitted[n].cfg.loss);
      }
    }
  }

  lemma NothingDrawn(src: Sources)
    requires src.Fair()
    ensures Dropped([]) == [] && Coins(src.loss, []) == ([], 0)
    ensures Duplicated([]) == [] && Coins(src.duplicate, []) == ([], 0)
    ensures Drawn([]) == [] && Waits(src.latency, []) == ([], 0)
    ensures Sites([]) == [] && Flips(src.corrupt, []) == ([], 0)
  {}

  /** Duplication decisions likewise. */
  lemma {:induction false} DuplicationIsIsolated(src: Sources, admitted: seq<Admission>)
    requires src.Fair() && AllValid(admitted)
    ensures var (draws, pos) := DecideAll(src, admitted);
            (Duplicated(draws), pos.duplicate) == Coins(src.duplicate, DuplicateRates(admitted))
  {
    hide Corruption, Delay, Coin, Coins, Duplicated;
    if admitted == [] {
      assert Duplicated([]) == [] && Coins(src.duplicate, []) == ([], 0) by { NothingDrawn(src); }
    } else {
      var n := |admitted| - 1;
      var (draws, pos) := DecideAll(src, admitted[..n]);
      var d := Decide(src, pos, admitted[n]).0;
      DuplicationIsIsolated(src, admitted[..n]);
      if admitted[n].partitioned {
        FieldsSkip(draws, d);
        assert DuplicateRates(admitted[..n]) + [] == DuplicateRates(admitted[..n]);
      } else {
        FieldsAppend(draws, d);
        CoinsAppend(src.duplicate, DuplicateRates(admitted[..n]), admitted[n].cfg.duplicate);
      }
    }
  }

  /** Latency draws one duration a unit off its own stream, dropped units included. */
  lemma {:induction false} LatencyIsIsolated(src: Sources, admitted: seq<Admission>)
    requires src.Fair() && AllValid(admitted)
    ensures var (draws, pos) := DecideAll(src, admitted);
            (Drawn(draws), pos.latency) == Waits(src.latency, Ranges(admitted))
  {
    hide Corruption, Delay, Coin, Waits, Drawn;
    if admitted == [] {
      assert Drawn([]) == [] && Waits(src.latency, []) == ([], 0) by { NothingDrawn(src); }
    } else {
      var n := |admitted| - 1;
      var (draws, pos) := DecideAll(src, admitted[..n]);
      assert admitted[n].Valid();
      var d := Decide(src, pos, admitted[n]).0;
      LatencyIsIsolated(src, admitted[..n]);
      if admitted[n].partitioned {
        FieldsSkip(draws, d);
        assert Ranges(admitted[..n]) + [] == Ranges(admitted[..n]);
      } else {
        FieldsAppend(draws, d);
        WaitsAppend(src.latency, Ranges(admitted[..n]), admitted[n].cfg.latency);
      }
    }
  }

  /** Corruption is isolated from latency, bandwidth and duplication, but not from loss: it is determined
      by its own stream and settings, the sizes of the units and which of them loss dropped. */
  lemma {:induction false} CorruptionSeesOnlyLoss(src: Sources, admitted: seq<Admission>)
    requires src.Fair() && AllValid(admitted)
    ensures var (draws, pos) := DecideAll(src, admitted);
            (Sites(draws), pos.corrupt) == Flips(src.corrupt, Exposures(admitted, draws))
  {
    hide Corruption, Delay, Coin, Flips, Sites;
    if admitted == [] {
      assert Sites([]) == [] && Flips(src.corrupt, []) == ([], 0) by { NothingDrawn(src); }
    } else {
      var n := |admitted| - 1;
      var (draws, pos) := DecideAll(src, admitted[..n]);
      assert admitted[n].Valid();
      var d := Decide(src, pos, admitted[n]).0;
      CorruptionSeesOnlyLoss(src, admitted[..n]);
      assert (draws + [d])[..n] == draws;
      if admitted[n].partitioned {
        FieldsSkip(draws, d);
        assert Exposures(admitted[..n], draws) + [] == Exposures(admitted[..n], draws);
      } else {
        FieldsAppend(draws, d);
        FlipsAppend(src.corrupt, Exposures(admitted[..n], draws),
                    Exposure(admitted[n].cfg.corrupt, |admitted[n].data|, d.dropped));
      }
    }
  }

  /** Hence a setting change, a payload, a partition or another fault moves no loss decision: two lists of
      writes with the same loss settings on their unpartitioned units lose the same ones. */
  lemma LossIndependent(src: Sources, xs: seq<Admission>, ys: seq<Admission>)
    requires src.Fair() && AllValid(xs) && AllValid(ys) && LossRates(xs) == LossRates(ys)
    ensures Dropped(DecideAll(src, xs).0) == Dropped(DecideAll(src, ys).0)
  {
    LossIsIsolated(src, xs);
    LossIsIsolated(src, ys);
  }

  // ---- Raising the loss rate ----

  /** The same writes, with loss configured alike but for a rate that is nowhere lower. */
  ghost predicate LossRaised(xs: seq<Admission>, ys: seq<Admission>) {
    && |xs| == |ys|
    && forall i | 0 <= i < |xs| ::
         && xs[i].partitioned == ys[i].partitioned
         && xs[i].cfg.loss.Some? == ys[i].cfg.loss.Some?
         && (xs[i].cfg.loss.Some? ==> xs[i].cfg.loss.value <= ys[i].cfg.loss.value)
  }

  /** Raising only the loss rate can only enlarge the set of dropped units. */
  lemma {:induction false} RaisedLossDropsMore(src: Sources, xs: seq<Admission>, ys: seq<Admission>)
    requires src.Fair() && AllValid(xs) && AllValid(ys) && LossRaised(xs, ys)
    ensures DecideAll(src, xs).1.loss == DecideAll(src, ys).1.loss
    ensures forall i | 0 <= i < |xs| :: DecideAll(src, xs).0[i].dropped ==> DecideAll(src, ys).0[i].dropped
  {
    hide Corruption, Delay, Trial;
    if xs == [] {
    } else {
      var n := |xs| - 1;
      RaisedLossDropsMore(src, xs[..n], ys[..n]);
      if xs[n].cfg.loss.Some? {
        TrialMonotone(src.loss(DecideAll(src, xs[..n]).1.loss), xs[n].cfg.loss.value, ys[n].cfg.loss.value);
      }
    }
  }

  // ---- Corruption and loss ----

  /** One unit's verdict on whether loss moves corruption's stream: exactly when the corruption coin hit a
      non-empty unit. */
  lemma DropShiftsCorruptionExactly(src: Source, rate: Option<real>, size: nat, i: nat)
    requires Draws.Fair(src) && size <= MAX_INT
    ensures Corruption(src, rate, size, true, i).3 == Corruption(src, rate, size, false, i).3
       <==> !(Coin(src, rate, i).0 && 0 < size)
  {}

  /** The same writes but for the loss settings. */
  ghost predicate AlikeButLoss(xs: seq<Admission>, ys: seq<Admission>) {
    && |xs| == |ys|
    && forall i | 0 <= i < |xs| ::
         xs[i].data == ys[i].data && xs[i].partitioned == ys[i].partitioned && xs[i].cfg.corrupt == ys[i].cfg.corrupt
  }

  /** Corruption's stream stands at the same place after every unit. */
  ghost predicate InStep(src: Sources, xs: seq<Admission>, ys: seq<Admission>)
    requires src.Fair() && AllValid(xs) && AllValid(ys) && |xs| == |ys|
  {
    forall k | 0 <= k <= |xs| :: DecideAll(src, xs[..k]).1.corrupt == DecideAll(src, ys[..k]).1.corrupt
  }

  /** No unit that loss treats differently is a non-empty one that the corruption coin hit. */
  ghost predicate NothingShifts(src: Sources, xs: seq<Admission>, ys: seq<Admission>)
    requires src.Fair() && AllValid(xs) && AllValid(ys) && |xs| == |ys|
  {
    forall i | 0 <= i < |xs| ::
      var d, e := DecideAll(src, xs).0[i], DecideAll(src, ys).0[i];
      d.dropped != e.dropped ==> !(d.corrupted && xs[i].data != [])
  }

  /** The documented claim that each fault's sequence ignores what the others decided holds of corruption
      exactly when no unit that loss treats differently was to be corrupted and had a byte to flip. */
  lemma {:induction false} CorruptionUnmovedExactly(src: Sources, xs: seq<Admission>, ys: seq<Admission>)
    requires src.Fair() && AllValid(xs) && AllValid(ys) && AlikeButLoss(xs, ys)
    ensures InStep(src, xs, ys) <==> NothingShifts(src, xs, ys)
  {
    hide Corruption, Delay, DecideAll;
    if xs == [] {
      assert xs[..0] == ys[..0];
    } else {
      var n := |xs| - 1;
      CorruptionUnmovedExactly(src, xs[..n], ys[..n]);
      InStepLast(src, xs, ys);
      NothingShiftsLast(src, xs, ys);
      if InStep(src, xs[..n], ys[..n]) {
        assert xs[..n][..n] == xs[..n] && ys[..n][..n] == ys[..n];
        LastUnitInStep(src, xs, ys);
      }
    }
  }

  /** What loss's own stream and settings alone say about the unit. */
  ghost predicate LossTakes(src: Source, admitted: seq<Admission>, i: nat)
    requires i < |admitted|
  {
    !admitted[i].partitioned && Coin(src, admitted[i].cfg.loss, Coins(src, LossRates(admitted[..i])).1).0
  }

  lemma {:induction false} LossAloneDecides(src: Sources, admitted: seq<Admission>, i: nat)
    requires src.Fair() && AllValid(admitted) && i < |admitted|
    ensures DecideAll(src, admitted).0[i].dropped == LossTakes(src.loss, admitted, i)
    decreases |admitted|
  {
    hide Corruption, Delay, Coin, Coins, LossRates;
    var n := |admitted| - 1;
    if i == n {
      LossIsIsolated(src, admitted[..n]);
    } else {
      LossAloneDecides(src, admitted[..n], i);
      assert admitted[..n][..i] == admitted[..i];
    }
  }

  /** The same in terms of the settings: corruption's stream ignores a change of the loss settings exactly
      when no non-empty unit that the corruption coin hit is one that loss takes under one of the two
      settings and not under the other. */
  lemma CorruptionUnmovedBySettings(src: Sources, xs: seq<Admission>, ys: seq<Admission>)
    requires src.Fair() && AllValid(xs) && AllValid(ys) && AlikeButLoss(xs, ys)
    ensures InStep(src, xs, ys) <==>
              forall i | 0 <= i < |xs| && LossTakes(src.loss, xs, i) != LossTakes(src.loss, ys, i) ::
                !(DecideAll(src, xs).0[i].corrupted && xs[i].data != [])
  {
    hide DecideAll, LossTakes, InStep;
    CorruptionUnmovedExactly(src, xs, ys);
    forall i | 0 <= i < |xs|
      ensures DecideAll(src, xs).0[i].dropped == LossTakes(src.loss, xs, i)
      ensures DecideAll(src, ys).0[i].dropped == LossTakes(src.loss, ys, i)
    {
      LossAloneDecides(src, xs, i);
      LossAloneDecides(src, ys, i);
    }
  }

  lemma InStepLast(src: Sources, xs: seq<Admission>, ys: seq<Admission>)
    requires src.Fair() && AllValid(xs) && AllValid(ys) && |xs| == |ys| && xs != []
    ensures InStep(src, xs, ys) <==>
              InStep(src, xs[..|xs| - 1], ys[..|ys| - 1]) && DecideAll(src, xs).1.corrupt == DecideAll(src, ys).1.corrupt
  {
    hide DecideAll;
    var n := |xs| - 1;
    assert xs[..n + 1] == xs && ys[..n + 1] == ys;
    assert forall k | 0 <= k <= n :: xs[..n][..k] == xs[..k] && ys[..n][..k] == ys[..k];
  }

  lemma EarlierDecisionsStand(src: Sources, xs: seq<Admission>)
    requires src.Fair() && AllValid(xs) && xs != []
    ensures DecideAll(src, xs).0[..|xs| - 1] == DecideAll(src, xs[..|xs| - 1]).0
  {
    hide Decide;
    var n := |xs| - 1;
    var (draws, pos) := DecideAll(src, xs[..n]);
    assert DecideAll(src, xs).0 == draws + [Decide(src, pos, xs[n]).0];
  }

  lemma NothingShiftsLast(src: Sources, xs: seq<Admission>, ys: seq<Admission>)
    requires src.Fair() && AllValid(xs) && AllValid(ys) && |xs| == |ys| && xs != []
    ensures NothingShifts(src, xs, ys) <==>
              && NothingShifts(src, xs[..|xs| - 1], ys[..|ys| - 1])
              && (var d, e := DecideAll(src, xs).0[|xs| - 1], DecideAll(src, ys).0[|ys| - 1];
                  d.dropped != e.dropped ==> !(d.corrupted && xs[|xs| - 1].data != []))
  {
    hide DecideAll;
    var n := |xs| - 1;
    EarlierDecisionsStand(src, xs);
    EarlierDecisionsStand(src, ys);
    var all, all' := DecideAll(src, xs).0, DecideAll(src, ys).0;
    var before, before' := DecideAll(src, xs[..n]).0, DecideAll(src, ys[..n]).0;
    forall i | 0 <= i < n
      ensures all[i] == before[i] && all'[i] == before'[i] && xs[..n][i] == xs[i]
    {
      assert all[..n][i] == all[i] && all'[..n][i] == all'[i];
    }
  }

  lemma LastUnitInStep(src: Sources, xs: seq<Admission>, ys: seq<Admission>)
    requires src.Fair() && AllValid(xs) && AllValid(ys) && AlikeButLoss(xs, ys) && xs != []
    requires DecideAll(src, xs[..|xs| - 1]).1.corrupt == DecideAll(src, ys[..|ys| - 1]).1.corrupt
    ensures DecideAll(src, xs).1.corrupt == DecideAll(src, ys).1.corrupt <==>
              (var d, e := DecideAll(src, xs).0[|xs| - 1], DecideAll(src, ys).0[|ys| - 1];
               d.dropped != e.dropped ==> !(d.corrupted && xs[|xs| - 1].data != []))
  {
    hide Corruption, Delay;
    var n := |xs| - 1;
    assert xs[n].Valid();
    var pos := DecideAll(src, xs[..n]).1;
    DropShiftsCorruptionExactly(src.corrupt, xs[n].cfg.corrupt, |xs[n].data|, pos.corrupt);
    CoinDecidesCorruption(src.corrupt, xs[n].cfg.corrupt, |xs[n].data|, pos.corrupt);
  }

  lemma CoinDecidesCorruption(src: Source, rate: Option<real>, size: nat, i: nat)
    requires Draws.Fair(src) && size <= MAX_INT
    ensures forall dropped: bool :: Corruption(src, rate, size, dropped, i).0 == Coin(src, rate, i).0
  {}

  // ---- The witness ----

  /** A stream that alternates one low word with two high ones. */
  function Alternating(): Source {
    (i: nat) => if i % 3 == 0 then 0 else 0xFFFF_FFFF_FFFF_FFFF
  }

  lemma AlternatingIsFair()
    ensures Draws.Fair(Alternating())
  {
    forall n: Word, i: nat | 0 < n
      ensures KeepsSomeFrom(Alternating(), n, i)
    {
      var j: nat := if i % 3 == 0 then i + 1 else i;
      LargestWordIsAccepted(n);
      assert i <= j && Accepts(Alternating()(j), n);
    }
  }

  function OneByte(loss: real): Admission {
    Admission([0], 0, FaultConfig(Some(loss), None, None, None, Some(0.5)), false)
  }

  lemma SmallDrawsNeverRejected(src: Source, n: Word, i: nat)
    requires Draws.Fair(src) && (n == 1 || n == 8)
    ensures Bounded(src, n, i).1 == i + 1
  {
    QuotientIs(WORD - n, n, WORD / n - 1, 0);
    assert Accepts(src(i), n);
  }

  lemma ExtremeTrials()
    ensures Trial(0, 0.5) && !Trial(0xFFFF_FFFF_FFFF_FFFF, 0.5)
  {}

  /** Where the first write leaves corruption's stream: one draw on if loss takes it, three if not. */
  lemma FirstWrite(src: Sources, loss: real)
    requires src.Fair() && src.corrupt == Alternating() && (loss == 0.0 || loss == 1.0)
    ensures Decide(src, ORIGIN, OneByte(loss)).1.corrupt == if loss == 1.0 then 1 else 3
  {
    hide Bounded, FirstKept, Accepts, Unit53;
    ExtremeTrials();
    SmallDrawsNeverRejected(src.corrupt, 1, 1);
    SmallDrawsNeverRejected(src.corrupt, 8, 2);
  }

  lemma SecondWrite(src: Sources, pos: Positions)
    requires src.Fair() && src.corrupt == Alternating()
    ensures Decide(src, pos, OneByte(0.0)).0.corrupted <==> pos.corrupt % 3 == 0
  {
    hide Bounded, FirstKept, Accepts, Unit53, Site;
    ExtremeTrials();
  }

  /** Two runs that differ only in the loss rate in force at the first write: where the first write is
      lost, the second is not corrupted; where it arrives, the second is. */
  lemma LossMovesCorruption() returns (src: Sources, xs: seq<Admission>, ys: seq<Admission>)
    ensures src.Fair() && AllValid(xs) && AllValid(ys) && AlikeButLoss(xs, ys) && LossRaised(xs, ys)
    ensures |xs| == 2 && DecideAll(src, xs).0[1].corrupted && !DecideAll(src, ys).0[1].corrupted
  {
    hide Decide, DecideAll;
    AlternatingIsFair();
    src := Sources(Alternating(), Alternating(), Alternating(), Alternating());
    xs, ys := [OneByte(0.0), OneByte(0.0)], [OneByte(1.0), OneByte(0.0)];
    FirstWrite(src, 0.0);
    FirstWrite(src, 1.0);
    SecondWrite(src, Decide(src, ORIGIN, xs[0]).1);
    SecondWrite(src, Decide(src, ORIGIN, ys[0]).1);
    TwoWrites(src, xs);
    TwoWrites(src, ys);
  }

  lemma TwoWrites(src: Sources, xs: seq<Admission>)
    requires src.Fair() && AllValid(xs) && |xs| == 2
    ensures var (d, pos) := Decide(src, ORIGIN, xs[0]);
            DecideAll(src, xs).0 == [d, Decide(src, pos, xs[1]).0]
  {
    hide Decide;
    assert xs[..1] == [xs[0]] && [xs[0]][..0] == [];
    DecideNone(src);
  }

  lemma DecideNone(src: Sources)
    requires src.Fair()
    ensures DecideAll(src, []) == ([], ORIGIN)
  {}
}
