/** faults.go: what is decided about a unit, in terms of its settings and of the raw words of the four
    streams. */
module Decisions {
  import opened Words
  import opened Draws
  import opened DrawLaws
  import opened Faults
  import opened PipeSpec
  import opened PipeRuns
  import opened Determinism

  /** The word hits at the rate: its top 53 bits are below the rate, in parts of 2^53. */
  ghost predicate Meets(x: Word, rate: real) {
    (x / 2048) as real < rate * 9007199254740992.0
  }

  // ---- One unit ----

  /** Only a partition makes a unit partitioned, and then it is nothing else and has drawn nothing. */
  lemma PartitionIsExact(src: Sources, pos: Positions, a: Admission)
    requires src.Fair() && a.Valid()
    ensures var (d, next) := Decide(src, pos, a);
            && (d.partitioned <==> a.partitioned)
            && (a.partitioned ==>
                  && next == pos && !d.dropped && !d.duplicated && !d.corrupted
                  && d.drawn == 0 && d.size == 0 && d.corruptByte == 0 && d.corruptBit == 0)
            && (!a.partitioned ==> d.size == |a.data|)
  {
    hide Coin, Delay, Corruption;
  }

  lemma CoinIsExact(src: Source, rate: Option<real>, i: nat)
    ensures var (hit, j) := Coin(src, rate, i);
            && (hit <==> rate.Some? && Meets(src(i), rate.value))
            && j == i + if rate.Some? then 1 else 0
  {
    if rate.Some? {
      TrialIsExact(src(i), rate.value);
    }
  }

  /** Loss, if configured, costs a unit one word of its stream, and that word decides. */
  lemma LossIsExact(src: Sources, pos: Positions, a: Admission)
    requires src.Fair() && a.Valid() && !a.partitioned
    ensures var (d, next) := Decide(src, pos, a);
            && (d.dropped <==> a.cfg.loss.Some? && Meets(src.loss(pos.loss), a.cfg.loss.value))
            && next.loss == pos.loss + if a.cfg.loss.Some? then 1 else 0
  {
    hide Coin, Delay, Corruption, Meets;
    CoinIsExact(src.loss, a.cfg.loss, pos.loss);
  }

  /** Duplication likewise. */
  lemma DuplicationIsExact(src: Sources, pos: Positions, a: Admission)
    requires src.Fair() && a.Valid() && !a.partitioned
    ensures var (d, next) := Decide(src, pos, a);
            && (d.duplicated <==> a.cfg.duplicate.Some? && Meets(src.duplicate(pos.duplicate), a.cfg.duplicate.value))
            && next.duplicate == pos.duplicate + if a.cfg.duplicate.Some? then 1 else 0
  {
    hide Coin, Delay, Corruption, Meets;
    CoinIsExact(src.duplicate, a.cfg.duplicate, pos.duplicate);
  }

  /** Latency, if configured, costs a unit one bounded draw of the inclusive span, dropped or not. */
  lemma LatencyIsExact(src: Sources, pos: Positions, a: Admission)
    requires src.Fair() && a.Valid() && !a.partitioned
    ensures var (d, next) := Decide(src, pos, a);
            match a.cfg.latency
            case None => d.drawn == 0 && next.latency == pos.latency
            case Some((min, max)) =>
              && min <= d.drawn <= max && pos.latency < next.latency
              && Picks(src.latency(next.latency - 1), max - min + 1, d.drawn - min)
              && Accepts(src.latency(next.latency - 1), max - min + 1)
              && forall k: nat | pos.latency <= k < next.latency - 1 :: !Accepts(src.latency(k), max - min + 1)
  {
    hide Coin, Corruption, Picks, Accepts, Duration;
    if a.cfg.latency.Some? {
      DurationIsExact(src.latency, a.cfg.latency.value.0, a.cfg.latency.value.1, pos.latency);
    }
  }

  /** Corruption, if configured, costs a unit one word, dropped or not; only a unit that is hit, not
      dropped and not empty has a site, which is drawn next: the byte first, then the bit. */
  lemma CorruptionIsExact(src: Sources, pos: Positions, a: Admission) returns (j: nat)
    requires src.Fair() && a.Valid() && !a.partitioned
    ensures var (d, next) := Decide(src, pos, a);
            var toss := if a.cfg.corrupt.Some? then 1 else 0;
            && (d.corrupted <==> a.cfg.corrupt.Some? && Meets(src.corrupt(pos.corrupt), a.cfg.corrupt.value))
            && (if d.corrupted && !d.dropped && a.data != [] then
                  && pos.corrupt + toss < j < next.corrupt && d.corruptByte < |a.data| && d.corruptBit < 8
                  && Picks(src.corrupt(j - 1), |a.data|, d.corruptByte) && Accepts(src.corrupt(j - 1), |a.data|)
                  && Picks(src.corrupt(next.corrupt - 1), 8, d.corruptBit) && Accepts(src.corrupt(next.corrupt - 1), 8)
                  && (forall m: nat | pos.corrupt + toss <= m < j - 1 :: !Accepts(src.corrupt(m), |a.data|))
                  && (forall m: nat | j <= m < next.corrupt - 1 :: !Accepts(src.corrupt(m), 8))
                else d.corruptByte == 0 && d.corruptBit == 0 && next.corrupt == pos.corrupt + toss)
  {
    hide Coin, Delay, Picks, Accepts, Site, Meets;
    CoinIsExact(src.corrupt, a.cfg.corrupt, pos.corrupt);
    var (d, next) := Decide(src, pos, a);
    j := 0;
    if d.corrupted && !d.dropped && a.data != [] {
      j := SiteIsExact(src.corrupt, |a.data|, Coin(src.corrupt, a.cfg.corrupt, pos.corrupt).1);
    }
  }

  // ---- Every unit of a run ----

  /** How many words of loss's stream, and of duplication's, the writes have taken. */
  function LossWords(admitted: seq<Admission>): nat {
    if admitted == [] then 0
    else
      var a := admitted[|admitted| - 1];
      LossWords(admitted[..|admitted| - 1]) + if !a.partitioned && a.cfg.loss.Some? then 1 else 0
  }

  function DuplicateWords(admitted: seq<Admission>): nat {
    if admitted == [] then 0
    else
      var a := admitted[|admitted| - 1];
      DuplicateWords(admitted[..|admitted| - 1]) + if !a.partitioned && a.cfg.duplicate.Some? then 1 else 0
  }

  lemma {:induction false} WordsAreCounted(src: Sources, admitted: seq<Admission>)
    requires src.Fair() && AllValid(admitted)
    ensures DecideAll(src, admitted).1.loss == LossWords(admitted)
    ensures DecideAll(src, admitted).1.duplicate == DuplicateWords(admitted)
  {
    hide Decide, Meets;
    if admitted == [] {
    } else {
      var n := |admitted| - 1;
      WordsAreCounted(src, admitted[..n]);
      var pos := DecideAll(src, admitted[..n]).1;
      PartitionIsExact(src, pos, admitted[n]);
      if !admitted[n].partitioned {
        LossIsExact(src, pos, admitted[n]);
        DuplicationIsExact(src, pos, admitted[n]);
      }
    }
  }

  lemma {:induction false} DecidedInTurn(src: Sources, admitted: seq<Admission>, i: nat)
    requires src.Fair() && AllValid(admitted) && i < |admitted|
    ensures DecideAll(src, admitted).0[i] == Decide(src, DecideAll(src, admitted[..i]).1, admitted[i]).0
    decreases |admitted|
  {
    hide Decide;
    var n := |admitted| - 1;
    if i == n {
    } else {
      DecidedInTurn(src, admitted[..n], i);
      assert admitted[..n][..i] == admitted[..i];
    }
  }

  /** What the words decide about the write in place i. */
  ghost predicate DecidedByWords(src: Sources, admitted: seq<Admission>, i: nat, d: Draw)
    requires i < |admitted|
  {
    var a := admitted[i];
    && (d.partitioned <==> a.partitioned)
    && (d.dropped <==>
          !a.partitioned && a.cfg.loss.Some? && Meets(src.loss(LossWords(admitted[..i])), a.cfg.loss.value))
    && (d.duplicated <==>
          && !a.partitioned && a.cfg.duplicate.Some?
          && Meets(src.duplicate(DuplicateWords(admitted[..i])), a.cfg.duplicate.value))
    && (a.cfg.latency.None? ==> d.drawn == 0)
    && (a.cfg.latency.Some? && !a.partitioned ==> a.cfg.latency.value.0 <= d.drawn <= a.cfg.latency.value.1)
    && (a.cfg.corrupt.None? || a.partitioned ==> !d.corrupted)
    && d.size == if a.partitioned then 0 else |a.data|
  }

  lemma UnitIsDecidedByWords(src: Sources, admitted: seq<Admission>, i: nat)
    requires src.Fair() && AllValid(admitted) && i < |admitted|
    ensures DecidedByWords(src, admitted, i, DecideAll(src, admitted).0[i])
  {
    hide Decide, Meets, LossWords, DuplicateWords, Picks, Accepts, DecideAll;
    DecidedInTurn(src, admitted, i);
    WordsAreCounted(src, admitted[..i]);
    var pos := DecideAll(src, admitted[..i]).1;
    PartitionIsExact(src, pos, admitted[i]);
    if !admitted[i].partitioned {
      LossIsExact(src, pos, admitted[i]);
      DuplicationIsExact(src, pos, admitted[i]);
      LatencyIsExact(src, pos, admitted[i]);
      var j := CorruptionIsExact(src, pos, admitted[i]);
    }
  }

  /** In every run each accepted write is partitioned exactly when its pair was, dropped and duplicated
      exactly when the next unused word of that fault's own stream says so, and recorded with its size. */
  lemma RunIsDecidedByWords(src: Sources, bound: int, tracing: bool, ops: seq<Op>, i: nat)
    requires src.Fair() && Valid(ops) && i < |AcceptedBy(src, Fresh(bound, tracing), ops)|
    ensures var admitted := AcceptedBy(src, Fresh(bound, tracing), ops);
            var s := After(src, Fresh(bound, tracing), ops);
            |s.history| == |admitted| && DecidedByWords(src, admitted, i, s.history[i].e.draw)
  {
    hide After, AcceptedBy, DecideAll, DecidedByWords;
    var start := Fresh(bound, tracing);
    var admitted := AcceptedBy(src, start, ops);
    RunIsObserved(src, start, ops);
    RunDetermined(src, bound, tracing, ops);
    assert AdmissionsOf(start.history) == [];
    assert AdmissionsOf(After(src, start, ops).history) == admitted;
    UnitIsDecidedByWords(src, admitted, i);
  }
}
