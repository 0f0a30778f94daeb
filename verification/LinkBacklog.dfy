/** The serialization clock of a throttled direction over a whole history of writes. */
module LinkBacklog {
  import opened Words
  import opened Faults
  import opened PipeSpec
  import opened PipeInvariant
  import opened PipeRuns
  import Bandwidth

  /** A unit that occupied the link: dropped and partitioned ones do not, a duplicate copy costs nothing. */
  predicate Transmits(u: Unit) {
    u.e.draw.Survives() && u.a.cfg.bandwidth.Some?
  }

  /** Total transmission time of the units from j on. */
  ghost function Load(units: seq<Unit>, j: nat): (d: int)
    requires WellFormed(units) && j <= |units|
    ensures 0 <= d
    decreases |units|
  {
    if j == |units| then 0
    else
      var u := units[|units| - 1];
      Load(units[..|units| - 1], j) + if Transmits(u) then LinkDelay(u.a) else 0
  }

  /** Total size of the units from j on that occupied the link, and how many there are. */
  ghost function Sent(units: seq<Unit>, j: nat): (r: (int, int))
    requires j <= |units|
    decreases |units|
  {
    if j == |units| then (0, 0)
    else
      var u := units[|units| - 1];
      var (bytes, count) := Sent(units[..|units| - 1], j);
      if Transmits(u) then (bytes + |u.a.data|, count + 1) else (bytes, count)
  }

  /** The link never finishes before any unit's own write time plus everything sent from it on. */
  lemma {:induction false} LinkCoversBacklog(units: seq<Unit>, j: nat)
    requires WellFormed(units) && j < |units| && Transmits(units[j])
    ensures Later(units[j].a.at, LinkClock(units[..j])) + Load(units, j) <= LinkClock(units)
    decreases |units|
  {
    hide LinkDelay;
    var n := |units| - 1;
    if j < n {
      LinkCoversBacklog(units[..n], j);
      assert units[..n][..j] == units[..j];
    } else {
      assert Load(units[..n], j) == 0;
    }
  }

  /** And it finishes exactly then for one of them: the one that found the link idle. */
  lemma {:induction false} LinkIsSomeBacklog(units: seq<Unit>) returns (j: nat)
    requires WellFormed(units)
    ensures j <= |units|
    ensures j < |units| ==> Transmits(units[j]) && LinkClock(units) == units[j].a.at + Load(units, j)
    ensures j == |units| ==> LinkClock(units) == 0 && forall i | 0 <= i < |units| :: !Transmits(units[i])
    decreases |units|
  {
    hide LinkDelay;
    if units == [] {
      return 0;
    }
    var n := |units| - 1;
    var u := units[n];
    j := LinkIsSomeBacklog(units[..n]);
    assert u.a.Valid();
    if j == n {
      assert forall i | 0 <= i < n :: !Transmits(units[..n][i]);
      assert Load(units[..n], n) == 0;
      if !Transmits(u) {
        j := |units|;
      }
    } else if Transmits(u) && LinkClock(units[..n]) <= u.a.at {
      assert Load(units[..n], n) == 0;
      j := n;
    }
  }

  /** The link clock after any history is the largest, over the units that occupied the link, of the
      write time plus all transmission times from that unit on. */
  lemma LinkClockClosedForm(units: seq<Unit>)
    requires WellFormed(units)
    ensures forall j | 0 <= j < |units| && Transmits(units[j]) :: units[j].a.at + Load(units, j) <= LinkClock(units)
    ensures (exists j :: 0 <= j < |units| && Transmits(units[j]) && LinkClock(units) == units[j].a.at + Load(units, j))
         || (LinkClock(units) == 0 && forall i | 0 <= i < |units| :: !Transmits(units[i]))
  {
    hide LinkDelay, LinkClock, Load;
    forall j | 0 <= j < |units| && Transmits(units[j])
      ensures units[j].a.at + Load(units, j) <= LinkClock(units)
    {
      LinkCoversBacklog(units, j);
    }
    var j := LinkIsSomeBacklog(units);
  }

  /** The settings a unit of a run was throttled by, when no delay hit the clamp. */
  ghost predicate Throttled(units: seq<Unit>, rate: int)
    requires WellFormed(units)
  {
    forall i | 0 <= i < |units| && Transmits(units[i]) ::
      units[i].a.cfg.bandwidth == Some(rate) && LinkDelay(units[i].a) < MAX_INT
  }

  lemma {:induction false} LoadCoversBytes(units: seq<Unit>, j: nat, rate: int)
    requires WellFormed(units) && j <= |units| && Throttled(units, rate)
    ensures var (bytes, count) := Sent(units, j);
            && 0 <= count
            && bytes * Bandwidth.SECOND <= rate * (Load(units, j) + count)
            && (0 < count ==> bytes * Bandwidth.SECOND < rate * (Load(units, j) + count))
    decreases |units|
  {
    hide LinkDelay;
    if j == |units| {
    } else {
      var n := |units| - 1;
      var u := units[n];
      assert u.a.Valid();
      forall i | 0 <= i < n && Transmits(units[..n][i])
        ensures units[..n][i].a.cfg.bandwidth == Some(rate) && LinkDelay(units[..n][i].a) < MAX_INT
      {
        assert units[..n][i] == units[i];
      }
      LoadCoversBytes(units[..n], j, rate);
      var (bytes, count) := Sent(units[..n], j);
      var load := Load(units[..n], j);
      if Transmits(u) {
        OneUnitCovered(u.a, rate);
        Spread(rate, load + count, LinkDelay(u.a) + 1);
      }
    }
  }

  lemma OneUnitCovered(a: Admission, rate: int)
    requires a.Valid() && a.cfg.bandwidth == Some(rate) && LinkDelay(a) < MAX_INT
    ensures |a.data| * Bandwidth.SECOND < rate * (LinkDelay(a) + 1)
  {
    Bandwidth.DelayCoversUnit(|a.data|, rate);
    Spread(rate, LinkDelay(a), 1);
  }

  lemma Spread(r: int, x: int, y: int)
    ensures r * (x + y) == r * x + r * y
  {}

  /** Consecutive units move no more than the rate allows: from the instant the link turned to unit j to
      the instant it was done with the last, plus less than a nanosecond a unit. */
  lemma RateBound(units: seq<Unit>, j: nat, rate: int)
    requires WellFormed(units) && Throttled(units, rate)
    requires j < |units| && Transmits(units[j])
    ensures var (bytes, count) := Sent(units, j);
            var elapsed := LinkClock(units) - Later(units[j].a.at, LinkClock(units[..j]));
            bytes * Bandwidth.SECOND < rate * (elapsed + count)
  {
    hide LinkDelay, LinkClock, Load;
    assert units[j].a.Valid();
    LinkCoversBacklog(units, j);
    LoadCoversBytes(units, j, rate);
    SentSomething(units, j);
    var (bytes, count) := Sent(units, j);
    var elapsed := LinkClock(units) - Later(units[j].a.at, LinkClock(units[..j]));
    MulMonotone(Load(units, j) + count, elapsed + count, rate);
  }

  lemma {:induction false} SentSomething(units: seq<Unit>, j: nat)
    requires j < |units| && Transmits(units[j])
    ensures 0 < Sent(units, j).1
    decreases |units|
  {
    var n := |units| - 1;
    if j < n {
      SentSomething(units[..n], j);
    } else {
      SentIsCount(units[..n], j);
    }
  }

  lemma SentIsCount(units: seq<Unit>, j: nat)
    requires j <= |units|
    ensures 0 <= Sent(units, j).1
  {
    if j == |units| {
    } else {
      SentIsCount(units[..|units| - 1], j);
    }
  }

  /** The throttle is fixed at construction, so all units of a run were evaluated under one rate. */
  ghost predicate OneRate(units: seq<Unit>) {
    forall i | 0 <= i < |units| :: units[i].a.cfg.bandwidth == units[|units| - 1].a.cfg.bandwidth
  }

  lemma StepKeepsRate(src: Sources, s: State, op: Op)
    requires src.Fair() && Legal(s, op) && OneRate(s.history)
    ensures OneRate(Step(src, s, op).history)
  {
    hide Step, TryWrite;
    var t := Step(src, s, op);
    StepIsObserved(src, s, op);
    assert forall i | 0 <= i < |t.history| :: t.history[i].a == AdmissionsOf(t.history)[i];
  }

  /** busyUntil in every reachable state is the closed form over the recorded history, at one rate. */
  lemma {:induction false} BusyUntilIsBacklog(src: Sources, bound: int, tracing: bool, ops: seq<Op>)
    requires src.Fair() && Valid(ops) && LegalRun(src, Fresh(bound, tracing), ops)
    ensures var s := After(src, Fresh(bound, tracing), ops);
            && OneRate(s.history)
            && WellFormed(s.history)
            && (forall j | 0 <= j < |s.history| && Transmits(s.history[j]) ::
                  s.history[j].a.at + Load(s.history, j) <= s.busyUntil)
            && ((exists j :: 0 <= j < |s.history| && Transmits(s.history[j])
                   && s.busyUntil == s.history[j].a.at + Load(s.history, j))
                || (s.busyUntil == 0 && forall i | 0 <= i < |s.history| :: !Transmits(s.history[i])))
  {
    hide Step, Accounted, Armed, Explained, OnSchedule, Recorded, LinkClock, Load, LinkDelay;
    var s := After(src, Fresh(bound, tracing), ops);
    RunKeeps(src, bound, tracing, ops);
    LinkClockClosedForm(s.history);
    if ops == [] {
    } else {
      var before := ops[..|ops| - 1];
      BusyUntilIsBacklog(src, bound, tracing, before);
      StepKeepsRate(src, After(src, Fresh(bound, tracing), before), ops[|ops| - 1]);
    }
  }
}
