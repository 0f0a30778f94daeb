/** When bytes arrive, in terms of the settings, of what was drawn and of the instants of the writes. */
module Arrival {
  import opened Words
  import opened Faults
  import opened PipeSpec
  import opened PipeInvariant
  import opened PipeRuns
  import opened PipeTiming
  import opened Delivery
  import Bandwidth

  /** Latency or a throttle is configured. */
  predicate HoldsBack(cfg: FaultConfig) { cfg.latency.Some? || cfg.bandwidth.Some? }

  // ---- One accepted write ----

  /** The release queue grew by the copies of the unit, none to be released before what was drawn for it
      has passed since the write. */
  predicate Queues(u: Unit, before: seq<Delayed>, after: seq<Delayed>) {
    && |after| == |before| + Arrivals(u) && after[..|before|] == before
    && forall i | |before| <= i < |after| ::
         && Carries(u, after[i].data)
         && u.a.at + u.e.draw.drawn <= after[i].releaseAt == u.a.at + u.e.serialized + u.e.effective
  }

  /** The reader's queue grew by the copies of the unit. */
  predicate HandsOver(u: Unit, before: seq<Bytes>, after: seq<Bytes>) {
    && |after| == |before| + Arrivals(u) && after[..|before|] == before
    && forall i | |before| <= i < |after| :: Carries(u, after[i])
  }

  lemma EnqueueQueues(s: State, a: Admission, d: Draw, base: int)
    requires d.Survives() && a.at <= base
    requires Sited(Unit(a, FaultEvent(|s.history|, d, base - a.at, ReleaseAt(s, base, d.drawn) - base)))
    ensures Queues(Unit(a, FaultEvent(|s.history|, d, base - a.at, ReleaseAt(s, base, d.drawn) - base)),
                   s.pending, Enqueue(s, a, d, base).pending)
  {
    hide Copies, Carries, Sited, Flat, ReleaseAt, Total, Queues;
    var releaseAt := ReleaseAt(s, base, d.drawn);
    var u := Unit(a, FaultEvent(|s.history|, d, base - a.at, releaseAt - base));
    CopiesArrive(u);
    NeverBeforeTheDraw(s, base, d.drawn);
    HeldQueues(u, s.pending, Copies(a.data, d), releaseAt);
  }

  lemma NeverBeforeTheDraw(s: State, base: int, drawn: int)
    ensures base + drawn <= ReleaseAt(s, base, drawn)
  {}

  lemma HeldQueues(u: Unit, before: seq<Delayed>, copies: seq<Bytes>, releaseAt: int)
    requires |copies| == Arrivals(u) && forall c | c in copies :: Carries(u, c)
    requires u.a.at + u.e.draw.drawn <= releaseAt == u.a.at + u.e.serialized + u.e.effective
    ensures Queues(u, before, before + Held(copies, releaseAt))
  {
    hide Carries, Arrivals;
    var after := before + Held(copies, releaseAt);
    forall i | |before| <= i < |after|
      ensures Carries(u, after[i].data) && after[i].releaseAt == releaseAt
    {
      assert after[i] == Held(copies, releaseAt)[i - |before|];
      assert copies[i - |before|] in copies;
    }
  }

  lemma HandOverHandsOver(s: State, a: Admission, d: Draw)
    requires d.Survives() && Sited(Unit(a, FaultEvent(|s.history|, d, 0, 0)))
    ensures HandsOver(Unit(a, FaultEvent(|s.history|, d, 0, 0)), s.readable, HandOver(s, a, d).readable)
  {
    hide Copies, Carries, Sited, Flat;
    CopiesArrive(Unit(a, FaultEvent(|s.history|, d, 0, 0)));
    var copies := Copies(a.data, d);
    assert forall i | 0 <= i < |copies| :: copies[i] in copies;
  }

  /** What an accepted write does to the two queues: a unit that is lost goes nowhere, one under latency or
      a throttle is held back, and any other is there for the reader at once. */
  lemma AcceptedWriteTakesEffect(src: Sources, s: State, a: Admission)
    requires src.Fair() && a.Valid() && TryWrite(src, s, a).1.Accepted?
    ensures var t := TryWrite(src, s, a).0;
            && |t.history| == |s.history| + 1 && t.history[..|s.history|] == s.history
            && var u := t.history[|s.history|];
               && u.a == a
               && (if Arrivals(u) == 0 then t.readable == s.readable && t.pending == s.pending
                   else if HoldsBack(a.cfg) then t.readable == s.readable && Queues(u, s.pending, t.pending)
                   else t.pending == s.pending && HandsOver(u, s.readable, t.readable))
  {
    hide Decide, Queues, HandsOver, Base, ReleaseAt, Copies;
    var v := s.(clock := a.at, pos := Decide(src, s.pos, a).1);
    var d := Decide(src, s.pos, a).0;
    if d.Survives() {
      if HoldsBack(a.cfg) {
        EnqueueQueues(v, a, d, Base(v, a));
      } else {
        HandOverHandsOver(v, a, d);
      }
    }
  }

  // ---- The recorded times ----

  /** When the link was free again after the units: the end of the last transmission, as recorded. */
  function LinkFree(units: seq<Unit>): int {
    if units == [] then 0
    else
      var u := units[|units| - 1];
      if 0 < Arrivals(u) && u.a.cfg.bandwidth.Some? then u.a.at + u.e.serialized
      else LinkFree(units[..|units| - 1])
  }

  /** How long the bytes take at the rate, in whole nanoseconds, up to the longest duration. */
  function TransmissionTime(size: nat, rate: int): int
    requires 0 < rate
  {
    var exact := size * 1_000_000_000 / rate;
    if exact <= 0x7FFF_FFFF_FFFF_FFFF then exact else 0x7FFF_FFFF_FFFF_FFFF
  }

  /** A throttled unit that is not lost waits for the link and then for its own transmission; no other has
      a serialization time. A unit that is lost, or not held back, has no delay at all. */
  predicate TimedExactly(u: Unit, linkFree: int) {
    && (0 < Arrivals(u) && u.a.cfg.bandwidth.Some? ==>
          && 0 < u.a.cfg.bandwidth.value
          && u.a.at + u.e.serialized
             == Later(u.a.at, linkFree) + TransmissionTime(|u.a.data|, u.a.cfg.bandwidth.value))
    && (Arrivals(u) == 0 || u.a.cfg.bandwidth.None? ==> u.e.serialized == 0)
    && (Arrivals(u) == 0 || !HoldsBack(u.a.cfg) ==> u.e.effective == 0)
    && 0 <= u.e.serialized
  }

  ghost predicate AllTimedExactly(units: seq<Unit>) {
    forall i | 0 <= i < |units| :: TimedExactly(units[i], LinkFree(units[..i]))
  }

  lemma LinkDelayIsExact(a: Admission)
    requires a.Valid() && a.cfg.bandwidth.Some?
    ensures LinkDelay(a) == TransmissionTime(|a.data|, a.cfg.bandwidth.value)
  {
    Bandwidth.DelayIsExact(|a.data|, a.cfg.bandwidth.value);
  }

  lemma TimesAppend(units: seq<Unit>, u: Unit)
    requires AllTimedExactly(units) && TimedExactly(u, LinkFree(units))
    ensures AllTimedExactly(units + [u])
    ensures LinkFree(units + [u])
         == if 0 < Arrivals(u) && u.a.cfg.bandwidth.Some? then u.a.at + u.e.serialized else LinkFree(units)
  {
    hide TimedExactly;
    var all := units + [u];
    assert all[..|units|] == units;
    forall i | 0 <= i < |all|
      ensures TimedExactly(all[i], LinkFree(all[..i]))
    {
      if i < |units| {
        assert all[i] == units[i] && all[..i] == units[..i];
      }
    }
  }

  lemma WriteIsTimed(src: Sources, s: State, a: Admission)
    requires src.Fair() && a.Valid() && TryWrite(src, s, a).1.Accepted?
    requires s.busyUntil == LinkFree(s.history) && AllTimedExactly(s.history)
    ensures var t := TryWrite(src, s, a).0; t.busyUntil == LinkFree(t.history) && AllTimedExactly(t.history)
  {
    hide Decide, LinkFree, AllTimedExactly, LinkDelay, ReleaseAt, Copies, TransmissionTime;
    var (d, pos) := Decide(src, s.pos, a);
    var v := s.(clock := a.at, pos := pos);
    if a.cfg.bandwidth.Some? {
      LinkDelayIsExact(a);
    }
    if d.Survives() && HoldsBack(a.cfg) {
      var base := Base(v, a);
      TimesAppend(s.history, Unit(a, FaultEvent(|s.history|, d, base - a.at, ReleaseAt(v, base, d.drawn) - base)));
    } else {
      TimesAppend(s.history, Unit(a, FaultEvent(|s.history|, d, 0, 0)));
    }
  }

  lemma StepIsTimed(src: Sources, s: State, op: Op)
    requires src.Fair() && (op.Write? ==> op.a.Valid())
    requires s.busyUntil == LinkFree(s.history) && AllTimedExactly(s.history)
    ensures var t := Step(src, s, op); t.busyUntil == LinkFree(t.history) && AllTimedExactly(t.history)
  {
    hide LinkFree, AllTimedExactly, Deliver, Take, Due;
    if op.Write? && TryWrite(src, s, op.a).1.Accepted? {
      hide TryWrite;
      WriteIsTimed(src, s, op.a);
    }
  }

  /** In every run the recorded serialization time of each unit is exactly the wait for the link and its
      own transmission at the configured rate, and 0 without a throttle. */
  lemma {:induction false} RunIsTimedExactly(src: Sources, bound: int, tracing: bool, ops: seq<Op>)
    requires src.Fair() && Valid(ops)
    ensures var s := After(src, Fresh(bound, tracing), ops);
            s.busyUntil == LinkFree(s.history) && AllTimedExactly(s.history)
  {
    hide Step, AllTimedExactly;
    if ops == [] {
      NothingIsTimed();
    } else {
      var before := ops[..|ops| - 1];
      RunIsTimedExactly(src, bound, tracing, before);
      StepIsTimed(src, After(src, Fresh(bound, tracing), before), ops[|ops| - 1]);
    }
  }

  lemma NothingIsTimed()
    ensures AllTimedExactly([])
  {}

  // ---- Nothing arrives early ----

  ghost predicate Growing(units: seq<Unit>) {
    forall i, j | 0 <= i < j < |units| :: units[i].a.cfg.GrowsInto(units[j].a.cfg)
  }

  lemma GrowingAppends(units: seq<Unit>, u: Unit)
    requires Growing(units) && (units != [] ==> units[|units| - 1].a.cfg.GrowsInto(u.a.cfg))
    ensures Growing(units + [u])
  {
    var all := units + [u];
    forall i, j | 0 <= i < j < |all|
      ensures all[i].a.cfg.GrowsInto(all[j].a.cfg)
    {
      if i < j - 1 && j == |units| {
        assert units[i].a.cfg.GrowsInto(units[j - 1].a.cfg);
      }
    }
  }

  lemma {:induction false} RunIsGrowing(src: Sources, bound: int, tracing: bool, ops: seq<Op>)
    requires src.Fair() && Valid(ops) && LegalRun(src, Fresh(bound, tracing), ops)
    ensures Growing(After(src, Fresh(bound, tracing), ops).history)
  {
    hide Step, TryWrite;
    if ops == [] {
    } else {
      var before, op := ops[..|ops| - 1], ops[|ops| - 1];
      var s := After(src, Fresh(bound, tracing), before);
      RunIsGrowing(src, bound, tracing, before);
      HistoryGrowsByTheWrite(src, s, op);
      var t := Step(src, s, op);
      if t.history != s.history {
        GrowingAppends(s.history, t.history[|s.history|]);
        assert t.history == s.history + [t.history[|s.history|]];
      }
    }
  }

  lemma HistoryGrowsByTheWrite(src: Sources, s: State, op: Op)
    requires src.Fair() && (op.Write? ==> op.a.Valid())
    ensures var t := Step(src, s, op);
            || t.history == s.history
            || (op.Write? && |t.history| == |s.history| + 1 && t.history[..|s.history|] == s.history
                && t.history[|s.history|].a == op.a)
  {
    hide TryWrite, Take, Due, Arrivals;
    if op.Write? {
      RefusedWriteLeavesHistory(src, s, op.a);
      if TryWrite(src, s, op.a).1.Accepted? {
        AcceptedWriteTakesEffect(src, s, op.a);
      }
    }
  }

  lemma RefusedWriteLeavesHistory(src: Sources, s: State, a: Admission)
    requires src.Fair() && a.Valid()
    ensures !TryWrite(src, s, a).1.Accepted? ==> TryWrite(src, s, a).0.history == s.history
  {
    hide Deliver;
  }

  lemma {:induction false} PeakCovers(units: seq<Unit>, i: nat)
    requires i < |units| && Queued(units[i])
    ensures BaseOf(units[i]) + units[i].e.draw.drawn <= Peak(units)
    decreases |units|
  {
    var n := |units| - 1;
    if i == n {
    } else {
      PeakCovers(units[..n], i);
    }
  }

  /** From a unit that is held back on, everything goes through the release queue, and nothing of it is to
      be released before what was drawn for that unit has passed. */
  lemma {:induction false} ScheduleSplits(units: seq<Unit>, i: nat) returns (rest: seq<Delayed>)
    requires Growing(units) && Clamped(units) && AllTimedExactly(units)
    requires i < |units| && HoldsBack(units[i].a.cfg) && 0 < Arrivals(units[i])
    ensures Schedule(units) == Schedule(units[..i]) + rest
    ensures Replay(units) == Replay(units[..i]) + Flat(DataOf(rest))
    ensures forall k | 0 <= k < |rest| :: units[i].a.at + units[i].e.draw.drawn <= rest[k].releaseAt
    decreases |units|
  {
    hide Peak, Clamped, Growing, AllTimedExactly, Copies, Schedule, Replay, Flat, DataOf, Scheduled;
    var n := |units| - 1;
    var u := units[n];
    var before: seq<Delayed> := [];
    if i < n {
      PrefixesAreFine(units, n);
      before := ScheduleSplits(units[..n], i);
      assert units[..n][..i] == units[..i];
    } else {
      NothingToRelease();
    }
    assert units == units[..n] + [u];
    ScheduleAppends(units[..n], u);
    ReplayAppends(units[..n], u);
    LastIsHeldBack(units, i);
    rest := before + Scheduled(u);
    DataOfConcat(before, Scheduled(u));
    FlatConcat(DataOf(before), DataOf(Scheduled(u)));
    assert Replay(units[..i]) + Flat(DataOf(before)) + Flat(DataOf(Scheduled(u)))
        == Replay(units[..i]) + (Flat(DataOf(before)) + Flat(DataOf(Scheduled(u))));
  }

  lemma NothingToRelease()
    ensures Flat(DataOf([])) == []
  {
    assert DataOf([]) == [];
  }

  lemma DataOfConcat(xs: seq<Delayed>, ys: seq<Delayed>)
    ensures DataOf(xs + ys) == DataOf(xs) + DataOf(ys)
  {}

  lemma PrefixesAreFine(units: seq<Unit>, n: nat)
    requires n <= |units|
    ensures Growing(units) ==> Growing(units[..n])
    ensures Clamped(units) ==> Clamped(units[..n])
    ensures AllTimedExactly(units) ==> AllTimedExactly(units[..n])
  {
    hide Peak, LinkFree, TimedExactly, Queued;
    var prefix := units[..n];
    if Clamped(units) {
      forall i | 0 <= i < n && Queued(prefix[i])
        ensures ReleaseOf(prefix[i]) == Peak(prefix[..i + 1]) && 0 <= prefix[i].e.draw.drawn <= prefix[i].e.effective
      {
        assert prefix[..i + 1] == units[..i + 1] && prefix[i] == units[i];
      }
    }
    if AllTimedExactly(units) {
      forall i | 0 <= i < n
        ensures TimedExactly(prefix[i], LinkFree(prefix[..i]))
      {
        assert prefix[..i] == units[..i] && prefix[i] == units[i];
      }
    }
  }

  lemma LastIsHeldBack(units: seq<Unit>, i: nat)
    requires Growing(units) && Clamped(units) && AllTimedExactly(units)
    requires i < |units| && HoldsBack(units[i].a.cfg) && 0 < Arrivals(units[i])
    ensures var u := units[|units| - 1];
            && DataOf(Scheduled(u)) == Copies(u.a.data, u.e.draw)
            && forall k | 0 <= k < |Scheduled(u)| ::
                 units[i].a.at + units[i].e.draw.drawn <= Scheduled(u)[k].releaseAt
  {
    hide Peak, LinkFree, TransmissionTime;
    var n := |units| - 1;
    PeakCovers(units, i);
    assert units[..n + 1] == units;
    assert TimedExactly(units[i], LinkFree(units[..i]));
  }

  lemma CancelTail(x: Bytes, y: Bytes, z: Bytes)
    requires x + z == y + z
    ensures x == y
  {
    assert |x| == |y|;
    assert (x + z)[..|x|] == x && (y + z)[..|y|] == y;
  }

  lemma LateOneIsInRest(plan: seq<Delayed>, rest: seq<Delayed>, k: nat, now: int)
    requires |plan| <= k < |plan| + |rest| && forall k | 0 <= k < |rest| :: now < rest[k].releaseAt
    ensures now < (plan + rest)[k].releaseAt
  {
    assert (plan + rest)[k] == rest[k - |plan|];
  }

  lemma QueueEndsWith(s: State, plan: seq<Delayed>, rest: seq<Delayed>) returns (early: seq<Delayed>)
    requires OnSchedule(s) && Schedule(s.history) == plan + rest
    requires forall k | 0 <= k < |rest| :: s.clock < rest[k].releaseAt
    ensures s.pending == early + rest
  {
    hide Schedule;
    var all := plan + rest;
    var gone := |all| - |s.pending|;
    if |plan| < gone {
      LateOneIsInRest(plan, rest, gone - 1, s.clock);
      assert false;
    }
    early := plan[gone..];
    assert all[gone..] == early + rest;
  }

  lemma UnlessAborted(s: State)
    requires Inv(s) && !s.readClosed
    ensures Explained(s) && OnSchedule(s)
  {}

  lemma NothingIsThereEarly(s: State, i: nat)
    requires Explained(s) && OnSchedule(s) && Growing(s.history) && Clamped(s.history) && AllTimedExactly(s.history)
    requires i < |s.history| && HoldsBack(s.history[i].a.cfg) && 0 < Arrivals(s.history[i])
    requires s.clock < s.history[i].a.at + s.history[i].e.draw.drawn
    ensures s.out + Flat(s.readable) <= Replay(s.history[..i])
  {
    hide Schedule, Replay, Flat, DataOf, Arrivals, Growing, Clamped, AllTimedExactly;
    var rest := ScheduleSplits(s.history, i);
    var early := QueueEndsWith(s, Schedule(s.history[..i]), rest);
    DataOfConcat(early, rest);
    FlatConcat(DataOf(early), DataOf(rest));
    var there := s.out + Flat(s.readable);
    Reassociate(there, Flat(DataOf(early)), Flat(DataOf(rest)));
    CancelTail(there + Flat(DataOf(early)), Replay(s.history[..i]), Flat(DataOf(rest)));
  }

  lemma Reassociate(x: Bytes, y: Bytes, z: Bytes)
    ensures x + (y + z) == x + y + z
  {}

  /** As long as less time has passed since a write under latency or a throttle than was drawn for it, no
      byte of it, nor of any later write, has been read or is there to be read: everything the reader has
      or could have belongs to earlier writes. Callbacks may run at any instant. */
  lemma NothingArrivesEarly(src: Sources, bound: int, tracing: bool, ops: seq<Op>, i: nat) returns (earlier: Bytes)
    requires src.Fair() && Valid(ops) && LegalRun(src, Fresh(bound, tracing), ops)
    requires var s := After(src, Fresh(bound, tracing), ops);
             && !s.readClosed && i < |s.history|
             && var u := s.history[i];
                HoldsBack(u.a.cfg) && 0 < Arrivals(u) && s.clock < u.a.at + u.e.draw.drawn
    ensures var s := After(src, Fresh(bound, tracing), ops);
            && Delivers(s.history[..i], earlier)
            && ReadBy(src, Fresh(bound, tracing), ops) + Flat(s.readable) <= earlier
  {
    hide After, LegalRun, ReadBy, Replay, Flat, Delivers, Sited, Arrivals, Schedule,
         Growing, Clamped, AllTimedExactly, Inv;
    var start := Fresh(bound, tracing);
    var s := After(src, start, ops);
    RunIsObserved(src, start, ops);
    assert s.out == ReadBy(src, start, ops);
    RunKeeps(src, bound, tracing, ops);
    UnlessAborted(s);
    RunIsGrowing(src, bound, tracing, ops);
    RunIsTimedExactly(src, bound, tracing, ops);
    ReleaseIsRunningMaximum(src, bound, tracing, ops);
    RunIsSited(src, bound, tracing, ops);
    earlier := Replay(s.history[..i]);
    ReplayDelivers(s.history[..i]);
    NothingIsThereEarly(s, i);
  }
}
