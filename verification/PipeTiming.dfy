/** When delayed units are released. */
module PipeTiming {
  import opened Words
  import opened Faults
  import opened PipeSpec
  import opened PipeInvariant

  // ---- Clamping against the queue's tail is a running maximum ----

  /** A surviving unit that went through the release queue. */
  predicate Queued(u: Unit) {
    u.e.draw.Survives() && u.a.cfg.Delays()
  }

  /** The instant the unit finished transmitting, as its event records it. */
  function BaseOf(u: Unit): int { u.a.at + u.e.serialized }

  /** The instant the unit was to be released, as its event records it. */
  function ReleaseOf(u: Unit): int { BaseOf(u) + u.e.effective }

  /** The latest base plus drawn delay of any queued unit; 0 without one. */
  function Peak(units: seq<Unit>): int {
    if units == [] then 0
    else
      var n := |units| - 1;
      if Queued(units[n]) then Later(Peak(units[..n]), BaseOf(units[n]) + units[n].e.draw.drawn)
      else Peak(units[..n])
  }

  /** Every queued unit was scheduled at the running maximum, and never before its own draw. */
  ghost predicate Clamped(units: seq<Unit>) {
    forall i | 0 <= i < |units| && Queued(units[i]) ::
      ReleaseOf(units[i]) == Peak(units[..i + 1]) && 0 <= units[i].e.draw.drawn <= units[i].e.effective
  }

  /** The tail of the schedule stands at the maximum so far. */
  ghost predicate Tailed(units: seq<Unit>) {
    var plan := Schedule(units);
    if plan == [] then Peak(units) == 0 else plan[|plan| - 1].releaseAt == Peak(units)
  }

  lemma PeakAppends(units: seq<Unit>, u: Unit)
    ensures Peak(units + [u])
         == if Queued(u) then Later(Peak(units), BaseOf(u) + u.e.draw.drawn) else Peak(units)
  {
    assert (units + [u])[..|units|] == units;
  }

  lemma ClampedAppends(units: seq<Unit>, u: Unit)
    requires Clamped(units)
    requires Queued(u) ==> ReleaseOf(u) == Peak(units + [u]) && 0 <= u.e.draw.drawn <= u.e.effective
    ensures Clamped(units + [u])
  {
    hide Peak;
    var all := units + [u];
    forall i | 0 <= i < |all| && Queued(all[i])
      ensures ReleaseOf(all[i]) == Peak(all[..i + 1]) && 0 <= all[i].e.draw.drawn <= all[i].e.effective
    {
      if i < |units| {
        assert all[i] == units[i] && all[..i + 1] == units[..i + 1];
      } else {
        assert all[..i + 1] == all;
      }
    }
  }

  lemma TailedAppends(units: seq<Unit>, u: Unit)
    requires Tailed(units)
    requires Queued(u) ==> ReleaseOf(u) == Peak(units + [u])
    ensures Tailed(units + [u])
  {
    hide Schedule, Peak;
    PeakAppends(units, u);
    ScheduleAppends(units, u);
  }

  /** The instant the evaluator clamps to is the maximum over all history, not just over the queue: what
      has left the queue was due before the unit could finish transmitting. */
  lemma ReleaseIsPeak(s: State, base: int, drawn: int)
    requires OnSchedule(s) && Tailed(s.history) && 0 <= s.clock <= base && 0 <= drawn
    ensures ReleaseAt(s, base, drawn) == Later(Peak(s.history), base + drawn)
  {
    hide Schedule, Peak;
    var plan := Schedule(s.history);
    if s.pending == [] && plan != [] {
      assert plan[|plan| - 1].releaseAt <= s.clock;
    }
  }

  lemma WriteClamps(src: Sources, s: State, a: Admission)
    requires src.Fair() && Inv(s) && Legal(s, Write(a)) && Clamped(s.history) && Tailed(s.history)
    ensures var t := TryWrite(src, s, a).0; Clamped(t.history) && Tailed(t.history)
  {
    hide Clamped, Tailed, Peak, Schedule, LinkDelay, Decide, Copies, Accounted, Armed, Explained, Recorded, Linked;
    var u := s.(clock := a.at);
    if !u.closed && !u.readClosed && Admits(u, |a.data|) {
      var (d, pos) := Decide(src, u.pos, a);
      var v := u.(pos := pos);
      if !d.Survives() || !a.cfg.Delays() {
        RecordClamps(v, Unit(a, FaultEvent(|s.history|, d, 0, 0)));
      } else {
        var base := Base(v, a);
        var releaseAt := ReleaseAt(v, base, d.drawn);
        ReleaseIsPeak(v, base, d.drawn);
        RecordClamps(v, Unit(a, FaultEvent(|s.history|, d, base - a.at, releaseAt - base)));
      }
    }
  }

  lemma RecordClamps(s: State, u: Unit)
    requires Clamped(s.history) && Tailed(s.history)
    requires Queued(u) ==> 0 <= u.e.draw.drawn && ReleaseOf(u) == Later(Peak(s.history), BaseOf(u) + u.e.draw.drawn)
    ensures Clamped(s.history + [u]) && Tailed(s.history + [u])
  {
    hide Clamped, Tailed, Peak;
    PeakAppends(s.history, u);
    ClampedAppends(s.history, u);
    TailedAppends(s.history, u);
  }

  lemma StepClamps(src: Sources, s: State, op: Op)
    requires src.Fair() && Inv(s) && Legal(s, op) && Clamped(s.history) && Tailed(s.history)
    ensures var t := Step(src, s, op); Clamped(t.history) && Tailed(t.history)
  {
    hide Inv, TryWrite, Clamped, Tailed;
    if op.Write? {
      WriteClamps(src, s, op.a);
    }
  }

  /** In every run each delayed unit's recorded release is the running maximum of transmission end plus
      drawn delay, however timer callbacks and reads interleave, and no unit waits less than it drew. */
  lemma {:induction false} ReleaseIsRunningMaximum(src: Sources, bound: int, tracing: bool, ops: seq<Op>)
    requires src.Fair() && Valid(ops) && LegalRun(src, Fresh(bound, tracing), ops)
    ensures var units := After(src, Fresh(bound, tracing), ops).history; Clamped(units) && Tailed(units)
  {
    hide Inv, Step;
    if ops == [] {
    } else {
      var before := ops[..|ops| - 1];
      ReleaseIsRunningMaximum(src, bound, tracing, before);
      RunKeeps(src, bound, tracing, before);
      StepClamps(src, After(src, Fresh(bound, tracing), before), ops[|ops| - 1]);
    }
  }

  // ---- No unit is stranded ----

  /** The event model of timers: nothing observes an instant past the one the live timer is armed for
      before its callback has run. */
  predicate Prompt(s: State, op: Op) {
    s.timer.Some? ==>
      match op
      case Write(a) => a.at <= s.timer.value
      case Fire(at) => at <= s.timer.value
      case _ => true
  }

  ghost predicate PromptRun(src: Sources, s: State, ops: seq<Op>)
    requires src.Fair() && Valid(ops)
  {
    ops == [] || (
      && PromptRun(src, s, ops[..|ops| - 1])
      && Prompt(After(src, s, ops[..|ops| - 1]), ops[|ops| - 1]))
  }

  /** No queued unit is overdue. */
  ghost predicate Timely(s: State) {
    forall i | 0 <= i < |s.pending| :: s.clock <= s.pending[i].releaseAt
  }

  lemma PromptStepTimely(src: Sources, s: State, op: Op)
    requires src.Fair() && Inv(s) && Timely(s) && Legal(s, op) && Prompt(s, op)
    ensures Timely(Step(src, s, op))
    ensures op.Fire? && !s.readClosed ==> forall i | 0 <= i < Due(s.pending, op.at) :: s.pending[i].releaseAt == op.at
  {
    hide Accounted, Explained, OnSchedule, Recorded, Linked, Decide, LinkDelay, Total, Copies, Take;
  }

  /** When callbacks run when they are due, no unit is ever overdue and an unreleased unit always has the
      one live timer ahead of it. */
  lemma {:induction false} NothingIsOverdue(src: Sources, bound: int, tracing: bool, ops: seq<Op>)
    requires src.Fair() && Valid(ops) && LegalRun(src, Fresh(bound, tracing), ops)
    requires PromptRun(src, Fresh(bound, tracing), ops)
    ensures var s := After(src, Fresh(bound, tracing), ops);
            && Timely(s)
            && (s.pending != [] <==> s.timer.Some?)
            && (s.pending != [] ==> s.clock <= s.timer.value == s.pending[0].releaseAt)
  {
    hide Step, Accounted, Explained, OnSchedule, Recorded, Linked;
    RunKeeps(src, bound, tracing, ops);
    if ops == [] {
    } else {
      var before := ops[..|ops| - 1];
      NothingIsOverdue(src, bound, tracing, before);
      RunKeeps(src, bound, tracing, before);
      PromptStepTimely(src, After(src, Fresh(bound, tracing), before), ops[|ops| - 1]);
    }
  }

  /** After any such run, a callback that runs when it is due makes readable the units whose release
      instant this is, all of them and no others: every unit becomes readable exactly at its release. */
  lemma UnitsReleasedOnTime(src: Sources, bound: int, tracing: bool, ops: seq<Op>, at: int)
    requires src.Fair() && Valid(ops) && LegalRun(src, Fresh(bound, tracing), ops)
    requires PromptRun(src, Fresh(bound, tracing), ops)
    requires var s := After(src, Fresh(bound, tracing), ops); Legal(s, Fire(at)) && Prompt(s, Fire(at)) && !s.readClosed
    ensures var s := After(src, Fresh(bound, tracing), ops);
            var t := Step(src, s, Fire(at));
            var k := Due(s.pending, at);
            && t.readable == s.readable + DataOf(s.pending[..k]) && t.pending == s.pending[k..]
            && (forall i | 0 <= i < k :: s.pending[i].releaseAt == at)
            && (forall i | k <= i < |s.pending| :: at < s.pending[i].releaseAt)
  {
    hide After, Inv, Timely, Prompt, PromptRun, LegalRun, Due;
    var s := After(src, Fresh(bound, tracing), ops);
    RunKeeps(src, bound, tracing, ops);
    NothingIsOverdue(src, bound, tracing, ops);
    PromptStepTimely(src, s, Fire(at));
    LaterUnitsAreLater(s, at);
  }

  lemma LaterUnitsAreLater(s: State, at: int)
    requires Inv(s)
    ensures forall i | Due(s.pending, at) <= i < |s.pending| :: at < s.pending[i].releaseAt
  {
    hide Accounted, Explained, OnSchedule, Recorded, Linked;
  }

  /** Once due, a callback leaves nothing due behind: the queue that remains is all later than now. */
  lemma CallbackReleasesAllDue(s: State, now: int)
    requires Inv(s) && s.clock <= now
    ensures var t := Release(s, now);
            && (forall i | 0 <= i < |t.pending| :: now < t.pending[i].releaseAt)
            && (t.timer.Some? ==> now < t.timer.value)
  {
    hide Accounted, Explained, OnSchedule, Recorded, Linked;
    ReleaseKeeps(s, now);
  }

  /** An abort leaves no unit and no timer, for good. */
  lemma {:induction false} AbortStrandsNothing(src: Sources, s: State, ops: seq<Op>)
    requires src.Fair() && Valid(ops) && Lifecycle(s) && s.readClosed
    ensures var t := After(src, s, ops);
            t.readClosed && t.closed && t.pending == [] && t.readable == [] && t.timer == None
            && t.history == s.history && t.out == s.out
  {
    if ops == [] {
    } else {
      AbortStrandsNothing(src, s, ops[..|ops| - 1]);
    }
  }
}
