/** What a caller can see of one direction over a whole run: the writes accepted, the bytes read and the
    trace that explains them. */
module PipeRuns {
  import opened Faults
  import opened PipeSpec
  import opened PipeInvariant

  // ---- The observable run ----

  /** The writes the run accepted, in order. */
  ghost function AcceptedBy(src: Sources, s: State, ops: seq<Op>): seq<Admission>
    requires src.Fair() && Valid(ops)
  {
    if ops == [] then []
    else
      var before, op := After(src, s, ops[..|ops| - 1]), ops[|ops| - 1];
      AcceptedBy(src, s, ops[..|ops| - 1])
      + if op.Write? && TryWrite(src, before, op.a).1.Accepted? then [op.a] else []
  }

  /** The bytes the run's reads returned, in order. */
  ghost function ReadBy(src: Sources, s: State, ops: seq<Op>): Bytes
    requires src.Fair() && Valid(ops)
  {
    if ops == [] then []
    else
      var before, op := After(src, s, ops[..|ops| - 1]), ops[|ops| - 1];
      ReadBy(src, s, ops[..|ops| - 1]) + Returned(before, op)
  }

  ghost function Returned(s: State, op: Op): Bytes {
    if op.Read? && TryRead(s, op.len, op.partitioned).1.Got? then TryRead(s, op.len, op.partitioned).1.bytes else []
  }

  function AdmissionsOf(units: seq<Unit>): (a: seq<Admission>)
    ensures |a| == |units|
    ensures forall i | 0 <= i < |units| :: a[i] == units[i].a
  {
    seq(|units|, i requires 0 <= i < |units| => units[i].a)
  }

  lemma StepIsObserved(src: Sources, s: State, op: Op)
    requires src.Fair() && (op.Write? ==> op.a.Valid())
    ensures var t := Step(src, s, op);
            && t.out == s.out + Returned(s, op)
            && AdmissionsOf(t.history)
               == AdmissionsOf(s.history) + if op.Write? && TryWrite(src, s, op.a).1.Accepted? then [op.a] else []
  {
    hide Deliver, Take, Due;
    if op.Write? && TryWrite(src, s, op.a).1.Accepted? {
      DeliveryIsRecorded(src, s.(clock := op.a.at), op.a);
    }
  }

  lemma DeliveryIsRecorded(src: Sources, s: State, a: Admission)
    requires src.Fair() && a.Valid()
    ensures var t := Deliver(src, s, a); t.out == s.out && AdmissionsOf(t.history) == AdmissionsOf(s.history) + [a]
  {
    hide LinkDelay, Base, Decide, Copies, Total, Held, ReleaseAt;
  }

  lemma StepKeepsFixtures(src: Sources, s: State, op: Op)
    requires src.Fair() && (op.Write? ==> op.a.Valid())
    ensures Step(src, s, op).bound == s.bound && Step(src, s, op).trace.Some? == s.trace.Some?
  {
    hide LinkDelay, Base, Decide, Copies, Total, Take, Due, ReleaseAt;
  }

  lemma {:induction false} RunIsObserved(src: Sources, s: State, ops: seq<Op>)
    requires src.Fair() && Valid(ops)
    ensures var t := After(src, s, ops);
            && t.out == s.out + ReadBy(src, s, ops)
            && AdmissionsOf(t.history) == AdmissionsOf(s.history) + AcceptedBy(src, s, ops)
            && t.bound == s.bound && t.trace.Some? == s.trace.Some?
  {
    hide Step, TryWrite, TryRead, Returned;
    if ops == [] {
    } else {
      var before := ops[..|ops| - 1];
      RunIsObserved(src, s, before);
      StepIsObserved(src, After(src, s, before), ops[|ops| - 1]);
      StepKeepsFixtures(src, After(src, s, before), ops[|ops| - 1]);
    }
  }

  // ---- The trace explains the bytes ----

  /** In every reachable state of a pipe that was not aborted, the bytes read so far, the readable ones
      and the delayed ones together are the accepted payloads replayed through the recorded events, in
      write order; there is one event per accepted write, numbered by its position. */
  lemma TraceExplainsBytes(src: Sources, bound: int, tracing: bool, ops: seq<Op>)
    requires src.Fair() && Valid(ops) && LegalRun(src, Fresh(bound, tracing), ops)
    ensures var start := Fresh(bound, tracing);
            var s := After(src, start, ops);
            && AdmissionsOf(s.history) == AcceptedBy(src, start, ops)
            && (forall i | 0 <= i < |s.history| :: s.history[i].e.sequence == i)
            && s.trace == (if tracing then Some(EventsOf(s.history)) else None)
            && (!s.readClosed ==>
                  ReadBy(src, start, ops) + Flat(s.readable) + Flat(DataOf(s.pending)) == Replay(s.history))
  {
    hide Step, After, LegalRun, AcceptedBy, ReadBy, Replay, Flat, Armed, Accounted, Linked, OnSchedule;
    var start := Fresh(bound, tracing);
    RunKeeps(src, bound, tracing, ops);
    RunIsObserved(src, start, ops);
    assert AdmissionsOf(start.history) == [];
  }

  /** Even after an abort, what was read is a prefix of what the trace explains. */
  lemma {:induction false} ReadBytesAreExplained(src: Sources, bound: int, tracing: bool, ops: seq<Op>)
    requires src.Fair() && Valid(ops) && LegalRun(src, Fresh(bound, tracing), ops)
    ensures var s := After(src, Fresh(bound, tracing), ops); s.out <= Replay(s.history)
  {
    hide Step, Flat, Inv;
    var start := Fresh(bound, tracing);
    var s := After(src, start, ops);
    RunKeeps(src, bound, tracing, ops);
    if !s.readClosed {
      assert Explained(s) by { ExplainedUnlessAborted(s); }
    } else {
      var before := ops[..|ops| - 1];
      ReadBytesAreExplained(src, bound, tracing, before);
      AbortedKeepsBytes(src, After(src, start, before), ops[|ops| - 1]);
    }
  }

  lemma ExplainedUnlessAborted(s: State)
    requires Inv(s) && !s.readClosed
    ensures Explained(s)
  {}

  lemma AbortedKeepsBytes(src: Sources, s: State, op: Op)
    requires src.Fair() && (op.Write? ==> op.a.Valid()) && Step(src, s, op).readClosed
    ensures Step(src, s, op).out == s.out && Step(src, s, op).history == s.history
  {
    hide LinkDelay, Base, Decide, Copies, Total, Take, Due;
  }

  // ---- The settings and the clock around a pipe ----

  /** The pipe has seen nothing later than the clock and no setting that has not grown into these. */
  ghost predicate Recent(faults: FaultConfig, clock: int, s: State) {
    && s.clock <= clock
    && (s.history != [] ==> s.history[|s.history| - 1].a.cfg.GrowsInto(faults))
  }

  /** What an operation sees is in force now; the settings of a write, which are read a little earlier,
      were in force since the last one. */
  predicate Current(faults: FaultConfig, clock: int, s: State, op: Op) {
    match op
    case Write(a) => a.Valid() && Grows(s, a) && a.cfg.GrowsInto(faults) && a.at == clock
    case Fire(at) => at == clock
    case _ => true
  }

  lemma StepStaysRecent(src: Sources, faults: FaultConfig, clock: int, s: State, op: Op)
    requires src.Fair() && Current(faults, clock, s, op) && Recent(faults, clock, s)
    ensures Legal(s, op)
    ensures Recent(faults, clock, Step(src, s, op))
  {
    hide Step, TryWrite;
    var t := Step(src, s, op);
    StepClock(src, s, op);
    StepIsObserved(src, s, op);
    assert t.history != [] ==> t.history[|t.history| - 1].a == AdmissionsOf(t.history)[|t.history| - 1];
    assert s.history != [] ==> s.history[|s.history| - 1].a == AdmissionsOf(s.history)[|s.history| - 1];
  }

  lemma StepClock(src: Sources, s: State, op: Op)
    requires src.Fair() && (op.Write? ==> op.a.Valid())
    ensures Step(src, s, op).clock == if op.Write? then op.a.at else if op.Fire? then op.at else s.clock
  {
    hide Decide, LinkDelay, Base, Copies, Total, Take, Due, ReleaseAt, Held;
  }

  lemma RecentStaysRecent(faults: FaultConfig, clock: int, faults': FaultConfig, clock': int, s: State)
    requires Recent(faults, clock, s) && faults.GrowsInto(faults') && clock <= clock'
    ensures Recent(faults', clock', s)
  {}
}
