/** What the seeded streams decide does not depend on time, reads, tracing or, but for corruption, on
    one another. */
module Determinism {
  import opened Faults
  import opened PipeSpec
  import opened PipeRuns

  ghost predicate AllValid(admitted: seq<Admission>) {
    forall i | 0 <= i < |admitted| :: admitted[i].Valid()
  }

  // ---- Decisions are a function of the admitted writes ----

  /** The decisions on a list of admitted writes, and where they leave the streams. */
  ghost function DecideAll(src: Sources, admitted: seq<Admission>): (r: (seq<Draw>, Positions))
    requires src.Fair() && AllValid(admitted)
    ensures |r.0| == |admitted|
  {
    if admitted == [] then ([], ORIGIN)
    else
      var n := |admitted| - 1;
      var (draws, pos) := DecideAll(src, admitted[..n]);
      var (d, next) := Decide(src, pos, admitted[n]);
      (draws + [d], next)
  }

  function DrawsOf(units: seq<Unit>): (d: seq<Draw>)
    ensures |d| == |units|
    ensures forall i | 0 <= i < |units| :: d[i] == units[i].e.draw
  {
    seq(|units|, i requires 0 <= i < |units| => units[i].e.draw)
  }

  ghost predicate Determined(src: Sources, s: State)
    requires src.Fair()
  {
    && AllValid(AdmissionsOf(s.history))
    && DecideAll(src, AdmissionsOf(s.history)) == (DrawsOf(s.history), s.pos)
  }

  lemma DeterminedAppends(src: Sources, s: State, a: Admission, t: State)
    requires src.Fair() && Determined(src, s) && a.Valid()
    requires |t.history| == |s.history| + 1 && t.history[..|s.history|] == s.history
    requires t.history[|s.history|].a == a
    requires (t.history[|s.history|].e.draw, t.pos) == Decide(src, s.pos, a)
    ensures Determined(src, t)
  {
    hide Decide;
    var n := |s.history|;
    var admitted := AdmissionsOf(t.history);
    assert admitted[..n] == AdmissionsOf(s.history);
    assert DrawsOf(t.history) == DrawsOf(s.history) + [t.history[n].e.draw];
    assert forall i | 0 <= i < n :: admitted[i] == AdmissionsOf(s.history)[i];
  }

  lemma StepDetermined(src: Sources, s: State, op: Op)
    requires src.Fair() && (op.Write? ==> op.a.Valid()) && Determined(src, s)
    ensures Determined(src, Step(src, s, op))
  {
    hide Determined, Decide, LinkDelay, Base, Copies, Total, Take, Due, ReleaseAt;
    var t := Step(src, s, op);
    if op.Write? && TryWrite(src, s, op.a).1.Accepted? {
      assert t.history[..|s.history|] == s.history;
      DeterminedAppends(src, s, op.a, t);
    } else {
      SameHistoryDetermined(src, s, t);
    }
  }

  lemma SameHistoryDetermined(src: Sources, s: State, t: State)
    requires src.Fair() && Determined(src, s) && s.history == t.history && s.pos == t.pos
    ensures Determined(src, t)
  {}

  lemma {:induction false} RunDetermined(src: Sources, bound: int, tracing: bool, ops: seq<Op>)
    requires src.Fair() && Valid(ops)
    ensures Determined(src, After(src, Fresh(bound, tracing), ops))
  {
    hide Step;
    if ops == [] {
    } else {
      var before := ops[..|ops| - 1];
      RunDetermined(src, bound, tracing, before);
      StepDetermined(src, After(src, Fresh(bound, tracing), before), ops[|ops| - 1]);
    }
  }

  // ---- Non-interference ----

  /** The same payload under the same settings and the same partition state, at whatever time. */
  predicate Agree(a: Admission, b: Admission) {
    a.data == b.data && a.cfg == b.cfg && a.partitioned == b.partitioned
  }

  ghost predicate AllAgree(xs: seq<Admission>, ys: seq<Admission>) {
    |xs| == |ys| && forall i | 0 <= i < |xs| :: Agree(xs[i], ys[i])
  }

  lemma {:induction false} DecisionsIgnoreTime(src: Sources, xs: seq<Admission>, ys: seq<Admission>)
    requires src.Fair() && AllValid(xs) && AllValid(ys) && AllAgree(xs, ys)
    ensures DecideAll(src, xs) == DecideAll(src, ys)
  {
    if xs == [] {
    } else {
      var n := |xs| - 1;
      assert Agree(xs[n], ys[n]);
      DecisionsIgnoreTime(src, xs[..n], ys[..n]);
    }
  }

  lemma {:induction false} ReplayIsDetermined(xs: seq<Unit>, ys: seq<Unit>)
    requires AllAgree(AdmissionsOf(xs), AdmissionsOf(ys)) && DrawsOf(xs) == DrawsOf(ys)
    ensures Replay(xs) == Replay(ys)
  {
    if xs == [] {
    } else {
      var n := |xs| - 1;
      assert Agree(AdmissionsOf(xs)[n], AdmissionsOf(ys)[n]);
      assert DrawsOf(xs)[n] == DrawsOf(ys)[n];
      AgreeOnPrefix(xs, ys, n);
      ReplayIsDetermined(xs[..n], ys[..n]);
    }
  }

  lemma AgreeOnPrefix(xs: seq<Unit>, ys: seq<Unit>, n: nat)
    requires AllAgree(AdmissionsOf(xs), AdmissionsOf(ys)) && DrawsOf(xs) == DrawsOf(ys) && n <= |xs|
    ensures AllAgree(AdmissionsOf(xs[..n]), AdmissionsOf(ys[..n])) && DrawsOf(xs[..n]) == DrawsOf(ys[..n])
  {
    assert DrawsOf(xs[..n]) == DrawsOf(xs)[..n] && DrawsOf(ys[..n]) == DrawsOf(ys)[..n];
    forall i | 0 <= i < n
      ensures Agree(AdmissionsOf(xs[..n])[i], AdmissionsOf(ys[..n])[i])
    {
      assert Agree(AdmissionsOf(xs)[i], AdmissionsOf(ys)[i]);
    }
  }

  /** Two runs of a direction over the same streams whose accepted writes agree in payload, settings and
      partition state have the same draw-derived event fields and the same byte stream, whatever their
      clocks, reads, callbacks, bounds and recorders do. What has been read in either is a prefix of that
      stream, and unless aborted the rest of it is still held. */
  lemma NonInterference(src: Sources,
                        bound: int, tracing: bool, ops: seq<Op>,
                        bound': int, tracing': bool, ops': seq<Op>)
    requires src.Fair() && Valid(ops) && Valid(ops')
    requires LegalRun(src, Fresh(bound, tracing), ops) && LegalRun(src, Fresh(bound', tracing'), ops')
    requires AllAgree(AcceptedBy(src, Fresh(bound, tracing), ops), AcceptedBy(src, Fresh(bound', tracing'), ops'))
    ensures var s, s' := After(src, Fresh(bound, tracing), ops), After(src, Fresh(bound', tracing'), ops');
            && DrawsOf(s.history) == DrawsOf(s'.history)
            && s.pos == s'.pos
            && Replay(s.history) == Replay(s'.history)
            && ReadBy(src, Fresh(bound, tracing), ops) <= Replay(s.history)
            && ReadBy(src, Fresh(bound', tracing'), ops') <= Replay(s.history)
            && (!s.readClosed ==>
                  ReadBy(src, Fresh(bound, tracing), ops) + Flat(s.readable) + Flat(DataOf(s.pending)) == Replay(s.history))
  {
    hide Step, After, LegalRun, AcceptedBy, ReadBy, Replay, Flat, DecideAll, AllAgree;
    var s, s' := After(src, Fresh(bound, tracing), ops), After(src, Fresh(bound', tracing'), ops');
    RunDetermined(src, bound, tracing, ops);
    RunDetermined(src, bound', tracing', ops');
    TraceExplainsBytes(src, bound, tracing, ops);
    TraceExplainsBytes(src, bound', tracing', ops');
    DecisionsIgnoreTime(src, AdmissionsOf(s.history), AdmissionsOf(s'.history));
    ReplayIsDetermined(s.history, s'.history);
    ReadBytesAreExplained(src, bound, tracing, ops);
    ReadBytesAreExplained(src, bound', tracing', ops');
    RunIsObserved(src, Fresh(bound, tracing), ops);
    RunIsObserved(src, Fresh(bound', tracing'), ops');
  }
}
