/** What a close and an abort put an end to, over whole runs. */
module Endings {
  import opened Words
  import opened Faults
  import opened PipeSpec
  import opened PipeInvariant
  import opened PipeRuns
  import opened PipeLimits
  import opened Delivery

  // ---- After the writer has closed ----

  lemma StepStaysClosed(src: Sources, s: State, op: Op)
    requires src.Fair() && (op.Write? ==> op.a.Valid()) && s.closed
    ensures Step(src, s, op).closed && Step(src, s, op).history == s.history
  {
    hide Deliver, Take, Due;
  }

  lemma {:induction false} RunStaysClosed(src: Sources, s: State, ops: seq<Op>)
    requires src.Fair() && Valid(ops) && s.closed
    ensures After(src, s, ops).closed && After(src, s, ops).history == s.history
  {
    hide Step;
    if ops == [] {
    } else {
      RunStaysClosed(src, s, ops[..|ops| - 1]);
      StepStaysClosed(src, After(src, s, ops[..|ops| - 1]), ops[|ops| - 1]);
    }
  }

  /** Once the writer has closed, whatever else happens, every write fails and none is recorded. */
  lemma ClosedPipeRefusesWrites(src: Sources, s: State, ops: seq<Op>, a: Admission)
    requires src.Fair() && Valid(ops) && a.Valid()
    ensures var t := After(src, Step(src, s, CloseWriter), ops);
            && t.history == s.history
            && TryWrite(src, t, a).1 == BrokenPipe
            && AcceptedBy(src, Step(src, s, CloseWriter), ops) == []
  {
    hide After, AcceptedBy;
    RunStaysClosed(src, Close(s), ops);
    RunIsObserved(src, Close(s), ops);
    assert |AdmissionsOf(s.history)| == |AdmissionsOf(s.history) + AcceptedBy(src, Close(s), ops)|;
  }

  // ---- After an abort ----

  lemma StepStaysAborted(src: Sources, s: State, op: Op)
    requires src.Fair() && (op.Write? ==> op.a.Valid())
    requires s.closed && s.readClosed && s.readable == [] && s.pending == [] && s.timer == None && s.bufBytes == 0
    ensures var t := Step(src, s, op);
            && t.closed && t.readClosed && t.readable == [] && t.pending == [] && t.timer == None && t.bufBytes == 0
            && t.history == s.history && t.out == s.out
  {
    hide Deliver, Take, Due;
  }

  lemma {:induction false} RunStaysAborted(src: Sources, s: State, ops: seq<Op>)
    requires src.Fair() && Valid(ops)
    requires s.closed && s.readClosed && s.readable == [] && s.pending == [] && s.timer == None && s.bufBytes == 0
    ensures var t := After(src, s, ops);
            && t.closed && t.readClosed && t.readable == [] && t.pending == [] && t.timer == None && t.bufBytes == 0
            && t.history == s.history && t.out == s.out
  {
    hide Step;
    if ops == [] {
    } else {
      RunStaysAborted(src, s, ops[..|ops| - 1]);
      StepStaysAborted(src, After(src, s, ops[..|ops| - 1]), ops[|ops| - 1]);
    }
  }

  /** Once the reader has aborted a pipe that was not aborted before, whatever else happens, nothing is
      queued and no timer runs, reads report the end of the stream and writes fail. */
  lemma AbortedPipeIsOver(src: Sources, s: State, ops: seq<Op>, len: nat, partitioned: bool, a: Admission)
    requires src.Fair() && Valid(ops) && a.Valid() && Inv(s)
    ensures var t := After(src, Step(src, s, AbortReader), ops);
            && t.readable == [] && t.pending == [] && t.timer == None && t.bufBytes == 0
            && t.history == s.history && t.out == s.out
            && TryRead(t, len, partitioned).1 == Eof
            && TryWrite(src, t, a).1 == BrokenPipe
  {
    hide After, Explained, Ordered, OnSchedule, Recorded, Linked, Armed;
    assert DataOf([]) == [];
    RunStaysAborted(src, Abort(s), ops);
  }

  // ---- A graceful close, from the first write to the end of the stream ----

  lemma {:induction false} RunsJoin(src: Sources, s: State, xs: seq<Op>, ys: seq<Op>)
    requires src.Fair() && Valid(xs) && Valid(ys)
    ensures Valid(xs + ys)
    ensures After(src, s, xs + ys) == After(src, After(src, s, xs), ys)
  {
    hide Step;
    if ys == [] {
      assert xs + ys == xs;
    } else {
      var n := |ys| - 1;
      RunsJoin(src, s, xs, ys[..n]);
      var all := xs + ys;
      assert all[..|all| - 1] == xs + ys[..n] && all[|all| - 1] == ys[n];
      assert forall op | op in all :: op in xs || op in ys;
    }
  }

  /** Any run of a pipe that was not aborted, then a close, a callback at or after the last release, and one
      read more than there are bytes: the reader has come to the end of the stream, and all its reads
      together are what arrives of the accepted writes, byte for byte. */
  lemma GracefulCloseDeliversEverything(src: Sources, bound: int, tracing: bool, ops: seq<Op>, at: int, lens: seq<nat>)
    requires src.Fair() && Valid(ops) && LegalRun(src, Fresh(bound, tracing), ops)
    requires var s := After(src, Fresh(bound, tracing), ops);
             && !s.readClosed && s.clock <= at && s.bufBytes < |lens|
             && forall i | 0 <= i < |s.pending| :: s.pending[i].releaseAt <= at
    requires forall i | 0 <= i < |lens| :: 0 < lens[i]
    ensures var all := ops + [CloseWriter] + [Fire(at)] + ReadsOf(lens);
            && Valid(all)
            && var t := After(src, Fresh(bound, tracing), all);
               && t.eofSeen
               && t.history == After(src, Fresh(bound, tracing), ops).history
               && Delivers(t.history, ReadBy(src, Fresh(bound, tracing), all))
  {
    hide Step, LegalRun, ReadBy, Inv, Replay, Delivers, Sited, ReadsOf;
    var start := Fresh(bound, tracing);
    var s := After(src, start, ops);
    RunsJoin(src, start, ops, [CloseWriter]);
    RunsJoin(src, start, ops + [CloseWriter], [Fire(at)]);
    RunsJoin(src, start, ops + [CloseWriter] + [Fire(at)], ReadsOf(lens));
    OneStep(src, s, CloseWriter);
    OneStep(src, Step(src, s, CloseWriter), Fire(at));
    RunKeeps(src, bound, tracing, ops);
    ClosedPipeDrains(src, s, at, lens);
    RunIsObserved(src, start, ops + [CloseWriter] + [Fire(at)] + ReadsOf(lens));
    RunIsSited(src, bound, tracing, ops);
    ReplayDelivers(s.history);
    var all := ops + [CloseWriter] + [Fire(at)] + ReadsOf(lens);
    assert After(src, start, all).out == ReadBy(src, start, all);
  }

  lemma OneStep(src: Sources, s: State, op: Op)
    requires src.Fair() && (op.Write? ==> op.a.Valid())
    ensures After(src, s, [op]) == Step(src, s, op)
  {
    hide Step;
    assert [op][..0] == [];
  }
}
