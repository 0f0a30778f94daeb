/** Whole runs of a connection: what every call that has returned says about it. */
module ProtocolRuns {
  import opened Faults
  import opened Protocol
  import opened Registry
  import opened ProtocolSafety
  import opened PipeInvariant
  import opened PipeRuns
  import PipeLimits
  import Spec = PipeSpec

  // ---- The pipe operation an action performs ----

  datatype PipeAction = Untouched | On(pipe: End, op: Spec.Op)

  function ActionOn(w: World, a: Action): PipeAction {
    match a
    case Advance(id, seen) =>
      if id in w.threads && w.threads[id].pc.TryPipe? then On(PipeOf(w.threads[id]), OpOf(w, w.threads[id], seen))
      else Untouched
    case AdvanceClose(e) =>
      if w.closing.At(e) == 2 then On(e, Spec.CloseWriter)
      else if w.closing.At(e) == 3 then On(Peer(e), Spec.AbortReader)
      else Untouched
    case AdvanceReset =>
      if w.job.signalled < |w.job.targets| || 2 * |w.job.targets| <= w.job.aborted then Untouched
      else
        var e := w.job.targets[w.job.aborted / 2];
        On(if w.job.aborted % 2 == 0 then e else Peer(e), Spec.AbortReader)
    case RunRelease(e) => On(e, Spec.Fire(w.clock))
    case _ => Untouched
  }

  /** Every action is at most one operation on one pipe, under what is in force at that moment. */
  lemma ActsOnOnePipe(src: Both<Sources>, w: World, a: Action)
    requires Sane(src, w) && Enabled(w, a)
    ensures match ActionOn(w, a)
            case Untouched => Next(src, w, a).pipes == w.pipes
            case On(e, op) =>
              && Current(w.faults, w.clock, w.pipes.At(e), op)
              && Next(src, w, a).pipes == w.pipes.With(e, Spec.Step(src.At(e), w.pipes.At(e), op))
  {
    hide Spec.Step, MoveOf, Without;
  }

  /** Settings and clock are left alone, and no call changes what it asked for. */
  ghost predicate SameTerms(w: World, v: World) {
    && v.faults == w.faults && v.clock == w.clock
    && forall id | id in v.threads :: id in w.threads && v.threads[id].call == w.threads[id].call
  }

  lemma CallsKeepTerms(src: Both<Sources>, w: World, id: nat, seen: Seen)
    requires Sane(src, w) && id in w.threads
    requires seen.cfg.Valid()
    ensures SameTerms(w, AdvanceCall(src, w, id, seen))
  {
    hide Spec.Step, MoveOf;
  }

  lemma ClosesKeepTerms(src: Both<Sources>, w: World, e: End, k: nat)
    requires Sane(src, w)
    ensures SameTerms(w, CloseStep(src, w, e, k))
  {
    hide Spec.Step, Without;
  }

  lemma ResetsKeepTerms(src: Both<Sources>, w: World)
    requires Sane(src, w) && !JobDone(w.job)
    ensures SameTerms(w, ResetStep(src, w))
  {
    hide Spec.Step;
  }

  lemma WorldMovesOn(src: Both<Sources>, w: World, a: Action)
    requires Sane(src, w) && Enabled(w, a)
    ensures var v := Next(src, w, a);
            && Sane(src, v) && w.faults.GrowsInto(v.faults) && w.clock <= v.clock
            && (ActionOn(w, a).On? ==> v.faults == w.faults && v.clock == w.clock)
  {
    hide Spec.Step, AdvanceCall, CloseStep, ResetStep;
    match a
    case Advance(id, seen) => CallsKeepTerms(src, w, id, seen);
    case BeginClose(e) => ClosesKeepTerms(src, w, e, 0);
    case AdvanceClose(e) => ClosesKeepTerms(src, w, e, w.closing.At(e));
    case AdvanceReset => ResetsKeepTerms(src, w);
    case _ =>
  }

  // ---- The two pipes ----

  /** Once the end of the stream has been reported, everything that was to arrive has been read. */
  ghost predicate Complete(s: Spec.State) {
    s.eofSeen ==> s.out == Replay(s.history)
  }

  ghost predicate PipeSound(w: World, e: End) {
    Inv(w.pipes.At(e)) && Recent(w.faults, w.clock, w.pipes.At(e)) && Complete(w.pipes.At(e))
  }

  lemma ReadStaysComplete(s: Spec.State, len: nat, partitioned: bool)
    requires Inv(s) && Complete(s)
    ensures Complete(Spec.TryRead(s, len, partitioned).0)
  {
    hide Replay, Explained, OnSchedule, Recorded, Linked, Armed;
    if !s.readClosed {
      PipeLimits.EofExactly(s, len, partitioned);
    }
  }

  lemma StepStaysComplete(src: Sources, s: Spec.State, op: Spec.Op)
    requires src.Fair() && (op.Write? ==> op.a.Valid()) && Inv(s) && Complete(s)
    ensures Complete(Spec.Step(src, s, op))
  {
    hide Replay, Spec.Deliver, Spec.TryRead, Explained, OnSchedule, Recorded, Linked, Armed;
    if op.Read? {
      ReadStaysComplete(s, op.len, op.partitioned);
    } else {
      StepFlags(src, s, op);
      if op.Write? && !s.closed && !s.readClosed {
        DeliverNeverEnds(src, s.(clock := op.a.at), op.a);
      }
    }
  }

  lemma DeliverNeverEnds(src: Sources, s: Spec.State, a: Admission)
    requires src.Fair() && a.Valid()
    ensures Spec.Deliver(src, s, a).eofSeen == s.eofSeen
  {
    hide Spec.Base, Spec.LinkDelay, Decide, Copies, Spec.Total, Spec.ReleaseAt;
  }

  lemma PipeStaysSound(src: Both<Sources>, w: World, a: Action, e: End)
    requires Sane(src, w) && Enabled(w, a) && PipeSound(w, e)
    ensures PipeSound(Next(src, w, a), e)
  {
    hide Spec.Step, Spec.Legal, Next, ActionOn, Inv, Recent, Complete;
    var v := Next(src, w, a);
    ActsOnOnePipe(src, w, a);
    WorldMovesOn(src, w, a);
    var act := ActionOn(w, a);
    if act.On? && act.pipe == e {
      var s := w.pipes.At(e);
      StepStaysRecent(src.At(e), w.faults, w.clock, s, act.op);
      StepKeeps(src.At(e), s, act.op);
      StepStaysComplete(src.At(e), s, act.op);
    }
    RecentStaysRecent(w.faults, w.clock, v.faults, v.clock, v.pipes.At(e));
  }

  // ---- Runs ----

  datatype Run =
    | Start(bound: int, tracing: bool, faults: FaultConfig, partitioned: bool, clock: int)
    | Then(before: Run, a: Action)

  /** A run every action of which was enabled when it was taken. */
  ghost predicate Proper(src: Both<Sources>, r: Run)
    requires src.client.Fair() && src.server.Fair()
    decreases r, 0
  {
    match r
    case Start(_, _, faults, _, clock) => faults.Valid() && 0 <= clock
    case Then(before, a) => Proper(src, before) && Enabled(At(src, before), a)
  }

  ghost function At(src: Both<Sources>, r: Run): (w: World)
    requires src.client.Fair() && src.server.Fair() && Proper(src, r)
    ensures Sane(src, w)
    decreases r, 1
  {
    match r
    case Start(bound, tracing, faults, partitioned, clock) => Established(bound, tracing, faults, partitioned, clock)
    case Then(before, a) =>
      WorldMovesOn(src, At(src, before), a);
      Next(src, At(src, before), a)
  }

  ghost predicate Sound(w: World) {
    Safe(w) && ThreadsSafe(w) && OutcomesSound(w) && PipeSound(w, Client) && PipeSound(w, Server)
  }

  lemma StartIsSound(bound: int, tracing: bool, faults: FaultConfig, partitioned: bool, clock: int)
    requires 0 <= clock
    ensures Sound(Established(bound, tracing, faults, partitioned, clock))
  {
    FreshIsSound(bound, tracing);
    var w := Established(bound, tracing, faults, partitioned, clock);
    assert w.registry[0] == Client && w.registry[1] == Server;
  }

  /** Every reachable state of a connection is sound, however its calls, closes and resets interleave. */
  lemma {:induction false} RunStaysSound(src: Both<Sources>, r: Run)
    requires src.client.Fair() && src.server.Fair() && Proper(src, r)
    ensures Sound(At(src, r))
  {
    hide Safe, ThreadsSafe, OutcomesSound, PipeSound, Next, Enabled;
    match r
    case Start(bound, tracing, faults, partitioned, clock) => StartIsSound(bound, tracing, faults, partitioned, clock);
    case Then(before, a) =>
      RunStaysSound(src, before);
      var w := At(src, before);
      NextSafe(src, w, a);
      NextThreadsSafe(src, w, a);
      PipeStaysSound(src, w, a, Client);
      PipeStaysSound(src, w, a, Server);
  }

  /** What a returned call reports is true. A read reports the end of the stream only when the peer has
      closed and every byte that was to arrive has been read; a write reports a broken pipe only when the
      peer has closed; neither is ever the work of a Reset. A call that started on a closed end reports
      that, and one that started on a reset end reports the reset unless the end was closed too. A
      timeout is reported only when the deadline on record at that moment had passed. A write that succeeds
      is never short, and a read into a non-empty buffer never succeeds with nothing. */
  lemma ErrorsAreSound(src: Both<Sources>, r: Run, i: nat)
    requires src.client.Fair() && src.server.Fair() && Proper(src, r) && i < |At(src, r).finished|
    ensures var w := At(src, r);
            var o := w.finished[i];
            var p := w.pipes.At(Peer(o.th.end));
            && (o.result == EndOfFile ==> o.th.call.ReadCall? && w.closed.At(Peer(o.th.end)) && p.out == Replay(p.history))
            && (o.result == Broken ==> o.th.call.WriteCall? && w.closed.At(Peer(o.th.end)))
            && (o.result == ErrClosed ==> w.closed.At(o.th.end))
            && (o.result == ErrReset ==> w.reset.At(o.th.end))
            && (o.result == ErrTimeout ==> o.deadline.Some? && o.deadline.value <= o.at)
            && (o.th.startedClosed ==> o.result == ErrClosed)
            && (o.th.startedReset ==> o.result == ErrClosed || o.result == ErrReset)
            && (o.result.Transferred? ==> Whole(o.th.call, o.result.n))
  {
    hide Next, Enabled, Safe, ThreadsSafe, Inv, Recent, Replay;
    RunStaysSound(src, r);
    assert OutcomeSound(At(src, r), At(src, r).finished[i]);
  }

  /** As long as neither end is closed, resets and aborts and deadlines can fail a call only with their
      own errors. */
  lemma ResetAloneIsNeverEof(src: Both<Sources>, r: Run, i: nat)
    requires src.client.Fair() && src.server.Fair() && Proper(src, r) && i < |At(src, r).finished|
    requires !At(src, r).closed.client && !At(src, r).closed.server
    ensures var result := At(src, r).finished[i].result;
            result.Transferred? || result == ErrReset || result == ErrTimeout
  {
    hide Next, Enabled, At;
    ErrorsAreSound(src, r, i);
  }

  /** No pipe is ever aborted under a reader that is neither closed nor reset. */
  lemma OnlyReadersAbort(src: Both<Sources>, r: Run, e: End)
    requires src.client.Fair() && src.server.Fair() && Proper(src, r) && At(src, r).pipes.At(e).readClosed
    ensures At(src, r).closed.At(Peer(e)) || At(src, r).reset.At(Peer(e))
  {
    hide Next, Enabled, At, Inv, Recent, ThreadsSafe, OutcomesSound;
    RunStaysSound(src, r);
  }
}
