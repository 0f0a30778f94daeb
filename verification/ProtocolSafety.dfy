/** Which error a call can surface, under every interleaving of Read, Write, Close and Reset steps. */
module ProtocolSafety {
  import opened Words
  import opened Faults
  import opened Protocol
  import opened Registry
  import Spec = PipeSpec
  import opened PipeInvariant

  // ---- The two pipes, the two ends, the registry and the reset under way ----

  /** A pipe is closed only by its writer or by an abort. */
  ghost predicate ClosedByWriter(w: World, e: End) {
    w.pipes.At(e).closed ==> w.closed.At(e) || w.pipes.At(e).readClosed
  }

  /** A pipe is aborted only once its reading end is closed, or both ends know of a reset. */
  ghost predicate AbortedByReader(w: World, e: End) {
    w.pipes.At(e).readClosed ==>
      w.closed.At(Peer(e)) || (w.reset.At(Peer(e)) && (w.reset.At(e) || w.closed.At(e)))
  }

  /** A Close starts with the closed channel and leaves the registry next. */
  ghost predicate Closing(w: World, e: End) {
    && (w.closed.At(e) <==> 0 < w.closing.At(e))
    && (2 <= w.closing.At(e) ==> e !in w.registry)
  }

  /** An end that no Reset would find any more is closed or already targeted. */
  ghost predicate Registered(w: World, e: End) {
    e in w.registry || e in w.job.targets || w.closed.At(e)
  }

  /** One Reset at most ever finds the two ends; it aborts nothing before all its targets know. */
  ghost predicate Resetting(w: World) {
    && Distinct(w.registry)
    && (w.registry != [] ==> w.job.targets == [])
    && w.job.signalled <= |w.job.targets| && w.job.aborted <= 2 * |w.job.targets|
    && (0 < w.job.aborted ==> w.job.signalled == |w.job.targets|)
    && forall i | 0 <= i < w.job.signalled :: w.reset.At(w.job.targets[i])
  }

  ghost predicate EndSafe(w: World, e: End) {
    ClosedByWriter(w, e) && AbortedByReader(w, e) && Closing(w, e) && Registered(w, e)
  }

  ghost predicate Safe(w: World) {
    EndSafe(w, Client) && EndSafe(w, Server) && Resetting(w)
  }

  // ---- A call in flight, and one that has returned ----

  ghost predicate ThreadSafe(w: World, th: Thread) {
    && (th.startedClosed ==> w.closed.At(th.end) && th.pc == CheckClosed)
    && (th.startedReset ==> w.reset.At(th.end) && (th.pc == CheckClosed || th.pc == CheckReset))
    && (th.pc.CheckClosedAgain? ==>
          && (w.closed.At(Peer(th.end)) || w.closed.At(th.end) || w.reset.At(th.end))
          && (th.call.ReadCall? && !th.pc.drained ==> w.closed.At(th.end) || w.reset.At(th.end))
          && (th.call.ReadCall? && th.pc.drained ==> w.closed.At(Peer(th.end)) && w.pipes.At(Peer(th.end)).eofSeen))
    && (th.pc.CheckResetAgain? ==>
          && (w.closed.At(Peer(th.end)) || w.reset.At(th.end))
          && (th.call.ReadCall? && !th.pc.drained ==> w.reset.At(th.end))
          && (th.call.ReadCall? && th.pc.drained ==> w.closed.At(Peer(th.end)) && w.pipes.At(Peer(th.end)).eofSeen))
  }

  /** What an outcome says about the connection. */
  ghost predicate OutcomeSound(w: World, o: Outcome) {
    var e := o.th.end;
    && (o.result == EndOfFile ==>
          o.th.call.ReadCall? && w.closed.At(Peer(e)) && w.pipes.At(Peer(e)).eofSeen)
    && (o.result == Broken ==> o.th.call.WriteCall? && w.closed.At(Peer(e)))
    && (o.result == ErrClosed ==> w.closed.At(e))
    && (o.result == ErrReset ==> w.reset.At(e))
    && (o.result == ErrTimeout ==> o.deadline.Some? && o.deadline.value <= o.at)
    && (o.th.startedClosed ==> o.result == ErrClosed)
    && (o.th.startedReset ==> o.result == ErrClosed || o.result == ErrReset)
    && (o.result.Transferred? ==> Whole(o.th.call, o.result.n))
  }

  /** A write is never short; a read into a non-empty buffer that succeeds returns something. */
  predicate Whole(call: Call, n: nat) {
    match call
    case ReadCall(len) => n <= len && (0 < len ==> 0 < n)
    case WriteCall(data) => n == |data|
  }

  ghost predicate ThreadsSafe(w: World) {
    forall id | id in w.threads :: ThreadSafe(w, w.threads[id])
  }

  ghost predicate OutcomesSound(w: World) {
    forall i | 0 <= i < |w.finished| :: OutcomeSound(w, w.finished[i])
  }

  // ---- What no step undoes ----

  /** Closed and reset channels stay closed; an observed end of stream stays observed. */
  ghost predicate Onward(w: World, v: World) {
    forall e: End ::
      && (w.closed.At(e) ==> v.closed.At(e))
      && (w.reset.At(e) ==> v.reset.At(e))
      && (w.pipes.At(e).eofSeen ==> v.pipes.At(e).eofSeen)
  }

  lemma OutcomesStaySound(w: World, v: World)
    requires Onward(w, v) && OutcomesSound(w) && v.finished == w.finished
    ensures OutcomesSound(v)
  {
    forall i | 0 <= i < |v.finished|
      ensures OutcomeSound(v, v.finished[i])
    {
      assert OutcomeSound(w, w.finished[i]);
    }
  }

  lemma ThreadStaysSafe(w: World, v: World, th: Thread)
    requires Onward(w, v) && ThreadSafe(w, th)
    ensures ThreadSafe(v, th)
  {}

  lemma ThreadsStaySafe(w: World, v: World)
    requires Onward(w, v) && ThreadsSafe(w)
    requires forall id | id in v.threads :: id in w.threads && v.threads[id] == w.threads[id]
    ensures ThreadsSafe(v)
  {
    forall id | id in v.threads
      ensures ThreadSafe(v, v.threads[id])
    {
      ThreadStaysSafe(w, v, w.threads[id]);
    }
  }

  // ---- One pipe operation ----

  /** What any operation may do to the flags of a pipe. */
  lemma StepFlags(src: Sources, s: Spec.State, op: Spec.Op)
    requires src.Fair() && (op.Write? ==> op.a.Valid())
    ensures var t := Spec.Step(src, s, op);
            && (s.closed ==> t.closed) && (s.readClosed ==> t.readClosed) && (s.eofSeen ==> t.eofSeen)
            && (t.closed && !s.closed ==> op.CloseWriter? || op.AbortReader?)
            && (t.readClosed && !s.readClosed ==> op.AbortReader?)
            && (op.AbortReader? ==> t.readClosed)
  {
    hide Spec.Base, Spec.LinkDelay, Decide, Copies, Spec.Total, Spec.Take, Spec.Due, Spec.ReleaseAt;
  }

  /** The safety predicates look at nothing else. */
  ghost predicate SameControl(w: World, v: World) {
    && v.closed == w.closed && v.reset == w.reset && v.closing == w.closing
    && v.registry == w.registry && v.job == w.job
  }

  lemma PipeStepSafe(src: Both<Sources>, w: World, e: End, op: Spec.Op)
    requires src.client.Fair() && src.server.Fair() && (op.Write? ==> op.a.Valid()) && Safe(w)
    requires op.CloseWriter? ==> w.closed.At(e)
    requires op.AbortReader? ==>
      w.closed.At(Peer(e)) || (w.reset.At(Peer(e)) && (w.reset.At(e) || w.closed.At(e)))
    ensures Safe(OnPipe(src, w, e, op)) && Onward(w, OnPipe(src, w, e, op))
  {
    hide Spec.Step;
    StepFlags(src.At(e), w.pipes.At(e), op);
  }

  lemma QuietStepSafe(w: World, v: World)
    requires SameControl(w, v) && v.pipes == w.pipes
    ensures Safe(w) ==> Safe(v)
    ensures Onward(w, v)
  {}

  // ---- Close ----

  lemma CloseChannelSafe(w: World, e: End)
    requires Safe(w) && w.closing.At(e) == 0
    ensures var v := w.(closing := w.closing.With(e, 1), closed := w.closed.With(e, true)); Safe(v) && Onward(w, v)
  {}

  lemma DeregisterSafe(w: World, e: End)
    requires Safe(w) && w.closing.At(e) == 1
    ensures var v := w.(closing := w.closing.With(e, 2), registry := Without(w.registry, e)); Safe(v) && Onward(w, v)
  {
    hide Without;
    WithoutRemoves(w.registry, e);
  }

  lemma LaterCloseStepSafe(w: World, e: End)
    requires Safe(w) && 2 <= w.closing.At(e)
    ensures var v := w.(closing := w.closing.With(e, w.closing.At(e) + 1)); Safe(v) && Onward(w, v) && w.closed.At(e)
  {}

  lemma CloseStepSafe(src: Both<Sources>, w: World, e: End)
    requires Sane(src, w) && Safe(w) && w.closing.At(e) < CLOSE_STEPS
    ensures var v := CloseStep(src, w, e, w.closing.At(e)); Safe(v) && Onward(w, v)
  {
    hide Spec.Step, Without, Safe;
    var k := w.closing.At(e);
    var u := w.(closing := w.closing.With(e, k + 1));
    if k == 0 {
      CloseChannelSafe(w, e);
    } else if k == 1 {
      DeregisterSafe(w, e);
    } else {
      LaterCloseStepSafe(w, e);
      if k == 2 {
        PipeStepSafe(src, u, e, Spec.CloseWriter);
      } else if k == 3 {
        PipeStepSafe(src, u, Peer(e), Spec.AbortReader);
      } else {
        QuietStepSafe(u, CloseStep(src, w, e, k));
      }
    }
  }

  // ---- Reset ----

  lemma BeginResetSafe(w: World)
    requires Safe(w)
    ensures w.registry != [] ==> Safe(w.(registry := [], job := Job(w.registry, 0, 0)))
  {}

  lemma SignalSafe(w: World)
    requires Safe(w) && w.job.signalled < |w.job.targets|
    ensures var j := w.job;
            var v := w.(reset := w.reset.With(j.targets[j.signalled], true), job := j.(signalled := j.signalled + 1));
            Safe(v) && Onward(w, v)
  {}

  lemma AbortTargetSafe(src: Both<Sources>, w: World)
    requires Sane(src, w) && Safe(w) && w.job.signalled == |w.job.targets| && w.job.aborted < 2 * |w.job.targets|
    ensures var v := ResetStep(src, w); Safe(v) && Onward(w, v)
  {
    hide Spec.Step, Safe;
    var j := w.job;
    var e := j.targets[j.aborted / 2];
    var p := if j.aborted % 2 == 0 then e else Peer(e);
    TargetsAllKnow(w, e);
    TargetsAllKnow(w, Peer(e));
    TargetsKnow(w, j.aborted / 2);
    PipeStepSafe(src, w, p, Spec.AbortReader);
    CountingSafe(OnPipe(src, w, p, Spec.AbortReader));
  }

  lemma TargetsKnow(w: World, i: nat)
    requires Safe(w) && w.job.signalled == |w.job.targets| && i < |w.job.targets|
    ensures w.reset.At(w.job.targets[i])
  {}

  lemma CountingSafe(w: World)
    requires Safe(w) && w.job.signalled == |w.job.targets| && w.job.aborted < 2 * |w.job.targets|
    ensures Safe(w.(job := w.job.(aborted := w.job.aborted + 1)))
  {}

  lemma ResetStepSafe(src: Both<Sources>, w: World)
    requires Sane(src, w) && Safe(w) && !JobDone(w.job)
    ensures var v := ResetStep(src, w); Safe(v) && Onward(w, v)
  {
    hide Spec.Step, EndSafe, Onward;
    if w.job.signalled < |w.job.targets| {
      SignalSafe(w);
    } else {
      AbortTargetSafe(src, w);
    }
  }

  /** When a Reset starts to abort, each end is one of its targets and knows, or is closed. */
  lemma TargetsAllKnow(w: World, e: End)
    requires Safe(w) && w.job.targets != [] && w.job.signalled == |w.job.targets|
    ensures w.reset.At(e) || w.closed.At(e)
  {
    if e in w.job.targets {
      var i :| 0 <= i < |w.job.targets| && w.job.targets[i] == e;
    }
  }

  // ---- One step of a call ----

  lemma AdvanceSafe(src: Both<Sources>, w: World, id: nat, seen: Seen)
    requires Sane(src, w) && Safe(w) && id in w.threads
    requires seen.cfg.Valid()
    ensures var v := AdvanceCall(src, w, id, seen); Safe(v) && Onward(w, v)
  {
    hide Spec.Step, Safe, Onward, MoveOf;
    var v := AdvanceCall(src, w, id, seen);
    var th := w.threads[id];
    if th.pc.TryPipe? {
      var u := OnPipe(src, w, PipeOf(th), OpOf(w, th, seen));
      PipeStepSafe(src, w, PipeOf(th), OpOf(w, th, seen));
      QuietStepSafe(u, v);
      OnwardChains(w, u, v);
    } else {
      QuietStepSafe(w, v);
    }
  }

  lemma OnwardChains(w: World, u: World, v: World)
    requires Onward(w, u) && Onward(u, v)
    ensures Onward(w, v)
  {}

  /** The call goes on safely, or returns and what it returns is sound. */
  ghost predicate MoveSafe(w: World, th: Thread, m: Move) {
    match m
    case Go(pc) => ThreadSafe(w, th.(pc := pc))
    case Finish(result) => OutcomeSound(w, Outcome(th, result, DeadlineOf(w, th).t, w.clock))
  }

  lemma CheckIsSafe(src: Both<Sources>, w: World, th: Thread)
    requires Sane(src, w) && (th.call.WriteCall? ==> |th.call.data| <= MAX_INT)
    requires !th.pc.TryPipe? && ThreadSafe(w, th)
    ensures MoveSafe(w, th, MoveOf(src, w, th))
  {
    hide Try;
  }

  lemma TriesAreWhole(src: Both<Sources>, w: World, th: Thread)
    requires Sane(src, w) && (th.call.WriteCall? ==> |th.call.data| <= MAX_INT)
    ensures Try(src, w, th).Done? ==> Whole(th.call, Try(src, w, th).n)
  {
    hide Spec.Deliver, Spec.Take;
    if th.call.ReadCall? {
      TakeSplitsStream(w.pipes.At(PipeOf(th)).readable, th.call.len);
    }
  }

  /** A failed try has a reason that the checks which follow it tell apart: a pipe that is not aborted
      reports its end because its writer closed; an aborted one because its reader closed or was reset. */
  lemma TryIsSafe(src: Both<Sources>, w: World, th: Thread, seen: Seen)
    requires Sane(src, w) && (th.call.WriteCall? ==> |th.call.data| <= MAX_INT) && seen.cfg.Valid()
    requires Safe(w) && th.pc.TryPipe? && ThreadSafe(w, th)
    ensures MoveSafe(OnPipe(src, w, PipeOf(th), OpOf(w, th, seen)), th, MoveOf(src, w, th))
  {
    hide Try, Whole, Spec.Step, Resetting, Closing, Registered;
    TriesAreWhole(src, w, th);
    if Try(src, w, th).Failed? {
      if th.call.ReadCall? {
        FailedReadHasReason(src, w, th, seen);
      } else {
        FailedWriteHasReason(src, w, th);
      }
    }
  }

  lemma FailedReadHasReason(src: Both<Sources>, w: World, th: Thread, seen: Seen)
    requires Sane(src, w) && Safe(w) && th.call.ReadCall? && Try(src, w, th).Failed?
    ensures var p := w.pipes.At(Peer(th.end));
            && (p.readClosed ==> w.closed.At(th.end) || w.reset.At(th.end))
            && (!p.readClosed ==>
                  w.closed.At(Peer(th.end)) && Spec.Step(src.At(Peer(th.end)), p, OpOf(w, th, seen)).eofSeen)
  {
    hide Spec.Take, Resetting, Closing, Registered;
  }

  lemma FailedWriteHasReason(src: Both<Sources>, w: World, th: Thread)
    requires Sane(src, w) && Safe(w) && th.call.WriteCall? && |th.call.data| <= MAX_INT && Try(src, w, th).Failed?
    ensures w.closed.At(Peer(th.end)) || w.closed.At(th.end) || w.reset.At(th.end)
  {
    hide Spec.Deliver, Resetting, Closing, Registered;
  }

  /** The call that took the step is still safe, or has returned and what it returned is sound. */
  ghost predicate Accounted(w: World, v: World, id: nat) {
    && (id in v.threads ==> ThreadSafe(v, v.threads[id]) && v.finished == w.finished)
    && (id !in v.threads ==>
          |v.finished| == |w.finished| + 1 && v.finished[..|w.finished|] == w.finished
          && OutcomeSound(v, v.finished[|w.finished|]))
  }

  lemma MoveAccounted(w: World, u: World, id: nat, m: Move)
    requires id in u.threads && u.finished == w.finished && MoveSafe(u, u.threads[id], m)
    ensures Accounted(w, if m.Go? then Goto(u, id, m.pc) else Return(u, id, m.result), id)
  {}

  lemma AdvanceAccounted(src: Both<Sources>, w: World, id: nat, seen: Seen)
    requires Sane(src, w) && Safe(w) && id in w.threads && ThreadSafe(w, w.threads[id])
    requires seen.cfg.Valid()
    ensures Accounted(w, AdvanceCall(src, w, id, seen), id)
  {
    hide Spec.Step, MoveOf, MoveSafe, Accounted, ThreadSafe, Safe;
    var th := w.threads[id];
    if th.pc.TryPipe? {
      TryIsSafe(src, w, th, seen);
      MoveAccounted(w, OnPipe(src, w, PipeOf(th), OpOf(w, th, seen)), id, MoveOf(src, w, th));
    } else {
      CheckIsSafe(src, w, th);
      MoveAccounted(w, w, id, MoveOf(src, w, th));
    }
  }

  // ---- Any step ----

  lemma NextSafe(src: Both<Sources>, w: World, a: Action)
    requires Sane(src, w) && Enabled(w, a) && Safe(w)
    ensures Safe(Next(src, w, a)) && Onward(w, Next(src, w, a))
  {
    hide Spec.Step, Safe, Onward, AdvanceCall, CloseStep, ResetStep;
    var v := Next(src, w, a);
    match a
    case Advance(id, seen) => AdvanceSafe(src, w, id, seen);
    case BeginClose(e) => CloseStepSafe(src, w, e);
    case AdvanceClose(e) => CloseStepSafe(src, w, e);
    case BeginReset => BeginResetSafe(w); StaysOnward(w, v);
    case AdvanceReset => ResetStepSafe(src, w);
    case RunRelease(e) => PipeStepSafe(src, w, e, Spec.Fire(w.clock));
    case _ => QuietStepSafe(w, v);
  }

  lemma StaysOnward(w: World, v: World)
    requires v.closed == w.closed && v.reset == w.reset && v.pipes == w.pipes
    ensures Onward(w, v)
  {}

  lemma NextThreadsSafe(src: Both<Sources>, w: World, a: Action)
    requires Sane(src, w) && Enabled(w, a) && Safe(w) && ThreadsSafe(w) && OutcomesSound(w)
    ensures ThreadsSafe(Next(src, w, a)) && OutcomesSound(Next(src, w, a))
  {
    hide Spec.Step, Safe, Onward, AdvanceCall, CloseStep, ResetStep, ThreadsSafe, OutcomesSound, ThreadSafe, OutcomeSound;
    var v := Next(src, w, a);
    NextSafe(src, w, a);
    match a
    case Advance(id, seen) => AdvanceThreadsSafe(src, w, id, seen);
    case Begin(id, e, call) => BeginThreadsSafe(w, v, id);
    case BeginClose(e) => CloseLeavesCalls(src, w, e); CallsStaySafe(w, v);
    case AdvanceClose(e) => CloseLeavesCalls(src, w, e); CallsStaySafe(w, v);
    case AdvanceReset => ResetLeavesCalls(src, w); CallsStaySafe(w, v);
    case _ => CallsStaySafe(w, v);
  }

  lemma CallsStaySafe(w: World, v: World)
    requires Onward(w, v) && v.threads == w.threads && v.finished == w.finished
    requires ThreadsSafe(w) && OutcomesSound(w)
    ensures ThreadsSafe(v) && OutcomesSound(v)
  {
    hide Onward;
    ThreadsStaySafe(w, v);
    OutcomesStaySound(w, v);
  }

  lemma CloseLeavesCalls(src: Both<Sources>, w: World, e: End)
    requires Sane(src, w)
    ensures forall k: nat :: CloseStep(src, w, e, k).threads == w.threads && CloseStep(src, w, e, k).finished == w.finished
  {
    hide Spec.Step, Without;
  }

  lemma ResetLeavesCalls(src: Both<Sources>, w: World)
    requires Sane(src, w) && !JobDone(w.job)
    ensures ResetStep(src, w).threads == w.threads && ResetStep(src, w).finished == w.finished
  {
    hide Spec.Step;
  }

  lemma BeginThreadsSafe(w: World, v: World, id: nat)
    requires Onward(w, v) && id !in w.threads && v.finished == w.finished && ThreadsSafe(w) && OutcomesSound(w)
    requires v.threads.Keys == w.threads.Keys + {id} && (forall i | i in w.threads :: v.threads[i] == w.threads[i])
    requires var th := v.threads[id];
             th.pc == CheckClosed && (th.startedClosed ==> v.closed.At(th.end)) && (th.startedReset ==> v.reset.At(th.end))
    ensures ThreadsSafe(v) && OutcomesSound(v)
  {
    hide Onward;
    OutcomesStaySound(w, v);
    forall i | i in v.threads
      ensures ThreadSafe(v, v.threads[i])
    {
      if i != id {
        ThreadStaysSafe(w, v, w.threads[i]);
      }
    }
  }

  lemma AdvanceThreadsSafe(src: Both<Sources>, w: World, id: nat, seen: Seen)
    requires Sane(src, w) && Safe(w) && id in w.threads && ThreadsSafe(w) && OutcomesSound(w)
    requires seen.cfg.Valid()
    ensures ThreadsSafe(AdvanceCall(src, w, id, seen)) && OutcomesSound(AdvanceCall(src, w, id, seen))
  {
    hide Safe, Onward, ThreadSafe, OutcomeSound;
    var v := AdvanceCall(src, w, id, seen);
    AdvanceSafe(src, w, id, seen);
    AdvanceLeavesOthers(src, w, id, seen);
    AdvanceAccounted(src, w, id, seen);
    OthersSafe(w, v, id);
  }

  lemma AdvanceLeavesOthers(src: Both<Sources>, w: World, id: nat, seen: Seen)
    requires Sane(src, w) && id in w.threads
    requires seen.cfg.Valid()
    ensures var v := AdvanceCall(src, w, id, seen);
            forall i | i in v.threads && i != id :: i in w.threads && v.threads[i] == w.threads[i]
  {
    hide Spec.Step, MoveOf;
  }

  lemma OthersSafe(w: World, v: World, id: nat)
    requires Onward(w, v) && Accounted(w, v, id) && ThreadsSafe(w) && OutcomesSound(w)
    requires forall i | i in v.threads && i != id :: i in w.threads && v.threads[i] == w.threads[i]
    ensures ThreadsSafe(v) && OutcomesSound(v)
  {
    hide Onward, OutcomeSound, ThreadSafe;
    forall i | i in v.threads
      ensures ThreadSafe(v, v.threads[i])
    {
      if i != id {
        ThreadStaysSafe(w, v, w.threads[i]);
      }
    }
    var kept := v.(finished := w.finished);
    FinishedAlone(w, kept, v);
    OutcomesStaySound(w, kept);
    forall i | 0 <= i < |v.finished|
      ensures OutcomeSound(v, v.finished[i])
    {
      if i < |w.finished| {
        assert OutcomeSound(kept, kept.finished[i]);
        assert v.finished[i] == kept.finished[i];
        SameOutcome(kept, v, v.finished[i]);
      }
    }
  }

  lemma FinishedAlone(w: World, kept: World, v: World)
    requires Onward(w, v) && kept == v.(finished := w.finished)
    ensures Onward(w, kept)
  {}

  lemma SameOutcome(w: World, v: World, o: Outcome)
    requires OutcomeSound(w, o) && w == v.(finished := w.finished)
    ensures OutcomeSound(v, o)
  {}
}
