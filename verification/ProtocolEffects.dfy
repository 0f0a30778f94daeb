/** What the calls on a connection bring about, in every run: deadlines bind, a Close and a Reset complete,
    and what calls report is what the pipes did. */
module ProtocolEffects {
  import opened Words
  import opened Faults
  import opened Deadlines
  import opened Protocol
  import opened ProtocolSafety
  import opened ProtocolRuns
  import opened PipeRuns
  import opened Determinism
  import opened Delivery
  import Registry
  import Spec = PipeSpec

  // ---- Deadlines ----

  /** The deadline last set on this end in this direction, if any was. */
  function LastSet(r: Run, e: End, reading: bool): Option<int> {
    match r
    case Start(_, _, _, _, _) => None
    case Then(before, a) =>
      if a.SetDeadline? && a.end == e && a.reading == reading then a.t else LastSet(before, e, reading)
  }

  lemma CallsKeepDeadlines(src: Both<Sources>, w: World, id: nat, seen: Seen)
    requires Sane(src, w) && id in w.threads && seen.cfg.Valid()
    ensures AdvanceCall(src, w, id, seen).rd == w.rd && AdvanceCall(src, w, id, seen).wd == w.wd
  {
    hide Spec.Step, MoveOf;
  }

  lemma OnlySettingSets(src: Both<Sources>, w: World, a: Action, e: End, reading: bool)
    requires Sane(src, w) && Enabled(w, a)
    ensures TimingOf(Next(src, w, a), e, reading).t
         == if a.SetDeadline? && a.end == e && a.reading == reading then a.t else TimingOf(w, e, reading).t
  {
    hide Spec.Step, AdvanceCall, MoveOf;
    if a.Advance? {
      CallsKeepDeadlines(src, w, a.id, a.seen);
    }
  }

  /** In every run the deadline on record is the one last set. */
  lemma {:induction false} DeadlineOnRecord(src: Both<Sources>, r: Run, e: End, reading: bool)
    requires src.client.Fair() && src.server.Fair() && Proper(src, r)
    ensures TimingOf(At(src, r), e, reading).t == LastSet(r, e, reading)
  {
    hide Next, Enabled;
    if r.Start? {
    } else {
      DeadlineOnRecord(src, r.before, e, reading);
      OnlySettingSets(src, At(src, r.before), r.a, e, reading);
    }
  }

  /** The call is about to look at its deadline, for the first time in a pass or, a write, once more. */
  predicate Looking(th: Thread) { th.pc.CheckDeadline? || th.pc.CheckDeadlineAgain? }

  /** A call that looks at its deadline when the one last set has passed returns with a timeout, and any
      other call that looks goes on: to the pipe, or to its wait. */
  lemma DeadlinesBind(src: Both<Sources>, r: Run, id: nat, seen: Seen)
    requires src.client.Fair() && src.server.Fair() && Proper(src, r)
    requires Enabled(At(src, r), Advance(id, seen)) && Looking(At(src, r).threads[id])
    ensures var w := At(src, r);
            var v := Next(src, w, Advance(id, seen));
            var th := w.threads[id];
            var deadline := LastSet(r, th.end, th.call.ReadCall?);
            if deadline.Some? && deadline.value <= w.clock then
              id !in v.threads && v.finished == w.finished + [Outcome(th, ErrTimeout, deadline, w.clock)]
            else
              && id in v.threads && v.finished == w.finished
              && v.threads[id].pc == if th.pc.CheckDeadline? then TryPipe(th.pc.gen) else Waiting(th.pc.gen, th.pc.channel)
  {
    hide At, Try, Spec.Step;
    var w := At(src, r);
    var th := w.threads[id];
    DeadlineOnRecord(src, r, th.end, th.call.ReadCall?);
  }

  // ---- Close ----

  /** A Close that has come past its pipe steps has closed the pipe its end writes and aborted the one it
      reads. */
  ghost predicate Underway(w: World, e: End) {
    && (3 <= w.closing.At(e) ==> w.pipes.At(e).closed)
    && (4 <= w.closing.At(e) ==> w.pipes.At(Peer(e)).readClosed)
  }

  /** A Reset has aborted the first pipes of its targets: of each, the one it writes and the one it reads. */
  ghost predicate Aborting(w: World) {
    forall i | 0 <= i < w.job.aborted <= 2 * |w.job.targets| ::
      w.pipes.At(if i % 2 == 0 then w.job.targets[i / 2] else Peer(w.job.targets[i / 2])).readClosed
  }

  ghost predicate FlagsStay(w: World, v: World) {
    forall e: End ::
      && (w.pipes.At(e).closed ==> v.pipes.At(e).closed)
      && (w.pipes.At(e).readClosed ==> v.pipes.At(e).readClosed)
  }

  lemma NextKeepsFlags(src: Both<Sources>, w: World, a: Action)
    requires Sane(src, w) && Enabled(w, a)
    ensures FlagsStay(w, Next(src, w, a))
  {
    hide Spec.Step, Next, ActionOn;
    ActsOnOnePipe(src, w, a);
    var act := ActionOn(w, a);
    if act.On? {
      StepFlags(src.At(act.pipe), w.pipes.At(act.pipe), act.op);
    }
  }

  lemma CallsKeepJobs(src: Both<Sources>, w: World, id: nat, seen: Seen)
    requires Sane(src, w) && id in w.threads && seen.cfg.Valid()
    ensures AdvanceCall(src, w, id, seen).closing == w.closing && AdvanceCall(src, w, id, seen).job == w.job
  {
    hide Spec.Step, MoveOf;
  }

  lemma CloseStepGetsOn(src: Both<Sources>, w: World, e: End, k: nat)
    requires Sane(src, w) && k == w.closing.At(e) && Underway(w, Client) && Underway(w, Server)
    requires FlagsStay(w, CloseStep(src, w, e, k)) && Aborting(w)
    ensures var v := CloseStep(src, w, e, k); Underway(v, Client) && Underway(v, Server) && Aborting(v)
  {
    hide Registry.Without, Aborting, FlagsStay, Underway, Spec.Step;
    var v := CloseStep(src, w, e, k);
    if k == 2 {
      StepFlags(src.At(e), w.pipes.At(e), Spec.CloseWriter);
      CloseCloses(src.At(e), w.pipes.At(e));
    } else if k == 3 {
      StepFlags(src.At(Peer(e)), w.pipes.At(Peer(e)), Spec.AbortReader);
    }
    OneEndGetsOn(w, v, e, k);
    AbortingStays(w, v);
  }

  lemma CloseCloses(src: Sources, s: Spec.State)
    requires src.Fair()
    ensures Spec.Step(src, s, Spec.CloseWriter).closed
  {}

  lemma OneEndGetsOn(w: World, v: World, e: End, k: nat)
    requires FlagsStay(w, v) && k == w.closing.At(e) && v.closing == w.closing.With(e, k + 1)
    requires Underway(w, Client) && Underway(w, Server)
    requires k == 2 ==> v.pipes.At(e).closed
    requires k == 3 ==> v.pipes.At(Peer(e)).readClosed
    ensures Underway(v, Client) && Underway(v, Server)
  {}

  lemma AbortingStays(w: World, v: World)
    requires FlagsStay(w, v) && v.job == w.job && Aborting(w)
    ensures Aborting(v)
  {}

  lemma ResetStepGetsOn(src: Both<Sources>, w: World)
    requires Sane(src, w) && !JobDone(w.job) && Underway(w, Client) && Underway(w, Server) && Resetting(w)
    requires FlagsStay(w, ResetStep(src, w)) && Aborting(w)
    ensures var v := ResetStep(src, w); Underway(v, Client) && Underway(v, Server) && Aborting(v)
  {
    hide Spec.Step;
    var j := w.job;
    if j.signalled == |j.targets| {
      var e := j.targets[j.aborted / 2];
      var p := if j.aborted % 2 == 0 then e else Peer(e);
      StepFlags(src.At(p), w.pipes.At(p), Spec.AbortReader);
    }
  }

  lemma JobsStay(w: World, v: World)
    requires FlagsStay(w, v) && v.closing == w.closing && v.job == w.job
    requires Underway(w, Client) && Underway(w, Server) && Aborting(w)
    ensures Underway(v, Client) && Underway(v, Server) && Aborting(v)
  {}

  lemma NextGetsOn(src: Both<Sources>, w: World, a: Action)
    requires Sane(src, w) && Enabled(w, a) && Resetting(w)
    requires Underway(w, Client) && Underway(w, Server) && Aborting(w)
    ensures var v := Next(src, w, a); Underway(v, Client) && Underway(v, Server) && Aborting(v)
  {
    hide Spec.Step, FlagsStay, AdvanceCall, CloseStep, ResetStep, Underway, Aborting;
    var v := Next(src, w, a);
    NextKeepsFlags(src, w, a);
    match a
    case Advance(id, seen) => CallsKeepJobs(src, w, id, seen); JobsStay(w, v);
    case BeginClose(e) => CloseStepGetsOn(src, w, e, 0);
    case AdvanceClose(e) => CloseStepGetsOn(src, w, e, w.closing.At(e));
    case AdvanceReset => ResetStepGetsOn(src, w);
    case BeginReset => NewJobHasAbortedNothing(w, v);
    case _ => JobsStay(w, v);
  }

  lemma NewJobHasAbortedNothing(w: World, v: World)
    requires v.pipes == w.pipes && v.closing == w.closing && (v.job == w.job || v.job.aborted == 0)
    requires Underway(w, Client) && Underway(w, Server) && Aborting(w)
    ensures Underway(v, Client) && Underway(v, Server) && Aborting(v)
  {}

  lemma {:induction false} RunGetsOn(src: Both<Sources>, r: Run)
    requires src.client.Fair() && src.server.Fair() && Proper(src, r)
    ensures var w := At(src, r); Underway(w, Client) && Underway(w, Server) && Aborting(w)
  {
    hide Next, Enabled, Underway, Aborting, EndSafe, ThreadsSafe, OutcomesSound, PipeSound;
    if r.Start? {
      NothingIsUnderway(At(src, r));
    } else {
      RunGetsOn(src, r.before);
      RunStaysSound(src, r.before);
      NextGetsOn(src, At(src, r.before), r.a);
    }
  }

  lemma NothingIsUnderway(w: World)
    requires w.closing == Both(0, 0) && w.job.aborted == 0
    ensures Underway(w, Client) && Underway(w, Server) && Aborting(w)
  {}

  /** Where a Close stands is what it has done: its end is closed, off the registry, its stream ended, the
      stream it reads aborted. */
  lemma CloseTakesEffect(src: Both<Sources>, r: Run, e: End)
    requires src.client.Fair() && src.server.Fair() && Proper(src, r)
    ensures var w := At(src, r);
            && (1 <= w.closing.At(e) <==> w.closed.At(e))
            && (2 <= w.closing.At(e) ==> e !in w.registry)
            && (3 <= w.closing.At(e) ==> w.pipes.At(e).closed)
            && (4 <= w.closing.At(e) ==> w.pipes.At(Peer(e)).readClosed)
  {
    hide At, Next, Enabled, Aborting, Resetting, ThreadsSafe, OutcomesSound, PipeSound;
    RunGetsOn(src, r);
    RunStaysSound(src, r);
  }

  /** A Reset that is done has told every target, and aborted both pipes of each. */
  lemma ResetTakesEffect(src: Both<Sources>, r: Run, e: End)
    requires src.client.Fair() && src.server.Fair() && Proper(src, r)
    requires JobDone(At(src, r).job) && e in At(src, r).job.targets
    ensures var w := At(src, r);
            w.reset.At(e) && w.pipes.At(e).readClosed && w.pipes.At(Peer(e)).readClosed
  {
    hide At, Next, Enabled, Underway, EndSafe, ThreadsSafe, OutcomesSound, PipeSound;
    RunGetsOn(src, r);
    RunStaysSound(src, r);
    var w := At(src, r);
    var i :| 0 <= i < |w.job.targets| && w.job.targets[i] == e;
    assert (2 * i) % 2 == 0 && (2 * i) / 2 == i && (2 * i + 1) % 2 == 1 && (2 * i + 1) / 2 == i;
  }

  /** A Reset that begins has every open end among its targets, or an earlier Reset had. */
  lemma ResetTargetsEveryOpenEnd(src: Both<Sources>, r: Run, e: End)
    requires src.client.Fair() && src.server.Fair() && Proper(src, r) && !At(src, r).closed.At(e)
    ensures e in Next(src, At(src, r), BeginReset).job.targets
  {
    hide At, Enabled, Resetting, ThreadsSafe, OutcomesSound, PipeSound;
    RunStaysSound(src, r);
    var w := At(src, r);
    assert Registered(w, e) && Resetting(w);
    OneResetFindsAnyone(w);
  }

  lemma OneResetFindsAnyone(w: World)
    requires Resetting(w)
    ensures w.registry != [] ==> w.job.targets == []
  {}

  // ---- Calls started late ----

  /** The run goes on from the other with the call in flight all the time. */
  ghost predicate InFlight(src: Both<Sources>, r: Run, from: Run, id: nat)
    requires src.client.Fair() && src.server.Fair() && Proper(src, r)
  {
    id in At(src, r).threads && (r == from || (r.Then? && InFlight(src, r.before, from, id)))
  }

  lemma CallsKeepWhatTheyAre(src: Both<Sources>, w: World, a: Action, id: nat)
    requires Sane(src, w) && Enabled(w, a) && id in w.threads && id in Next(src, w, a).threads
    ensures Next(src, w, a).threads[id] == w.threads[id].(pc := Next(src, w, a).threads[id].pc)
  {
    hide Spec.Step, MoveOf, CloseStep, ResetStep;
    if a.BeginClose? || a.AdvanceClose? {
      CloseLeavesCalls(src, w, a.end);
    } else if a.AdvanceReset? {
      ResetLeavesCalls(src, w);
    }
  }

  lemma {:induction false} CallsRememberTheirStart(src: Both<Sources>, r: Run, from: Run, id: nat, e: End, call: Call)
    requires src.client.Fair() && src.server.Fair() && Proper(src, r) && Proper(src, Then(from, Begin(id, e, call)))
    requires InFlight(src, r, Then(from, Begin(id, e, call)), id)
    ensures var th := At(src, r).threads[id];
            && th.end == e && th.call == call
            && th.startedClosed == At(src, from).closed.At(e) && th.startedReset == At(src, from).reset.At(e)
  {
    hide Enabled, AdvanceCall, CloseStep, ResetStep;
    if r == Then(from, Begin(id, e, call)) {
    } else {
      hide Next;
      CallsRememberTheirStart(src, r.before, from, id, e, call);
      CallsKeepWhatTheyAre(src, At(src, r.before), r.a, id);
    }
  }

  /** A call that starts after its end was closed can return nothing but that, and one that starts after its
      end was reset nothing but the reset, or a close that came after all. */
  lemma LateCallsFail(src: Both<Sources>, r: Run, from: Run, id: nat, e: End, call: Call, seen: Seen)
    requires src.client.Fair() && src.server.Fair() && Proper(src, r) && Proper(src, Then(from, Begin(id, e, call)))
    requires InFlight(src, r, Then(from, Begin(id, e, call)), id) && Enabled(At(src, r), Advance(id, seen))
    requires id !in Next(src, At(src, r), Advance(id, seen)).threads
    ensures var w, v := At(src, r), Next(src, At(src, r), Advance(id, seen));
            && |v.finished| == |w.finished| + 1
            && var result := v.finished[|w.finished|].result;
               && (At(src, from).closed.At(e) ==> result == ErrClosed)
               && (At(src, from).reset.At(e) ==> result == ErrClosed || result == ErrReset)
  {
    hide Try, Spec.Step, Safe, OutcomesSound, PipeSound;
    var w := At(src, r);
    var th := w.threads[id];
    CallsRememberTheirStart(src, r, from, id, e, call);
    RunStaysSound(src, r);
    assert ThreadSafe(w, th);
  }

  // ---- What calls report ----

  /** The bytes that returned reads of the end have reported. */
  function Reported(finished: seq<Outcome>, e: End): int {
    if finished == [] then 0
    else
      var o := finished[|finished| - 1];
      Reported(finished[..|finished| - 1], e)
      + if o.th.end == e && o.th.call.ReadCall? && o.result.Transferred? then o.result.n else 0
  }

  /** How many writes of the end have reported success. */
  function Succeeded(finished: seq<Outcome>, e: End): nat {
    if finished == [] then 0
    else
      var o := finished[|finished| - 1];
      Succeeded(finished[..|finished| - 1], e)
      + if o.th.end == e && o.th.call.WriteCall? && o.result.Transferred? then 1 else 0
  }

  ghost predicate Tallied(w: World, e: End) {
    && Reported(w.finished, e) == |w.pipes.At(Peer(e)).out|
    && Succeeded(w.finished, e) == |w.pipes.At(e).history|
  }

  lemma ReportsAppend(finished: seq<Outcome>, o: Outcome, e: End)
    ensures Reported(finished + [o], e)
         == Reported(finished, e) + if o.th.end == e && o.th.call.ReadCall? && o.result.Transferred? then o.result.n else 0
    ensures Succeeded(finished + [o], e)
         == Succeeded(finished, e) + if o.th.end == e && o.th.call.WriteCall? && o.result.Transferred? then 1 else 0
  {
    assert (finished + [o])[..|finished|] == finished;
  }

  /** A try moves as many bytes, or admits a write, exactly if it says so. */
  lemma TryDoesWhatItSays(src: Both<Sources>, w: World, th: Thread, seen: Seen)
    requires Sane(src, w) && (th.call.WriteCall? ==> |th.call.data| <= MAX_INT) && seen.cfg.Valid()
    ensures var p := w.pipes.At(PipeOf(th));
            var q := Spec.Step(src.At(PipeOf(th)), p, OpOf(w, th, seen));
            var answer := Try(src, w, th);
            && |q.out| == |p.out| + (if th.call.ReadCall? && answer.Done? then answer.n else 0)
            && |q.history| == |p.history| + (if th.call.WriteCall? && answer.Done? then 1 else 0)
  {
    hide Spec.Deliver, Spec.Take;
    var p := w.pipes.At(PipeOf(th));
    if th.call.WriteCall? && Try(src, w, th).Done? {
      DeliveryIsRecorded(src.At(PipeOf(th)), p.(clock := w.clock), OpOf(w, th, seen).a);
      assert |AdmissionsOf(p.history) + [OpOf(w, th, seen).a]| == |p.history| + 1;
    }
  }

  lemma CallIsTallied(src: Both<Sources>, w: World, id: nat, seen: Seen, e: End)
    requires Sane(src, w) && id in w.threads && seen.cfg.Valid() && Tallied(w, e)
    ensures Tallied(AdvanceCall(src, w, id, seen), e)
  {
    hide Spec.Step, Try, Reported, Succeeded;
    var th := w.threads[id];
    var m := MoveOf(src, w, th);
    if m.Finish? {
      ReportsAppend(w.finished, Outcome(th, m.result, DeadlineOf(w, th).t, w.clock), e);
    }
    if th.pc.TryPipe? {
      TryDoesWhatItSays(src, w, th, seen);
    }
  }

  /** An operation that is not a call's moves no byte and admits no write. */
  lemma OthersMoveNothing(src: Sources, s: Spec.State, op: Spec.Op)
    requires src.Fair() && (op.Fire? || op.CloseWriter? || op.AbortReader?)
    ensures Spec.Step(src, s, op).out == s.out && Spec.Step(src, s, op).history == s.history
  {
    hide Spec.Due;
  }

  lemma NextIsTallied(src: Both<Sources>, w: World, a: Action, e: End)
    requires Sane(src, w) && Enabled(w, a) && Tallied(w, e)
    ensures Tallied(Next(src, w, a), e)
  {
    hide Spec.Step, Reported, Succeeded, AdvanceCall, CloseStep, ResetStep;
    if a.Advance? {
      CallIsTallied(src, w, a.id, a.seen, e);
    } else {
      ActsOnOnePipe(src, w, a);
      if a.BeginClose? || a.AdvanceClose? {
        CloseLeavesCalls(src, w, a.end);
      } else if a.AdvanceReset? {
        ResetLeavesCalls(src, w);
      }
      var act := ActionOn(w, a);
      if act.On? {
        OthersMoveNothing(src.At(act.pipe), w.pipes.At(act.pipe), act.op);
      }
    }
  }

  /** In every run the bytes that returned reads have reported are as many as have left the pipe, and the
      writes that have reported success are as many as have been recorded: no byte is read twice, lost
      between calls or reported by a call that failed. */
  lemma {:induction false} CallsReportWhatHappened(src: Both<Sources>, r: Run, e: End)
    requires src.client.Fair() && src.server.Fair() && Proper(src, r)
    ensures var w := At(src, r);
            && Reported(w.finished, e) == |w.pipes.At(Peer(e)).out|
            && Succeeded(w.finished, e) == |w.pipes.At(e).history|
  {
    hide Next, Enabled, Reported, Succeeded;
    if r.Start? {
      NothingIsReported(e);
    } else {
      CallsReportWhatHappened(src, r.before, e);
      NextIsTallied(src, At(src, r.before), r.a, e);
    }
  }

  lemma NothingIsReported(e: End)
    ensures Reported([], e) == 0 && Succeeded([], e) == 0
  {}

  // ---- The end of the stream ----

  lemma {:induction false} PipesAreDetermined(src: Both<Sources>, r: Run, e: End)
    requires src.client.Fair() && src.server.Fair() && Proper(src, r)
    ensures Determined(src.At(e), At(src, r).pipes.At(e))
  {
    hide Next, Enabled, Determined, Spec.Step, ActionOn;
    if r.Start? {
      NothingIsDetermined(src.At(e), At(src, r).pipes.At(e));
    } else {
      var w := At(src, r.before);
      PipesAreDetermined(src, r.before, e);
      ActsOnOnePipe(src, w, r.a);
      var act := ActionOn(w, r.a);
      if act.On? && act.pipe == e {
        StepDetermined(src.At(e), w.pipes.At(e), act.op);
      }
    }
  }

  lemma NothingIsDetermined(src: Sources, s: Spec.State)
    requires src.Fair() && s.history == [] && s.pos == ORIGIN
    ensures Determined(src, s)
  {}

  /** A read that reports the end of the stream does so when all that ever arrives of the peer's writes has
      been read: every accepted payload in order, as often as its event says and byte for byte as written
      but for the recorded bit of a corrupted one. */
  lemma EndOfFileIsTheWholeStream(src: Both<Sources>, r: Run, i: nat)
    requires src.client.Fair() && src.server.Fair() && Proper(src, r) && i < |At(src, r).finished|
    requires At(src, r).finished[i].result == EndOfFile
    ensures var w := At(src, r);
            var p := w.pipes.At(Peer(w.finished[i].th.end));
            w.closed.At(Peer(w.finished[i].th.end)) && Delivers(p.history, p.out)
  {
    hide At, Next, Enabled, Delivers, Replay, Determined, Sited;
    var e := Peer(At(src, r).finished[i].th.end);
    ErrorsAreSound(src, r, i);
    PipesAreDetermined(src, r, e);
    DeterminedIsSited(src.At(e), At(src, r).pipes.At(e));
    ReplayDelivers(At(src, r).pipes.At(e).history);
  }
}
