/** No wake-up is missed: a call that waits, and that anything has made able to go on, has had one of the
    four channels it waits on closed. */
module ProtocolWaking {
  import opened Words
  import opened Faults
  import opened Deadlines
  import opened Protocol
  import opened Registry
  import opened ProtocolSafety
  import opened ProtocolRuns
  import opened PipeInvariant
  import opened PipeRuns
  import Spec = PipeSpec

  // ---- Why a pipe keeps a call waiting ----

  /** There is nothing to read and the end of the stream is not in sight. */
  predicate Starved(s: Spec.State) {
    !s.readClosed && s.readable == [] && !(s.closed && s.pending == [])
  }

  /** There is no room for the payload. */
  predicate Full(s: Spec.State, size: nat) {
    !s.closed && !s.readClosed && !Spec.Admits(s, size)
  }

  /** The stream has ended and only the partition keeps the reader from being told. */
  predicate Muted(s: Spec.State) {
    s.readClosed || (s.closed && s.readable == [] && s.pending == [] && !s.eofSeen)
  }

  predicate Blocked(s: Spec.State, call: Call) {
    match call
    case ReadCall(_) => Starved(s)
    case WriteCall(data) => Full(s, |data|)
  }

  // ---- Why a call still waits ----

  /** The generation the call holds is not from the future; if it is the current one, the reason for
      which the call was told to wait still stands. */
  predicate ChannelHolds(w: World, th: Thread, channel: Channel) {
    match channel
    case OfPipe(n) =>
      var p := w.pipes.At(PipeOf(th));
      n <= p.notify && (n == p.notify ==> Blocked(p, th.call))
    case OfPartition(n) =>
      n <= w.partNotify && (n == w.partNotify ==> th.call.ReadCall? && w.partitioned && Muted(w.pipes.At(PipeOf(th))))
  }

  /** A callback is armed for the deadline on record, unless that has passed or Close has stopped it. */
  predicate Scheduled(w: World, d: Timing, e: End) {
    && (d.timer.Some? ==> d.timer == d.t)
    && (d.t.Some? && d.timer.None? ==> d.t.value <= w.clock || w.closed.At(e))
  }

  /** A generation taken before the deadline was found good vouches for it as long as it is current. */
  predicate Vouched(w: World, th: Thread, gen: nat) {
    var d := DeadlineOf(w, th);
    gen <= d.gen && (gen == d.gen ==> d.t.None? || d.timer == d.t || w.closed.At(th.end))
  }

  predicate Patient(w: World, th: Thread) {
    match th.pc
    case CheckDeadline(gen) => gen <= DeadlineOf(w, th).gen
    case TryPipe(gen) => Vouched(w, th, gen)
    case CheckDeadlineAgain(gen, channel) => Vouched(w, th, gen) && ChannelHolds(w, th, channel)
    case Waiting(gen, channel) => Vouched(w, th, gen) && ChannelHolds(w, th, channel)
    case _ => true
  }

  predicate DeadlinesScheduled(w: World, e: End) {
    Scheduled(w, w.rd.At(e), e) && Scheduled(w, w.wd.At(e), e)
  }

  ghost predicate Attentive(w: World) {
    && DeadlinesScheduled(w, Client) && DeadlinesScheduled(w, Server)
    && forall id | id in w.threads :: Patient(w, w.threads[id])
  }

  // ---- A step that closes no channel leaves every reason standing ----

  /** A pipe operation that replaces no channel changes no reason to wait for it. */
  ghost predicate PipeCalm(s: Spec.State, t: Spec.State) {
    && s.notify <= t.notify
    && (s.notify == t.notify ==>
          && (Starved(s) ==> Starved(t))
          && (forall size: nat :: Full(s, size) ==> Full(t, size)))
  }

  lemma WriteIsCalm(src: Sources, s: Spec.State, a: Admission)
    requires src.Fair() && a.Valid() && 0 <= s.bufBytes
    ensures PipeCalm(s, Spec.TryWrite(src, s, a).0)
  {
    hide Spec.Base, Spec.LinkDelay, Decide, Copies, Spec.ReleaseAt, Spec.Total;
  }

  lemma StepIsCalm(src: Sources, s: Spec.State, op: Spec.Op)
    requires src.Fair() && (op.Write? ==> op.a.Valid()) && Inv(s)
    ensures PipeCalm(s, Spec.Step(src, s, op))
  {
    hide Spec.TryWrite, Spec.Take, Explained, OnSchedule, Recorded, Linked;
    if op.Write? {
      WriteIsCalm(src, s, op.a);
    }
  }

  /** While the partition lasts, nothing but an abort changes a stream that has ended unannounced. */
  lemma StepStaysMuted(src: Sources, s: Spec.State, op: Spec.Op)
    requires src.Fair() && (op.Write? ==> op.a.Valid()) && Muted(s) && (op.Read? ==> op.partitioned)
    ensures Muted(Spec.Step(src, s, op))
  {
    hide Spec.Deliver;
  }

  predicate TimingCalm(d: Timing, d': Timing, closed: bool) {
    d.gen <= d'.gen && (d.gen == d'.gen ==> d' == d || (d'.t == d.t && closed))
  }

  /** What a step does to the reasons for which calls wait. */
  ghost predicate Calm(w: World, v: World) {
    && w.partNotify <= v.partNotify
    && (w.partNotify == v.partNotify ==> v.partitioned == w.partitioned)
    && forall e: End ::
         && PipeCalm(w.pipes.At(e), v.pipes.At(e))
         && (w.partNotify == v.partNotify && w.partitioned && Muted(w.pipes.At(e)) ==> Muted(v.pipes.At(e)))
         && TimingCalm(w.rd.At(e), v.rd.At(e), v.closed.At(e))
         && TimingCalm(w.wd.At(e), v.wd.At(e), v.closed.At(e))
         && (w.closed.At(e) ==> v.closed.At(e))
  }

  lemma CallStaysPatient(w: World, v: World, th: Thread)
    requires Calm(w, v) && Patient(w, th)
    ensures Patient(v, th)
  {
    hide Starved, Full, Muted;
    var e := PipeOf(th);
    assert PipeCalm(w.pipes.At(e), v.pipes.At(e));
    assert TimingCalm(w.rd.At(th.end), v.rd.At(th.end), v.closed.At(th.end));
    assert TimingCalm(w.wd.At(th.end), v.wd.At(th.end), v.closed.At(th.end));
  }

  lemma PipesStayCalm(src: Both<Sources>, w: World, a: Action, e: End)
    requires Sane(src, w) && Enabled(w, a) && Inv(w.pipes.At(e))
    ensures var v := Next(src, w, a);
            && PipeCalm(w.pipes.At(e), v.pipes.At(e))
            && (w.partitioned && Muted(w.pipes.At(e)) ==> Muted(v.pipes.At(e)))
  {
    hide Spec.Step, Inv, Next, Muted, Starved, Full;
    ActsOnOnePipe(src, w, a);
    var act := ActionOn(w, a);
    if act.On? && act.pipe == e {
      StepIsCalm(src.At(e), w.pipes.At(e), act.op);
      if w.partitioned && Muted(w.pipes.At(e)) {
        StepStaysMuted(src.At(e), w.pipes.At(e), act.op);
      }
    }
  }

  /** The partition flag changes only with its channel, a deadline only with its own. */
  ghost predicate ControlsCalm(w: World, v: World) {
    && w.partNotify <= v.partNotify
    && (w.partNotify == v.partNotify ==> v.partitioned == w.partitioned)
    && forall e: End ::
         && TimingCalm(w.rd.At(e), v.rd.At(e), v.closed.At(e))
         && TimingCalm(w.wd.At(e), v.wd.At(e), v.closed.At(e))
         && (w.closed.At(e) ==> v.closed.At(e))
         && (DeadlinesScheduled(w, e) ==> DeadlinesScheduled(v, e))
  }

  lemma CallsLeaveControls(src: Both<Sources>, w: World, id: nat, seen: Seen)
    requires Sane(src, w) && id in w.threads
    requires seen.cfg.Valid()
    ensures ControlsCalm(w, AdvanceCall(src, w, id, seen))
  {
    hide Spec.Step, MoveOf;
  }

  lemma ClosesLeaveControls(src: Both<Sources>, w: World, e: End, k: nat)
    requires Sane(src, w) && Closing(w, e) && (k == w.closing.At(e) < CLOSE_STEPS)
    ensures ControlsCalm(w, CloseStep(src, w, e, k))
  {
    hide Spec.Step, Without, ControlsCalm;
    var v := CloseStep(src, w, e, k);
    if k == 0 {
      ClosingIsCalm(w, v, e);
    } else if k < 4 {
      NothingIsCalm(w, v);
    } else {
      StoppingIsCalm(w, v, e);
    }
  }

  lemma ClosingIsCalm(w: World, v: World, e: End)
    requires v.rd == w.rd && v.wd == w.wd && v.closed == w.closed.With(e, true) && v.clock == w.clock
    requires v.partNotify == w.partNotify && v.partitioned == w.partitioned
    ensures ControlsCalm(w, v)
  {}

  /** Close stops the timers of an end that is closed already. */
  lemma StoppingIsCalm(w: World, v: World, e: End)
    requires w.closed.At(e) && v.closed == w.closed && v.clock == w.clock
    requires v.partNotify == w.partNotify && v.partitioned == w.partitioned
    requires v.rd == w.rd || v.rd == w.rd.With(e, Stop(w.rd.At(e)))
    requires v.wd == w.wd || v.wd == w.wd.With(e, Stop(w.wd.At(e)))
    ensures ControlsCalm(w, v)
  {}

  lemma ResetsLeaveControls(src: Both<Sources>, w: World)
    requires Sane(src, w) && !JobDone(w.job)
    ensures ControlsCalm(w, ResetStep(src, w))
  {
    hide Spec.Step;
  }

  lemma ControlsStayCalm(src: Both<Sources>, w: World, a: Action)
    requires Sane(src, w) && Enabled(w, a) && Safe(w)
    ensures ControlsCalm(w, Next(src, w, a))
  {
    hide Spec.Step, AdvanceCall, CloseStep, ResetStep, ControlsCalm, OnDeadline;
    match a
    case Advance(id, seen) => CallsLeaveControls(src, w, id, seen);
    case BeginClose(e) => ClosesLeaveControls(src, w, e, 0);
    case AdvanceClose(e) => ClosesLeaveControls(src, w, e, w.closing.At(e));
    case AdvanceReset => ResetsLeaveControls(src, w);
    case SetDeadline(e, reading, t) => NewDeadlineIsCalm(w, e, reading, Set(TimingOf(w, e, reading), t, w.clock));
    case RunDeadline(e, reading) => NewDeadlineIsCalm(w, e, reading, Fire(TimingOf(w, e, reading)));
    case StaleDeadline(e, reading) =>
      var d := TimingOf(w, e, reading);
      NewDeadlineIsCalm(w, e, reading, d.(gen := d.gen + 1));
    case _ => NothingIsCalm(w, Next(src, w, a));
  }

  /** Setting a deadline and running a callback, live or stale, all replace the channel. */
  lemma NewDeadlineIsCalm(w: World, e: End, reading: bool, d: Timing)
    requires TimingOf(w, e, reading).gen < d.gen
    requires Scheduled(w, TimingOf(w, e, reading), e) ==> Scheduled(w, d, e)
    ensures ControlsCalm(w, OnDeadline(w, e, reading, d))
  {}

  lemma NothingIsCalm(w: World, v: World)
    requires v.rd == w.rd && v.wd == w.wd && v.closed == w.closed && w.clock <= v.clock
    requires w.partNotify <= v.partNotify && (w.partNotify == v.partNotify ==> v.partitioned == w.partitioned)
    ensures ControlsCalm(w, v)
  {}

  lemma NextIsCalm(src: Both<Sources>, w: World, a: Action)
    requires Sane(src, w) && Enabled(w, a) && Sound(w)
    ensures Calm(w, Next(src, w, a))
    ensures DeadlinesScheduled(w, Client) ==> DeadlinesScheduled(Next(src, w, a), Client)
    ensures DeadlinesScheduled(w, Server) ==> DeadlinesScheduled(Next(src, w, a), Server)
  {
    hide Safe, ThreadsSafe, OutcomesSound, Inv, Recent, Complete, Next, Enabled, Muted, PipeCalm, TimingCalm,
         DeadlinesScheduled;
    ControlsStayCalm(src, w, a);
    PipesStayCalm(src, w, a, Client);
    PipesStayCalm(src, w, a, Server);
  }

  // ---- The call that takes the step ----

  lemma TryBlocks(src: Both<Sources>, w: World, th: Thread, seen: Seen)
    requires Sane(src, w) && (th.call.WriteCall? ==> |th.call.data| <= MAX_INT) && seen.cfg.Valid()
    requires Try(src, w, th).Wait?
    ensures ChannelHolds(OnPipe(src, w, PipeOf(th), OpOf(w, th, seen)), th, Try(src, w, th).channel)
  {
    hide Spec.Take, Spec.Deliver;
    if th.call.ReadCall? {
      TakeSplitsStream(w.pipes.At(PipeOf(th)).readable, th.call.len);
    }
  }

  lemma MoveIsPatient(src: Both<Sources>, w: World, th: Thread, seen: Seen)
    requires Sane(src, w) && (th.call.WriteCall? ==> |th.call.data| <= MAX_INT)
    requires seen.cfg.Valid()
    requires Patient(w, th) && DeadlinesScheduled(w, th.end)
    ensures var v := if th.pc.TryPipe? then OnPipe(src, w, PipeOf(th), OpOf(w, th, seen)) else w;
            var m := MoveOf(src, w, th);
            m.Go? ==> Patient(v, th.(pc := m.pc))
  {
    hide Try, Spec.Step, ChannelHolds;
    if th.pc.TryPipe? && Try(src, w, th).Wait? {
      TryBlocks(src, w, th, seen);
      var v := OnPipe(src, w, PipeOf(th), OpOf(w, th, seen));
      assert Vouched(v, th, th.pc.gen);
      SameReason(v, th, th.(pc := MoveOf(src, w, th).pc));
    } else if th.pc.CheckDeadlineAgain? {
      SameReason(w, th, th.(pc := Waiting(th.pc.gen, th.pc.channel)));
    }
  }

  lemma SameReason(w: World, th: Thread, th': Thread)
    requires th' == th.(pc := th'.pc)
    ensures forall channel :: ChannelHolds(w, th, channel) ==> ChannelHolds(w, th', channel)
    ensures forall gen :: Vouched(w, th, gen) ==> Vouched(w, th', gen)
  {}

  lemma AdvancedIsPatient(src: Both<Sources>, w: World, id: nat, seen: Seen)
    requires Sane(src, w) && id in w.threads && Patient(w, w.threads[id]) && DeadlinesScheduled(w, w.threads[id].end)
    requires seen.cfg.Valid()
    ensures var v := AdvanceCall(src, w, id, seen); id in v.threads ==> Patient(v, v.threads[id])
  {
    hide Spec.Step, MoveOf, ChannelHolds, Patient;
    var th := w.threads[id];
    MoveIsPatient(src, w, th, seen);
    var u := if th.pc.TryPipe? then OnPipe(src, w, PipeOf(th), OpOf(w, th, seen)) else w;
    var m := MoveOf(src, w, th);
    if m.Go? {
      ThreadsDoNotMatter(u, Goto(u, id, m.pc), th.(pc := m.pc));
    }
  }

  lemma ThreadsDoNotMatter(w: World, v: World, th: Thread)
    requires v == w.(threads := v.threads) && Patient(w, th)
    ensures Patient(v, th)
  {}

  // ---- Every run ----

  lemma OthersStayPatient(w: World, v: World, id: nat)
    requires Calm(w, v) && forall i | i in w.threads :: Patient(w, w.threads[i])
    requires forall i | i in v.threads && i != id :: i in w.threads && v.threads[i] == w.threads[i]
    requires id in v.threads ==> Patient(v, v.threads[id])
    ensures forall i | i in v.threads :: Patient(v, v.threads[i])
  {
    hide Calm, Patient;
    forall i | i in v.threads && i != id
      ensures Patient(v, v.threads[i])
    {
      CallStaysPatient(w, v, w.threads[i]);
    }
  }

  lemma AllStayPatient(w: World, v: World)
    requires Calm(w, v) && v.threads == w.threads && forall i | i in w.threads :: Patient(w, w.threads[i])
    ensures forall i | i in v.threads :: Patient(v, v.threads[i])
  {
    hide Calm, Patient;
    forall i | i in v.threads
      ensures Patient(v, v.threads[i])
    {
      CallStaysPatient(w, v, w.threads[i]);
    }
  }

  lemma NextStaysAttentive(src: Both<Sources>, w: World, a: Action)
    requires Sane(src, w) && Enabled(w, a) && Sound(w) && Attentive(w)
    ensures Attentive(Next(src, w, a))
  {
    hide Spec.Step, Sound, Calm, Patient, DeadlinesScheduled, AdvanceCall, CloseStep, ResetStep;
    var v := Next(src, w, a);
    NextIsCalm(src, w, a);
    match a {
      case Advance(id, seen) =>
        assert w.threads[id].end == Client || w.threads[id].end == Server;
        AdvancedIsPatient(src, w, id, seen);
        AdvanceLeavesOthers(src, w, id, seen);
        OthersStayPatient(w, v, id);
      case Begin(id, _, _) =>
        assert Patient(v, v.threads[id]) by { NewIsPatient(v, v.threads[id]); }
        OthersStayPatient(w, v, id);
      case BeginClose(e) => CloseLeavesCalls(src, w, e); AllStayPatient(w, v);
      case AdvanceClose(e) => CloseLeavesCalls(src, w, e); AllStayPatient(w, v);
      case AdvanceReset => ResetLeavesCalls(src, w); AllStayPatient(w, v);
      case _ => AllStayPatient(w, v);
    }
  }

  lemma NewIsPatient(w: World, th: Thread)
    requires th.pc == CheckClosed
    ensures Patient(w, th)
  {}

  lemma {:induction false} RunStaysAttentive(src: Both<Sources>, r: Run)
    requires src.client.Fair() && src.server.Fair() && Proper(src, r)
    ensures Attentive(At(src, r))
  {
    hide Next, Enabled, Sound, Patient;
    if r.Start? {
    } else {
      RunStaysAttentive(src, r.before);
      RunStaysSound(src, r.before);
      NextStaysAttentive(src, At(src, r.before), r.a);
    }
  }

  // ---- The theorem ----

  /** The call would not go back to waiting if it looked again now. */
  ghost predicate CouldGoOn(src: Both<Sources>, w: World, th: Thread)
    requires Sane(src, w) && (th.call.WriteCall? ==> |th.call.data| <= MAX_INT)
  {
    || w.closed.At(th.end)
    || w.reset.At(th.end)
    || Expired(DeadlineOf(w, th), w.clock)
    || !Try(src, w, th).Wait?
  }

  /** The deadline's callback is armed and due, and will announce it. */
  predicate CallbackDue(w: World, th: Thread) {
    DeadlineOf(w, th).timer.Some? && DeadlineOf(w, th).timer.value <= w.clock
  }

  lemma BlockedTryWaits(src: Both<Sources>, w: World, th: Thread)
    requires Sane(src, w) && (th.call.WriteCall? ==> |th.call.data| <= MAX_INT)
    ensures Blocked(w.pipes.At(PipeOf(th)), th.call) ==> Try(src, w, th).Wait?
    ensures var p := w.pipes.At(PipeOf(th));
            th.call.ReadCall? && w.partitioned && Muted(p) && !p.readClosed ==> Try(src, w, th).Wait?
  {
    hide Spec.Deliver;
  }

  /** In no reachable state is there a call that waits although it could go on and that nothing is about
      to wake: one of its channels has been closed, or its deadline has just passed and the callback that
      closes the channel is due. */
  lemma NoWakeupIsLost(src: Both<Sources>, r: Run, id: nat)
    requires src.client.Fair() && src.server.Fair() && Proper(src, r)
    requires var w := At(src, r); id in w.threads && w.threads[id].pc.Waiting?
    ensures var w := At(src, r);
            CouldGoOn(src, w, w.threads[id]) ==> Woken(w, w.threads[id]) || CallbackDue(w, w.threads[id])
  {
    hide At, Next, Enabled, Try, Blocked, Muted, ThreadsSafe, OutcomesSound, PipeSound, Resetting;
    var w := At(src, r);
    var th := w.threads[id];
    RunStaysAttentive(src, r);
    RunStaysSound(src, r);
    BlockedTryWaits(src, w, th);
    assert Patient(w, th);
    assert DeadlinesScheduled(w, th.end);
  }

  /** What an unwoken call is waiting for is still to come: a reader for units that a timer is armed for,
      for a writer that has not closed, or for the partition to heal; a writer for a reader to take bytes
      that are really there. */
  lemma WaitingHasAReason(src: Both<Sources>, r: Run, id: nat)
    requires src.client.Fair() && src.server.Fair() && Proper(src, r)
    requires var w := At(src, r); id in w.threads && w.threads[id].pc.Waiting? && !Woken(w, w.threads[id])
    ensures var w := At(src, r);
            var p := w.pipes.At(PipeOf(w.threads[id]));
            && !p.readClosed
            && match w.threads[id].call
               case ReadCall(_) =>
                 && p.readable == []
                 && (p.pending != [] ==> p.timer == Some(p.pending[0].releaseAt))
                 && (p.pending == [] ==> !p.closed || w.partitioned)
               case WriteCall(data) => 0 < p.bufBytes && p.bound < p.bufBytes + |data|
  {
    hide At, Next, Enabled, ThreadsSafe, OutcomesSound, Recent, Complete, Resetting, Explained, OnSchedule, Recorded, Linked;
    var w := At(src, r);
    RunStaysAttentive(src, r);
    RunStaysSound(src, r);
    assert Patient(w, w.threads[id]);
    assert Inv(w.pipes.At(PipeOf(w.threads[id])));
  }
}
