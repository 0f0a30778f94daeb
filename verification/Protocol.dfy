/** conn.go and reset.go: one connection under any number of concurrent Read, Write, Close and Reset
    calls. A call is a sequence of atomic steps (check closed, check reset, look at the deadline, try the
    pipe, check again, wait), and steps of different calls interleave arbitrarily. */
module Protocol {
  import opened Words
  import opened Faults
  import opened Deadlines
  import opened Registry
  import Spec = PipeSpec

  datatype End = Client | Server

  function Peer(e: End): End { if e == Client then Server else Client }

  /** One value for each end. */
  datatype Both<T> = Both(client: T, server: T)
  {
    function At(e: End): T { if e == Client then client else server }

    function With(e: End, x: T): Both<T> { if e == Client then Both(x, server) else Both(client, x) }
  }

  datatype Call = ReadCall(len: nat) | WriteCall(data: Bytes)

  /** The channel a blocked call was told to wait on, as the generation it saw. */
  datatype Channel = OfPipe(notify: nat) | OfPartition(notify: nat)

  /** Where a call stands. `drained` is history: the pipe was not aborted when it gave its verdict. */
  datatype Pc =
    | CheckClosed
    | CheckReset
    | TakeChannel
    | CheckDeadline(gen: nat)
    | TryPipe(gen: nat)
    | CheckDeadlineAgain(gen: nat, channel: Channel)
    | CheckClosedAgain(drained: bool)
    | CheckResetAgain(drained: bool)
    | Waiting(gen: nat, channel: Channel)

  /** A call in flight. The two flags are history: what had happened to its end when it started. */
  datatype Thread = Thread(end: End, call: Call, pc: Pc, startedClosed: bool, startedReset: bool)

  datatype Result = Transferred(n: nat) | EndOfFile | Broken | ErrClosed | ErrReset | ErrTimeout

  /** A finished call, with the deadline on record and the clock when it returned. */
  datatype Outcome = Outcome(th: Thread, result: Result, deadline: Option<int>, at: int)

  /** A Reset that has taken its targets off the registry: how many it has signalled, and how many of
      their pipes it has aborted. */
  datatype Job = Job(targets: seq<End>, signalled: nat, aborted: nat)

  datatype World = World(
    pipes: Both<Spec.State>,        // the pipe each end writes
    closed: Both<bool>,             // the closed channel of each end
    reset: Both<bool>,              // the reset channel of each end
    closing: Both<nat>,             // how far each end's Close has come
    registry: seq<End>,             // what a Reset would still find
    job: Job,
    rd: Both<Timing>,
    wd: Both<Timing>,
    faults: FaultConfig,
    partitioned: bool,
    partNotify: nat,
    clock: int,
    threads: map<nat, Thread>,
    finished: seq<Outcome>)

  /** newConnPair, registered for Reset and not yet handed to anyone. */
  function Established(bound: int, tracing: bool, faults: FaultConfig, partitioned: bool, clock: int): World {
    var pipe := Spec.Fresh(bound, tracing);
    World(Both(pipe, pipe), Both(false, false), Both(false, false), Both(0, 0), [Client, Server], Job([], 0, 0),
          Both(UNSET, UNSET), Both(UNSET, UNSET), faults, partitioned, 0, clock, map[], [])
  }

  /** The deadline a call runs under, and the pipe it works on, by the end that writes it. */
  function DeadlineOf(w: World, th: Thread): Timing {
    if th.call.ReadCall? then w.rd.At(th.end) else w.wd.At(th.end)
  }

  function PipeOf(th: Thread): End {
    if th.call.ReadCall? then Peer(th.end) else th.end
  }

  /** What the evaluator of a write has read, one after the other, by the time it takes effect. */
  datatype Seen = Seen(partitioned: bool, cfg: FaultConfig)

  function Now(w: World): Seen { Seen(w.partitioned, w.faults) }

  /** The partition state may have changed since, the settings can only have grown, and no other write of
      the pipe has come in between. */
  predicate Plausible(w: World, th: Thread, seen: Seen) {
    th.call.WriteCall? ==>
      && seen.cfg.GrowsInto(w.faults)
      && var h := w.pipes.At(th.end).history; h != [] ==> h[|h| - 1].a.cfg.GrowsInto(seen.cfg)
  }

  function OpOf(w: World, th: Thread, seen: Seen): Spec.Op {
    match th.call
    case ReadCall(len) => Spec.Read(len, w.partitioned)
    case WriteCall(data) => Spec.Write(Admission(data, w.clock, seen.cfg, seen.partitioned))
  }

  // ---- The steps ----

  datatype Action =
    | Begin(id: nat, end: End, call: Call)
    | Advance(id: nat, seen: Seen)
    | BeginClose(end: End)
    | AdvanceClose(end: End)
    | BeginReset
    | AdvanceReset
    | SetDeadline(end: End, reading: bool, t: Option<int>)
    | RunDeadline(end: End, reading: bool)      // an armed callback whose time has come
    | StaleDeadline(end: End, reading: bool)    // a callback that Stop came too late for
    | RunRelease(end: End)                      // the release callback of the pipe end writes
    | TogglePartition
    | OtherPairPartition                        // Partition or Heal of some other pair
    | Configure(faults: FaultConfig)
    | Pass(now: int)

  /** How many steps a Close takes: its channel, the registry, the two pipes, the two deadlines. */
  const CLOSE_STEPS := 6

  ghost predicate Enabled(w: World, a: Action) {
    match a
    case Begin(id, _, call) => id !in w.threads && (call.WriteCall? ==> |call.data| <= MAX_INT)
    case Advance(id, seen) =>
      && id in w.threads
      && (w.threads[id].pc.Waiting? ==> Woken(w, w.threads[id]))
      && seen.cfg.Valid()
      && (w.threads[id].pc.TryPipe? ==> Plausible(w, w.threads[id], seen))
    case BeginClose(e) => w.closing.At(e) == 0
    case AdvanceClose(e) => 0 < w.closing.At(e) < CLOSE_STEPS
    case BeginReset => true
    case AdvanceReset => !JobDone(w.job)
    case RunDeadline(e, reading) =>
      var d := if reading then w.rd.At(e) else w.wd.At(e);
      d.timer.Some? && d.timer.value <= w.clock
    case Configure(faults) => w.faults.GrowsInto(faults) && faults.Valid()
    case Pass(now) => w.clock <= now
    case _ => true
  }

  predicate JobDone(j: Job) {
    j.signalled == |j.targets| && j.aborted == 2 * |j.targets|
  }

  /** One of the four channels a blocked call selects on has been closed. */
  predicate Woken(w: World, th: Thread) {
    th.pc.Waiting? && (
      || w.closed.At(th.end)
      || w.reset.At(th.end)
      || th.pc.gen != DeadlineOf(w, th).gen
      || match th.pc.channel
         case OfPipe(notify) => notify != w.pipes.At(PipeOf(th)).notify
         case OfPartition(notify) => notify != w.partNotify)
  }

  ghost function OnPipe(src: Both<Sources>, w: World, e: End, op: Spec.Op): World
    requires src.At(e).Fair() && (op.Write? ==> op.a.Valid())
  {
    w.(pipes := w.pipes.With(e, Spec.Step(src.At(e), w.pipes.At(e), op)))
  }

  function Goto(w: World, id: nat, pc: Pc): World
    requires id in w.threads
  {
    w.(threads := w.threads[id := w.threads[id].(pc := pc)])
  }

  function Return(w: World, id: nat, result: Result): World
    requires id in w.threads
  {
    var th := w.threads[id];
    w.(threads := w.threads - {id},
       finished := w.finished + [Outcome(th, result, DeadlineOf(w, th).t, w.clock)])
  }

  ghost predicate Sane(src: Both<Sources>, w: World) {
    && src.client.Fair() && src.server.Fair()
    && w.faults.Valid() && 0 <= w.clock
    && forall id | id in w.threads && w.threads[id].call.WriteCall? :: |w.threads[id].call.data| <= MAX_INT
  }

  /** What the pipe answers a call that tries it now. */
  datatype Answer = Done(n: nat) | Failed | Wait(channel: Channel)

  function ReadAnswer(r: Spec.ReadResult, partNotify: nat): Answer {
    match r
    case Got(bytes) => Done(|bytes|)
    case Eof => Failed
    case ReadWaits(notify) => Wait(OfPipe(notify))
    case WaitsForHeal => Wait(OfPartition(partNotify))
  }

  function WriteAnswer(r: Spec.WriteResult): Answer {
    match r
    case Accepted(n) => Done(n)
    case BrokenPipe => Failed
    case WriteBlocks(notify) => Wait(OfPipe(notify))
  }

  ghost function Try(src: Both<Sources>, w: World, th: Thread): Answer
    requires Sane(src, w) && (th.call.WriteCall? ==> |th.call.data| <= MAX_INT)
  {
    var p := w.pipes.At(PipeOf(th));
    match th.call
    case ReadCall(len) => ReadAnswer(Spec.TryRead(p, len, w.partitioned).1, w.partNotify)
    case WriteCall(data) => WriteAnswer(Spec.TryWrite(src.At(th.end), p, OpOf(w, th, Now(w)).a).1)
  }

  datatype Move = Go(pc: Pc) | Finish(result: Result)

  /** Where one step takes a call. */
  ghost function MoveOf(src: Both<Sources>, w: World, th: Thread): Move
    requires Sane(src, w) && (th.call.WriteCall? ==> |th.call.data| <= MAX_INT)
  {
    var e := th.end;
    match th.pc
    case CheckClosed => if w.closed.At(e) then Finish(ErrClosed) else Go(CheckReset)
    case CheckReset => if w.reset.At(e) then Finish(ErrReset) else Go(TakeChannel)
    case TakeChannel => Go(CheckDeadline(DeadlineOf(w, th).gen))
    case CheckDeadline(gen) => if Expired(DeadlineOf(w, th), w.clock) then Finish(ErrTimeout) else Go(TryPipe(gen))
    case TryPipe(gen) =>
      (match Try(src, w, th)
       case Done(n) => Finish(Transferred(n))
       case Failed => Go(CheckClosedAgain(!w.pipes.At(PipeOf(th)).readClosed))
       case Wait(channel) =>
         Go(if th.call.WriteCall? then CheckDeadlineAgain(gen, channel) else Waiting(gen, channel)))
    case CheckDeadlineAgain(gen, channel) =>
      if Expired(DeadlineOf(w, th), w.clock) then Finish(ErrTimeout) else Go(Waiting(gen, channel))
    case CheckClosedAgain(drained) => if w.closed.At(e) then Finish(ErrClosed) else Go(CheckResetAgain(drained))
    case CheckResetAgain(_) =>
      Finish(if w.reset.At(e) then ErrReset else if th.call.ReadCall? then EndOfFile else Broken)
    case Waiting(_, _) => Go(CheckClosed)
  }

  /** One step of a call: only the one that tries the pipe touches it. */
  ghost function AdvanceCall(src: Both<Sources>, w: World, id: nat, seen: Seen): World
    requires Sane(src, w) && id in w.threads && seen.cfg.Valid()
  {
    var th := w.threads[id];
    var v := if th.pc.TryPipe? then OnPipe(src, w, PipeOf(th), OpOf(w, th, seen)) else w;
    match MoveOf(src, w, th)
    case Go(pc) => Goto(v, id, pc)
    case Finish(result) => Return(v, id, result)
  }

  /** The step after the first k of a Close. */
  ghost function CloseStep(src: Both<Sources>, w: World, e: End, k: nat): World
    requires Sane(src, w)
  {
    var w := w.(closing := w.closing.With(e, k + 1));
    if k == 0 then w.(closed := w.closed.With(e, true))
    else if k == 1 then w.(registry := Without(w.registry, e))
    else if k == 2 then OnPipe(src, w, e, Spec.CloseWriter)
    else if k == 3 then OnPipe(src, w, Peer(e), Spec.AbortReader)
    else if k == 4 then w.(rd := w.rd.With(e, Stop(w.rd.At(e))))
    else w.(wd := w.wd.With(e, Stop(w.wd.At(e))))
  }

  /** Reset signals every target before it aborts any pipe: first the one each target writes, then the
      one it reads. */
  ghost function ResetStep(src: Both<Sources>, w: World): World
    requires Sane(src, w) && !JobDone(w.job)
  {
    var j := w.job;
    if j.signalled < |j.targets| then
      w.(reset := w.reset.With(j.targets[j.signalled], true), job := j.(signalled := j.signalled + 1))
    else if j.aborted < 2 * |j.targets| then
      var e := j.targets[j.aborted / 2];
      OnPipe(src, w, if j.aborted % 2 == 0 then e else Peer(e), Spec.AbortReader).(job := j.(aborted := j.aborted + 1))
    else w
  }

  ghost function Next(src: Both<Sources>, w: World, a: Action): World
    requires Sane(src, w) && Enabled(w, a)
  {
    match a
    case Begin(id, e, call) =>
      w.(threads := w.threads[id := Thread(e, call, CheckClosed, w.closed.At(e), w.reset.At(e))])
    case Advance(id, seen) => AdvanceCall(src, w, id, seen)
    case BeginClose(e) => CloseStep(src, w, e, 0)
    case AdvanceClose(e) => CloseStep(src, w, e, w.closing.At(e))
    case BeginReset =>
      // A Reset takes what is registered; one that finds nothing has nothing to do.
      if w.registry == [] then w else w.(registry := [], job := Job(w.registry, 0, 0))
    case AdvanceReset => ResetStep(src, w)
    case SetDeadline(e, reading, t) => OnDeadline(w, e, reading, Set(TimingOf(w, e, reading), t, w.clock))
    case RunDeadline(e, reading) => OnDeadline(w, e, reading, Fire(TimingOf(w, e, reading)))
    case StaleDeadline(e, reading) =>
      OnDeadline(w, e, reading, TimingOf(w, e, reading).(gen := TimingOf(w, e, reading).gen + 1))
    case RunRelease(e) => OnPipe(src, w, e, Spec.Fire(w.clock))
    case TogglePartition => w.(partitioned := !w.partitioned, partNotify := w.partNotify + 1)
    case OtherPairPartition => w.(partNotify := w.partNotify + 1)
    case Configure(faults) => w.(faults := faults)
    case Pass(now) => w.(clock := now)
  }

  function TimingOf(w: World, e: End, reading: bool): Timing {
    if reading then w.rd.At(e) else w.wd.At(e)
  }

  function OnDeadline(w: World, e: End, reading: bool, d: Timing): World {
    if reading then w.(rd := w.rd.With(e, d)) else w.(wd := w.wd.With(e, d))
  }
}
