/** conn.go in its own form: one end of a connection, one pass of the retry loops of Read and Write when
    nothing runs in between, Close, and the two halves of a reset. */
module Conn {
  import opened Words
  import opened Faults
  import opened Controls
  import opened Registry
  import opened Deadlines
  import opened Protocol
  import opened ProtocolRuns
  import Spec = PipeSpec
  import P = Pipe

  /** How a pass ends: with a result, or waiting on channels of these generations. */
  datatype Pass = Returns(result: Result) | Waits(gen: nat, channel: Channel)

  /** The order of precedence: a local close, a reset, the deadline, and only then the pipe. A Write that
      would have to wait looks at its deadline a second time, at a later instant. */
  function Verdict(closed: bool, reset: bool, d: Timing, now: int, later: int, answer: Answer, reading: bool): Pass {
    if closed then Returns(ErrClosed)
    else if reset then Returns(ErrReset)
    else if Expired(d, now) then Returns(ErrTimeout)
    else
      match answer
      case Done(n) => Returns(Transferred(n))
      case Failed => Returns(if reading then EndOfFile else Broken)
      case Wait(channel) => if !reading && Expired(d, later) then Returns(ErrTimeout) else Waits(d.gen, channel)
  }

  class Conn {
    const readPipe: P.Pipe
    const writePipe: P.Pipe
    const rd: Deadline
    const wd: Deadline
    const registry: ResetRegistry<Conn>
    const pair: PairKey
    var closed: bool
    var reset: bool

    constructor (readPipe: P.Pipe, writePipe: P.Pipe, registry: ResetRegistry<Conn>, pair: PairKey)
      requires readPipe.Valid() && writePipe.Valid() && readPipe.network == writePipe.network
      requires readPipe.Parts() !! writePipe.Parts() && registry !in readPipe.Parts() + writePipe.Parts()
      ensures Valid() && !closed && !reset && rd.View() == UNSET && wd.View() == UNSET
      ensures this.readPipe == readPipe && this.writePipe == writePipe && this.registry == registry && this.pair == pair
    {
      this.readPipe := readPipe;
      this.writePipe := writePipe;
      this.registry := registry;
      this.pair := pair;
      closed, reset := false, false;
      rd := new Deadline();
      wd := new Deadline();
    }

    ghost predicate Valid()
      reads readPipe.network, writePipe.network
    {
      && readPipe.Valid() && writePipe.Valid()
      && readPipe.network == writePipe.network
      && readPipe.Parts() !! writePipe.Parts()
      && rd != wd
      && registry !in readPipe.Parts() + writePipe.Parts()
      && this !in readPipe.Parts() + writePipe.Parts()
    }

    /** The pipes are untouched unless the checks let the call through to them. */
    ghost predicate Passes(now: int, d: Deadline)
      reads this, d
    {
      !closed && !reset && !Expired(d.View(), now)
    }

    method ReadPass(b: array<bv8>, now: int) returns (r: Pass)
      requires Valid()
      modifies readPipe, b
      ensures Valid()
      ensures var tried := Spec.TryRead(old(readPipe.View()), b.Length, readPipe.pair in readPipe.network.partitions);
              && r == Verdict(closed, reset, rd.View(), now, now, ReadAnswer(tried.1, readPipe.network.partNotify), true)
              && readPipe.View() == (if Passes(now, rd) then tried.0 else old(readPipe.View()))
    {
      hide Spec.TryRead;
      if closed {
        return Returns(ErrClosed);
      }
      if reset {
        return Returns(ErrReset);
      }
      var gen := rd.Channel();
      var expired := rd.IsExpired(now);
      if expired {
        return Returns(ErrTimeout);
      }
      var answer := readPipe.TryRead(b);
      match answer
      case Got(bytes) => r := Returns(Transferred(|bytes|));
      case Eof => r := Returns(if closed then ErrClosed else if reset then ErrReset else EndOfFile);
      case ReadWaits(notify) => r := Waits(gen, OfPipe(notify));
      case WaitsForHeal => r := Waits(gen, OfPartition(readPipe.network.partNotify));
    }

    /** data is the private copy that every pass of one Write offers. */
    method WritePass(data: array<bv8>, now: int, later: int) returns (r: Pass)
      requires Valid() && data.Length <= MAX_INT && 0 <= now <= later
      modifies writePipe.Parts(), data
      ensures Valid()
      ensures var a := Admission(old(data[..]), now, writePipe.network.faults, writePipe.pair in writePipe.network.partitions);
              var tried := Spec.TryWrite(writePipe.Streams(), old(writePipe.View()), a);
              && r == Verdict(old(closed), old(reset), old(wd.View()), now, later, WriteAnswer(tried.1), false)
              && writePipe.View() == (if old(Passes(now, wd)) then tried.0 else old(writePipe.View()))
    {
      hide Spec.TryWrite;
      if closed {
        return Returns(ErrClosed);
      }
      if reset {
        return Returns(ErrReset);
      }
      var gen := wd.Channel();
      var expired := wd.IsExpired(now);
      if expired {
        return Returns(ErrTimeout);
      }
      var answer := writePipe.TryWrite(data, now);
      match answer
      case Accepted(n) => r := Returns(Transferred(n));
      case BrokenPipe => r := Returns(if closed then ErrClosed else if reset then ErrReset else Broken);
      case WriteBlocks(notify) =>
        var late := wd.IsExpired(later);
        r := if late then Returns(ErrTimeout) else Waits(gen, OfPipe(notify));
    }

    /** The first Close takes the end off the registry, ends its own stream gracefully, aborts the one it
        reads and stops the timers; another does nothing. */
    method Close()
      requires Valid()
      modifies this`closed, registry, readPipe, writePipe, rd, wd
      ensures Valid() && closed
      ensures registry.targets == if old(closed) then old(registry.targets)
                                  else Apply(old(registry.targets), Op.Deregister(pair, this))
      ensures writePipe.View() == if old(closed) then old(writePipe.View()) else Spec.Close(old(writePipe.View()))
      ensures readPipe.View() == if old(closed) then old(readPipe.View()) else Spec.Abort(old(readPipe.View()))
      ensures rd.View() == if old(closed) then old(rd.View()) else Stop(old(rd.View()))
      ensures wd.View() == if old(closed) then old(wd.View()) else Stop(old(wd.View()))
    {
      hide Spec.Close, Spec.Abort, Apply, Stop;
      if closed {
        return;
      }
      closed := true;
      registry.Deregister(pair, this);
      TearDown();
    }

    method TearDown()
      requires Valid()
      modifies readPipe, writePipe, rd, wd
      ensures writePipe.View() == Spec.Close(old(writePipe.View()))
      ensures readPipe.View() == Spec.Abort(old(readPipe.View()))
      ensures rd.View() == Stop(old(rd.View())) && wd.View() == Stop(old(wd.View()))
    {
      hide Spec.Close, Spec.Abort, Stop;
      writePipe.Close();
      readPipe.Abort();
      rd.Halt();
      wd.Halt();
    }

    method SignalReset()
      modifies `reset
      ensures reset
    {
      reset := true;
    }

    method AbortReset()
      requires Valid()
      modifies readPipe, writePipe
      ensures Valid()
      ensures writePipe.View() == Spec.Abort(old(writePipe.View()))
      ensures readPipe.View() == Spec.Abort(old(readPipe.View()))
      ensures writePipe.readClosed && readPipe.readClosed
    {
      writePipe.Abort();
      readPipe.Abort();
    }
  }

  // ---- A pass is what the steps of a call come to when nothing runs in between ----

  /** The call advanced until it returns or waits, for at most k steps. */
  ghost function Undisturbed(src: Both<Sources>, w: World, id: nat, k: nat): World
    requires Sane(src, w)
    decreases k
  {
    if k == 0 || id !in w.threads || w.threads[id].pc.Waiting? then w
    else
      CallsKeepTerms(src, w, id, Now(w));
      Undisturbed(src, AdvanceCall(src, w, id, Now(w)), id, k - 1)
  }

  /** The two pipes after a pass: the one the call works on has taken its step if the checks let the call
      through to it, and the other is untouched. */
  ghost function PipesAfter(src: Both<Sources>, w: World, th: Thread): Both<Spec.State>
    requires Sane(src, w) && (th.call.WriteCall? ==> |th.call.data| <= MAX_INT)
  {
    if w.closed.At(th.end) || w.reset.At(th.end) || Expired(DeadlineOf(w, th), w.clock) then w.pipes
    else OnPipe(src, w, PipeOf(th), OpOf(w, th, Now(w))).pipes
  }

  /** The call has come to the end of a pass, with this verdict and these pipes. */
  ghost predicate EndsWith(w: World, v: World, id: nat, pass: Pass, pipes: Both<Spec.State>) {
    v.pipes == pipes &&
    match pass
    case Returns(result) =>
      id !in v.threads && |v.finished| == |w.finished| + 1 && v.finished[|w.finished|].result == result
    case Waits(gen, channel) => id in v.threads && v.threads[id].pc == Waiting(gen, channel)
  }

  lemma PassFromCheckAgain(src: Both<Sources>, w: World, id: nat)
    requires Sane(src, w) && id in w.threads && w.threads[id].pc.CheckClosedAgain?
    requires !w.closed.At(w.threads[id].end) && !w.reset.At(w.threads[id].end)
    ensures EndsWith(w, Undisturbed(src, w, id, 2), id, Returns(if w.threads[id].call.ReadCall? then EndOfFile else Broken), w.pipes)
  {
    hide Spec.Step, Try;
    var u := AdvanceCall(src, w, id, Now(w));
    CallsKeepTerms(src, w, id, Now(w));
    assert u.threads[id].pc == CheckResetAgain(w.threads[id].pc.drained);
    assert Undisturbed(src, w, id, 2) == Undisturbed(src, u, id, 1);
    CallsKeepTerms(src, u, id, Now(u));
    assert Undisturbed(src, u, id, 1) == Undisturbed(src, AdvanceCall(src, u, id, Now(u)), id, 0);
  }

  lemma PassFromTry(src: Both<Sources>, w: World, id: nat)
    requires Sane(src, w) && id in w.threads && w.threads[id].pc.TryPipe?
    requires var th := w.threads[id];
             !w.closed.At(th.end) && !w.reset.At(th.end) && !Expired(DeadlineOf(w, th), w.clock)
             && th.pc.gen == DeadlineOf(w, th).gen
    ensures var th := w.threads[id];
            EndsWith(w, Undisturbed(src, w, id, 3), id,
                     Verdict(false, false, DeadlineOf(w, th), w.clock, w.clock, Try(src, w, th), th.call.ReadCall?),
                     PipesAfter(src, w, th))
  {
    hide Spec.Step, Try;
    var th := w.threads[id];
    var u := AdvanceCall(src, w, id, Now(w));
    CallsKeepTerms(src, w, id, Now(w));
    assert Undisturbed(src, w, id, 3) == Undisturbed(src, u, id, 2);
    match Try(src, w, th)
    case Done(_) =>
    case Failed => PassFromCheckAgain(src, u, id);
    case Wait(channel) =>
      if th.call.WriteCall? {
        PassFromSecondLook(src, u, id);
      }
  }

  lemma PassFromSecondLook(src: Both<Sources>, w: World, id: nat)
    requires Sane(src, w) && id in w.threads && w.threads[id].pc.CheckDeadlineAgain?
    requires !Expired(DeadlineOf(w, w.threads[id]), w.clock)
    ensures var pc := w.threads[id].pc; EndsWith(w, Undisturbed(src, w, id, 2), id, Waits(pc.gen, pc.channel), w.pipes)
  {
    hide Spec.Step, Try;
    CallsKeepTerms(src, w, id, Now(w));
    assert Undisturbed(src, w, id, 2) == Undisturbed(src, AdvanceCall(src, w, id, Now(w)), id, 1);
  }

  lemma StillTheSameTry(src: Both<Sources>, w: World, v: World, th: Thread, pc: Pc)
    requires Sane(src, w) && Sane(src, v) && (th.call.WriteCall? ==> |th.call.data| <= MAX_INT)
    requires v == w.(threads := v.threads)
    ensures Try(src, v, th.(pc := pc)) == Try(src, w, th)
    ensures PipesAfter(src, v, th.(pc := pc)) == PipesAfter(src, w, th)
  {
    hide Spec.Step, Spec.TryRead, Spec.TryWrite;
  }

  lemma PassFromDeadline(src: Both<Sources>, w: World, id: nat)
    requires Sane(src, w) && id in w.threads && w.threads[id].pc.TakeChannel?
    requires !w.closed.At(w.threads[id].end) && !w.reset.At(w.threads[id].end)
    ensures var th := w.threads[id];
            EndsWith(w, Undisturbed(src, w, id, 5), id,
                     Verdict(false, false, DeadlineOf(w, th), w.clock, w.clock, Try(src, w, th), th.call.ReadCall?),
                     PipesAfter(src, w, th))
  {
    hide Spec.Step, Try;
    var th := w.threads[id];
    var u := AdvanceCall(src, w, id, Now(w));
    CallsKeepTerms(src, w, id, Now(w));
    assert Undisturbed(src, w, id, 5) == Undisturbed(src, u, id, 4);
    assert u == Goto(w, id, CheckDeadline(DeadlineOf(w, th).gen));
    var v := AdvanceCall(src, u, id, Now(u));
    CallsKeepTerms(src, u, id, Now(u));
    assert Undisturbed(src, u, id, 4) == Undisturbed(src, v, id, 3);
    if !Expired(DeadlineOf(w, th), w.clock) {
      assert v == Goto(u, id, TryPipe(DeadlineOf(w, th).gen));
      PassFromTry(src, v, id);
      StillTheSameTry(src, w, v, th, TryPipe(DeadlineOf(w, th).gen));
    }
  }

  /** Between two waits a call that nobody disturbs does what the pass says: it fails with the first thing
      that is wrong in the order close, reset, deadline, and otherwise with what the pipe
      answers. Only then does it touch the pipe. */
  lemma AnUndisturbedCallIsOnePass(src: Both<Sources>, w: World, id: nat)
    requires Sane(src, w) && id in w.threads && w.threads[id].pc.CheckClosed?
    ensures var th := w.threads[id];
            EndsWith(w, Undisturbed(src, w, id, 7), id,
                     Verdict(w.closed.At(th.end), w.reset.At(th.end), DeadlineOf(w, th), w.clock, w.clock, Try(src, w, th),
                             th.call.ReadCall?),
                     PipesAfter(src, w, th))
  {
    hide Spec.Step, Try;
    var th := w.threads[id];
    var u := AdvanceCall(src, w, id, Now(w));
    CallsKeepTerms(src, w, id, Now(w));
    assert Undisturbed(src, w, id, 7) == Undisturbed(src, u, id, 6);
    if !w.closed.At(th.end) {
      assert u == Goto(w, id, CheckReset);
      var v := AdvanceCall(src, u, id, Now(u));
      CallsKeepTerms(src, u, id, Now(u));
      assert Undisturbed(src, u, id, 6) == Undisturbed(src, v, id, 5);
      if !w.reset.At(th.end) {
        assert v == Goto(u, id, TakeChannel);
        PassFromDeadline(src, v, id);
        StillTheSameTry(src, w, v, th, TakeChannel);
      }
    }
  }

  /** What no step of a call touches. */
  ghost predicate SameSurroundings(w: World, v: World) {
    v.closed == w.closed && v.reset == w.reset && v.rd == w.rd && v.wd == w.wd && v.partNotify == w.partNotify
  }

  lemma CallLeavesSurroundings(src: Both<Sources>, w: World, id: nat, seen: Seen)
    requires Sane(src, w) && id in w.threads && seen.cfg.Valid()
    ensures SameSurroundings(w, AdvanceCall(src, w, id, seen))
    ensures var v := AdvanceCall(src, w, id, seen); id in v.threads ==> v.threads[id] == w.threads[id].(pc := v.threads[id].pc)
  {
    hide Spec.Step, MoveOf;
  }

  lemma {:induction false} UndisturbedLeavesSurroundings(src: Both<Sources>, w: World, id: nat, k: nat)
    requires Sane(src, w)
    ensures SameSurroundings(w, Undisturbed(src, w, id, k))
    ensures var v := Undisturbed(src, w, id, k);
            id in v.threads && id in w.threads ==> v.threads[id] == w.threads[id].(pc := v.threads[id].pc)
    decreases k
  {
    hide AdvanceCall;
    if k == 0 || id !in w.threads || w.threads[id].pc.Waiting? {
    } else {
      CallsKeepTerms(src, w, id, Now(w));
      CallLeavesSurroundings(src, w, id, Now(w));
      UndisturbedLeavesSurroundings(src, AdvanceCall(src, w, id, Now(w)), id, k - 1);
    }
  }

  /** The channel a try hands out is the one the pipe then has, or the network's. */
  lemma ChannelIsCurrent(src: Both<Sources>, w: World, th: Thread)
    requires Sane(src, w) && (th.call.WriteCall? ==> |th.call.data| <= MAX_INT) && Try(src, w, th).Wait?
    ensures match Try(src, w, th).channel
            case OfPipe(n) => n == OnPipe(src, w, PipeOf(th), OpOf(w, th, Now(w))).pipes.At(PipeOf(th)).notify
            case OfPartition(n) => n == w.partNotify
  {
    hide Spec.Deliver, Spec.Take;
  }

  /** A call that goes to wait undisturbed is asleep: none of its four channels is closed yet. */
  lemma UndisturbedWaitIsAsleep(src: Both<Sources>, w: World, id: nat)
    requires Sane(src, w) && id in w.threads && w.threads[id].pc.CheckClosed?
    ensures var v := Undisturbed(src, w, id, 7);
            id in v.threads ==> v.threads[id].pc.Waiting? && !Woken(v, v.threads[id])
  {
    hide Undisturbed, Try, Spec.Step;
    var th := w.threads[id];
    AnUndisturbedCallIsOnePass(src, w, id);
    UndisturbedLeavesSurroundings(src, w, id, 7);
    if Try(src, w, th).Wait? {
      ChannelIsCurrent(src, w, th);
    }
  }

  // ---- Reset ----

  method SignalAll(targets: seq<Conn>)
    modifies set c | c in targets
    ensures forall c | c in targets :: c.reset
  {
    for i := 0 to |targets|
      invariant forall j | 0 <= j < i :: targets[j].reset
    {
      targets[i].SignalReset();
    }
  }

  method AbortAll(targets: seq<Conn>)
    requires forall c | c in targets :: c.Valid()
    modifies set c | c in targets :: c.readPipe
    modifies set c | c in targets :: c.writePipe
    ensures forall c | c in targets :: c.readPipe.readClosed && c.writePipe.readClosed
  {
    for i := 0 to |targets|
      invariant forall j | 0 <= j < i :: targets[j].readPipe.readClosed && targets[j].writePipe.readClosed
    {
      hide Spec.Abort;
      targets[i].AbortReset();
    }
  }

  /** Reset: whatever is registered for the pair is taken off, then every target is signalled before any
      pipe is aborted. */
  method Reset(registry: ResetRegistry<Conn>, pair: PairKey)
    requires forall c | c in Of(registry.targets, pair) :: c.Valid()
    modifies registry
    modifies set c | c in Of(registry.targets, pair)
    modifies set c | c in Of(registry.targets, pair) :: c.readPipe
    modifies set c | c in Of(registry.targets, pair) :: c.writePipe
    ensures registry.targets == Apply(old(registry.targets), TakeAll(pair))
    ensures forall c | c in old(Of(registry.targets, pair)) :: c.reset && c.readPipe.readClosed && c.writePipe.readClosed
  {
    var targets := registry.TakeAll(pair);
    SignalAll(targets);
    AbortAll(targets);
  }
}
