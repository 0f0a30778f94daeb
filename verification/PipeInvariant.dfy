/** What every step of a pipe keeps, in every run of operations. */
module PipeInvariant {
  import opened Words
  import opened Faults
  import opened PipeSpec
  import Bandwidth

  // ---- Queues and their bytes ----

  lemma {:induction false} TotalConcat(xs: seq<Bytes>, ys: seq<Bytes>)
    ensures Total(xs + ys) == Total(xs) + Total(ys)
  {
    if xs == [] {
      assert xs + ys == ys;
    } else {
      TotalConcat(xs[1..], ys);
      assert (xs + ys)[1..] == xs[1..] + ys;
    }
  }

  lemma {:induction false} TotalIsFlatLength(xs: seq<Bytes>)
    ensures Total(xs) == |Flat(xs)|
  {
    if xs == [] {
    } else {
      TotalIsFlatLength(xs[1..]);
    }
  }

  /** tryRead hands out a prefix of the byte stream, as long as the buffer allows, and keeps the rest;
      nothing read into a non-empty buffer means that nothing is left. */
  lemma {:induction false} TakeSplitsStream(chunks: seq<Bytes>, len: nat)
    ensures var (bytes, rest) := Take(chunks, len);
            && bytes + Flat(rest) == Flat(chunks)
            && |bytes| + Total(rest) == Total(chunks)
            && |bytes| == Bandwidth.Min(len, Total(chunks))
            && (bytes == [] && 0 < len ==> rest == [])
  {
    if chunks == [] || len == 0 {
    } else {
      if |chunks[0]| <= len {
        var (bytes, rest) := Take(chunks[1..], len - |chunks[0]|);
        TakeSplitsStream(chunks[1..], len - |chunks[0]|);
        assert chunks[0] + bytes + Flat(rest) == chunks[0] + (bytes + Flat(rest));
      } else {
        var tail := chunks[1..];
        var rest := [chunks[0][len..]] + tail;
        assert rest[1..] == tail;
        assert chunks[0][..len] + (chunks[0][len..] + Flat(tail)) == chunks[0] + Flat(tail);
      }
    }
  }

  lemma CopiesTotal(data: Bytes, d: Draw)
    ensures Total(Copies(data, d)) == if !d.Survives() then 0 else if d.duplicated then 2 * |data| else |data|
  {
    var c := Content(data, d);
    assert [c][1..] == [] && [c, c][1..] == [c];
    assert Total([c]) == |c| && Total([c, c]) == |c| + Total([c]);
  }

  // ---- The schedule: every delayed copy that was ever queued ----

  /** The copies that went through the release queue, with the instants the events record. */
  function Schedule(units: seq<Unit>): seq<Delayed> {
    if units == [] then []
    else Schedule(units[..|units| - 1]) + Scheduled(units[|units| - 1])
  }

  function Scheduled(u: Unit): seq<Delayed> {
    if u.a.cfg.Delays() then Held(Copies(u.a.data, u.e.draw), u.a.at + u.e.serialized + u.e.effective) else []
  }

  ghost predicate WellFormed(units: seq<Unit>) {
    forall i | 0 <= i < |units| :: units[i].a.Valid()
  }

  /** The link clock of the evaluator, over the whole history. */
  ghost function LinkClock(units: seq<Unit>): int
    requires WellFormed(units)
  {
    if units == [] then 0
    else
      var u := units[|units| - 1];
      LinkAfter(LinkClock(units[..|units| - 1]), u.a, u.e.draw)
  }

  function LinkAfter(busy: int, a: Admission, d: Draw): int
    requires a.Valid()
  {
    if d.Survives() && a.cfg.bandwidth.Some? then Later(a.at, busy) + LinkDelay(a) else busy
  }

  function EventsOf(units: seq<Unit>): (e: seq<FaultEvent>)
    ensures |e| == |units|
    ensures forall i | 0 <= i < |units| :: e[i] == units[i].e
  {
    seq(|units|, i requires 0 <= i < |units| => units[i].e)
  }

  lemma ReplayAppends(units: seq<Unit>, u: Unit)
    ensures Replay(units + [u]) == Replay(units) + Flat(Copies(u.a.data, u.e.draw))
  {
    assert (units + [u])[..|units|] == units;
  }

  lemma ScheduleAppends(units: seq<Unit>, u: Unit)
    ensures Schedule(units + [u]) == Schedule(units) + Scheduled(u)
  {
    assert (units + [u])[..|units|] == units;
  }

  lemma LinkClockAppends(units: seq<Unit>, u: Unit)
    requires WellFormed(units) && u.a.Valid()
    ensures WellFormed(units + [u])
    ensures LinkClock(units + [u]) == LinkAfter(LinkClock(units), u.a, u.e.draw)
  {
    hide LinkDelay;
    assert (units + [u])[..|units|] == units;
  }

  // ---- The invariant ----

  ghost predicate Accounted(s: State) {
    s.bufBytes == Total(s.readable) + Total(DataOf(s.pending))
  }

  ghost predicate Lifecycle(s: State) {
    && (s.readClosed ==> s.closed && s.readable == [] && s.pending == [] && s.timer == None)
    && (s.eofSeen ==> s.closed && s.readable == [] && s.pending == [])
  }

  /** One live timer, for the head of a release-ordered queue, exactly when the queue is not empty. */
  ghost predicate Armed(s: State) {
    && (s.pending == [] <==> s.timer == None)
    && (s.pending != [] ==> s.timer == Some(s.pending[0].releaseAt))
    && forall i, j | 0 <= i < j < |s.pending| :: s.pending[i].releaseAt <= s.pending[j].releaseAt
  }

  /** Every admitted write has one event, numbered by its position, and a recorder holds them all. */
  ghost predicate Recorded(s: State) {
    && 0 <= s.clock
    && (forall i | 0 <= i < |s.history| :: s.history[i].e.sequence == i && s.history[i].a.at <= s.clock)
    && (s.trace.Some? ==> s.trace.value == EventsOf(s.history))
  }

  /** The link clock is the one the history implies. */
  ghost predicate Linked(s: State) {
    WellFormed(s.history) && s.busyUntil == LinkClock(s.history)
  }

  /** The recorded history explains every byte that was or still can be read. */
  ghost predicate Explained(s: State) {
    s.out + Flat(s.readable) + Flat(DataOf(s.pending)) == Replay(s.history)
  }

  /** Queued units were admitted under settings that delay, so settings that only grow never let a
      later unit past them. */
  ghost predicate Ordered(s: State) {
    s.pending != [] ==> s.history != [] && s.history[|s.history| - 1].a.cfg.Delays()
  }

  /** The queue is what the schedule still holds, and what it no longer holds was due. */
  ghost predicate OnSchedule(s: State) {
    var plan := Schedule(s.history);
    && |s.pending| <= |plan|
    && s.pending == plan[|plan| - |s.pending|..]
    && forall i | 0 <= i < |plan| - |s.pending| :: plan[i].releaseAt <= s.clock
  }

  ghost predicate Inv(s: State) {
    && Accounted(s) && Lifecycle(s) && Armed(s) && Recorded(s) && Linked(s)
    && (!s.readClosed ==> Explained(s) && Ordered(s) && OnSchedule(s))
  }

  // ---- What recording an event does ----

  lemma RecordKeepsRecorded(s: State, a: Admission, d: Draw, serialized: int, effective: int)
    requires Recorded(s) && a.at == s.clock
    ensures Recorded(Record(s, a, d, serialized, effective))
  {
    var u := Unit(a, FaultEvent(|s.history|, d, serialized, effective));
    assert EventsOf(s.history + [u]) == EventsOf(s.history) + [u.e];
  }

  lemma RecordMovesLink(s: State, a: Admission, d: Draw, serialized: int, effective: int)
    requires Linked(s) && a.Valid()
    ensures Linked(Record(s, a, d, serialized, effective).(busyUntil := LinkAfter(s.busyUntil, a, d)))
  {
    hide LinkDelay, LinkAfter;
    LinkClockAppends(s.history, Unit(a, FaultEvent(|s.history|, d, serialized, effective)));
  }

  lemma ChangesNoHistory(s: State, t: State)
    requires s.history == t.history && s.trace == t.trace && s.clock <= t.clock
    ensures Recorded(s) ==> Recorded(t)
    ensures Linked(s) && s.busyUntil == t.busyUntil ==> Linked(t)
  {}

  // ---- A discarded unit ----

  lemma DiscardExplained(s: State, a: Admission, d: Draw)
    requires Explained(s) && !d.Survives()
    ensures Explained(Discard(s, a, d))
  {
    ReplayAppends(s.history, Unit(a, FaultEvent(|s.history|, d, 0, 0)));
  }

  lemma ScheduleUnchanged(s: State, a: Admission, d: Draw)
    requires !d.Survives() || !a.cfg.Delays()
    ensures Schedule(Record(s, a, d, 0, 0).history) == Schedule(s.history)
  {
    ScheduleAppends(s.history, Unit(a, FaultEvent(|s.history|, d, 0, 0)));
  }

  lemma DiscardOnSchedule(s: State, a: Admission, d: Draw)
    requires OnSchedule(s) && !d.Survives()
    ensures OnSchedule(Discard(s, a, d))
  {
    hide Schedule;
    ScheduleUnchanged(s, a, d);
  }

  lemma DiscardKeeps(s: State, a: Admission, d: Draw)
    requires Inv(s) && a.Valid() && s.clock == a.at && Grows(s, a) && !d.Survives()
    ensures Inv(Discard(s, a, d))
  {
    hide Explained, OnSchedule, Recorded, Linked, LinkDelay;
    RecordKeepsRecorded(s, a, d, 0, 0);
    RecordMovesLink(s, a, d, 0, 0);
    ChangesNoHistory(Record(s, a, d, 0, 0), Discard(s, a, d));
    if !s.readClosed {
      DiscardExplained(s, a, d);
      DiscardOnSchedule(s, a, d);
    }
  }

  // ---- A unit delivered at once ----

  lemma HandOverAccounted(s: State, a: Admission, d: Draw)
    requires Accounted(s)
    ensures Accounted(HandOver(s, a, d))
  {
    TotalConcat(s.readable, Copies(a.data, d));
  }

  lemma HandOverExplained(s: State, a: Admission, d: Draw)
    requires Explained(s) && s.pending == []
    ensures Explained(HandOver(s, a, d))
  {
    var copies := Copies(a.data, d);
    ReplayAppends(s.history, Unit(a, FaultEvent(|s.history|, d, 0, 0)));
    FlatConcat(s.readable, copies);
    Regroup(s.out, Flat(s.readable), Flat(copies));
  }

  lemma Regroup(x: Bytes, y: Bytes, z: Bytes)
    ensures x + (y + z) == x + y + z
    ensures x + (y + z) + [] == x + y + [] + z
  {}

  lemma HandOverOnSchedule(s: State, a: Admission, d: Draw)
    requires OnSchedule(s) && !a.cfg.Delays()
    ensures OnSchedule(HandOver(s, a, d))
  {
    hide Schedule;
    ScheduleUnchanged(s, a, d);
  }

  /** The queue is empty whenever a unit skips it: settings that delay are never switched off. */
  lemma HandOverKeeps(s: State, a: Admission, d: Draw)
    requires Inv(s) && !s.closed && a.Valid() && s.clock == a.at && Grows(s, a) && d.Survives() && !a.cfg.Delays()
    ensures s.pending == []
    ensures Inv(HandOver(s, a, d))
  {
    hide Accounted, Explained, OnSchedule, Recorded, Linked, LinkDelay;
    RecordKeepsRecorded(s, a, d, 0, 0);
    RecordMovesLink(s, a, d, 0, 0);
    ChangesNoHistory(Record(s, a, d, 0, 0), HandOver(s, a, d));
    HandOverAccounted(s, a, d);
    HandOverExplained(s, a, d);
    HandOverOnSchedule(s, a, d);
  }

  // ---- A unit queued for its release ----

  lemma HeldData(queue: seq<Delayed>, copies: seq<Bytes>, releaseAt: int)
    ensures DataOf(queue + Held(copies, releaseAt)) == DataOf(queue) + copies
  {}

  lemma EnqueueAccounted(s: State, a: Admission, d: Draw, base: int)
    requires Accounted(s)
    ensures Accounted(Enqueue(s, a, d, base))
  {
    var copies := Copies(a.data, d);
    TotalConcat(DataOf(s.pending), copies);
    HeldData(s.pending, copies, ReleaseAt(s, base, d.drawn));
  }

  lemma EnqueueArmed(s: State, a: Admission, d: Draw, base: int)
    requires Armed(s) && a.at <= base && 0 <= d.drawn && d.Survives()
    ensures Armed(Enqueue(s, a, d, base))
  {
    hide Total;
  }

  lemma EnqueueExplained(s: State, a: Admission, d: Draw, base: int)
    requires Explained(s)
    ensures Explained(Enqueue(s, a, d, base))
  {
    var copies, releaseAt := Copies(a.data, d), ReleaseAt(s, base, d.drawn);
    ReplayAppends(s.history, Unit(a, FaultEvent(|s.history|, d, base - a.at, releaseAt - base)));
    HeldData(s.pending, copies, releaseAt);
    FlatConcat(DataOf(s.pending), copies);
    Regroup(s.out + Flat(s.readable), Flat(DataOf(s.pending)), Flat(copies));
  }

  lemma EnqueueOnSchedule(s: State, a: Admission, d: Draw, base: int)
    requires OnSchedule(s) && a.cfg.Delays()
    ensures OnSchedule(Enqueue(s, a, d, base))
  {
    hide Total, Copies, ReleaseAt, Schedule;
    var copies, releaseAt := Copies(a.data, d), ReleaseAt(s, base, d.drawn);
    var u := Unit(a, FaultEvent(|s.history|, d, base - a.at, releaseAt - base));
    ScheduleAppends(s.history, u);
    assert Scheduled(u) == Held(copies, releaseAt);
    SuffixGrows(Schedule(s.history), s.pending, Held(copies, releaseAt));
  }

  lemma SuffixGrows(plan: seq<Delayed>, queue: seq<Delayed>, more: seq<Delayed>)
    requires |queue| <= |plan| && queue == plan[|plan| - |queue|..]
    ensures (plan + more)[|plan| - |queue|..] == queue + more
  {}

  lemma EnqueueKeeps(s: State, a: Admission, d: Draw)
    requires Inv(s) && !s.closed && a.Valid() && s.clock == a.at && d.Survives() && a.cfg.Delays() && 0 <= d.drawn
    ensures Inv(Enqueue(s, a, d, Base(s, a)))
  {
    hide Accounted, Armed, Explained, OnSchedule, Recorded, Linked, LinkDelay;
    var base := Base(s, a);
    var effective := ReleaseAt(s, base, d.drawn) - base;
    var t := Enqueue(s, a, d, base);
    RecordKeepsRecorded(s, a, d, base - a.at, effective);
    RecordMovesLink(s, a, d, base - a.at, effective);
    ChangesNoHistory(Record(s, a, d, base - a.at, effective).(busyUntil := t.busyUntil), t);
    ChangesNoHistory(Record(s, a, d, base - a.at, effective), t);
    EnqueueAccounted(s, a, d, base);
    EnqueueArmed(s, a, d, base);
    EnqueueExplained(s, a, d, base);
    EnqueueOnSchedule(s, a, d, base);
  }

  lemma WriteKeeps(src: Sources, s: State, a: Admission)
    requires src.Fair() && Inv(s) && Legal(s, Write(a))
    ensures Inv(TryWrite(src, s, a).0)
  {
    hide Accounted, Armed, Explained, OnSchedule, Recorded, Linked, LinkDelay, Decide, Record, Discard, HandOver, Enqueue;
    var u := s.(clock := a.at);
    ClockMoves(s, u);
    if !u.closed && !u.readClosed && Admits(u, |a.data|) {
      var (d, pos) := Decide(src, u.pos, a);
      var v := u.(pos := pos);
      ClockMoves(u, v);
      if !d.Survives() {
        DiscardKeeps(v, a, d);
      } else if !a.cfg.Delays() {
        HandOverKeeps(v, a, d);
      } else {
        EnqueueKeeps(v, a, d);
      }
    }
  }

  lemma ClockMoves(s: State, t: State)
    requires Inv(s) && s.clock <= t.clock && t == s.(clock := t.clock, pos := t.pos)
    ensures Inv(t)
  {
    hide LinkClock, Schedule, Replay, Flat, Total;
  }

  // ---- A read ----

  lemma ReadKeeps(s: State, len: nat, partitioned: bool)
    requires Inv(s)
    ensures Inv(TryRead(s, len, partitioned).0)
  {
    hide Accounted, Armed, Explained, OnSchedule, Recorded, Linked, Lifecycle, TryRead;
    var t := TryRead(s, len, partitioned).0;
    ReadLeavesTheRest(s, len, partitioned);
    ChangesNoHistory(s, t);
    ReadAccounted(s, len, partitioned);
    LeavesQueue(s, t);
    ReadLifecycle(s, len, partitioned);
    if !s.readClosed {
      ReadExplained(s, len, partitioned);
    }
  }

  lemma ReadLeavesTheRest(s: State, len: nat, partitioned: bool)
    ensures var t := TryRead(s, len, partitioned).0;
            && t.history == s.history && t.trace == s.trace && t.clock == s.clock && t.busyUntil == s.busyUntil
            && t.pending == s.pending && t.timer == s.timer && t.readClosed == s.readClosed
  {
    hide Take;
  }

  lemma ReadLifecycle(s: State, len: nat, partitioned: bool)
    requires Lifecycle(s)
    ensures Lifecycle(TryRead(s, len, partitioned).0)
  {
    hide Take, Flat, Total;
    TakeSplitsStream(s.readable, len);
  }

  lemma LeavesQueue(s: State, t: State)
    requires s.pending == t.pending && s.timer == t.timer && s.history == t.history && s.clock == t.clock
    ensures Armed(s) ==> Armed(t)
    ensures OnSchedule(s) ==> OnSchedule(t)
  {}

  lemma ReadAccounted(s: State, len: nat, partitioned: bool)
    requires Accounted(s)
    ensures Accounted(TryRead(s, len, partitioned).0)
  {
    TakeSplitsStream(s.readable, len);
  }

  lemma ReadExplained(s: State, len: nat, partitioned: bool)
    requires Explained(s)
    ensures Explained(TryRead(s, len, partitioned).0)
  {
    var (bytes, rest) := Take(s.readable, len);
    TakeSplitsStream(s.readable, len);
    Regroup(s.out, bytes, Flat(rest));
  }

  // ---- The release callback ----

  lemma ReleaseKeeps(s: State, now: int)
    requires Inv(s) && s.clock <= now
    ensures Inv(Release(s, now))
  {
    hide Accounted, Armed, Explained, OnSchedule, Recorded, Linked;
    if s.readClosed {
      ClockMoves(s, s.(clock := now));
    } else {
      ChangesNoHistory(s, Release(s, now));
      ReleaseAccounted(s, now);
      ReleaseArmed(s, now);
      ReleaseExplained(s, now);
      ReleaseOnSchedule(s, now);
    }
  }

  lemma ReleaseAccounted(s: State, now: int)
    requires Accounted(s) && !s.readClosed
    ensures Accounted(Release(s, now))
  {
    var k := Due(s.pending, now);
    SplitQueue(s.pending, k);
    TotalConcat(s.readable, DataOf(s.pending[..k]));
    TotalConcat(DataOf(s.pending[..k]), DataOf(s.pending[k..]));
  }

  lemma SplitQueue(queue: seq<Delayed>, k: nat)
    requires k <= |queue|
    ensures DataOf(queue) == DataOf(queue[..k]) + DataOf(queue[k..])
  {}

  lemma ReleaseArmed(s: State, now: int)
    requires Armed(s) && !s.readClosed
    ensures Armed(Release(s, now))
  {
    var k := Due(s.pending, now);
    assert forall i | 0 <= i < |s.pending| - k :: s.pending[k..][i] == s.pending[k + i];
  }

  lemma ReleaseExplained(s: State, now: int)
    requires Explained(s) && !s.readClosed
    ensures Explained(Release(s, now))
  {
    var k := Due(s.pending, now);
    var due, rest := DataOf(s.pending[..k]), DataOf(s.pending[k..]);
    SplitQueue(s.pending, k);
    FlatConcat(s.readable, due);
    FlatConcat(due, rest);
    Regroup(s.out, Flat(s.readable), Flat(due));
    Regroup(s.out + Flat(s.readable), Flat(due), Flat(rest));
  }

  lemma ReleaseOnSchedule(s: State, now: int)
    requires OnSchedule(s) && !s.readClosed && s.clock <= now
    ensures OnSchedule(Release(s, now))
  {
    hide Schedule;
    var k := Due(s.pending, now);
    var plan := Schedule(s.history);
    var n := |plan| - |s.pending|;
    assert s.pending[k..] == plan[n + k..];
    forall i | n <= i < n + k
      ensures plan[i].releaseAt <= now
    {
      assert plan[i] == s.pending[i - n];
    }
  }

  // ---- The two ways to end ----

  lemma CloseKeeps(s: State)
    requires Inv(s)
    ensures Inv(Close(s))
  {
    hide Accounted, Armed, Explained, OnSchedule, Recorded, Linked;
    ChangesNoHistory(s, Close(s));
    LeavesQueue(s, Close(s));
    LeavesBytes(s, Close(s));
  }

  lemma LeavesBytes(s: State, t: State)
    requires t == s.(closed := t.closed, notify := t.notify)
    ensures Accounted(s) ==> Accounted(t)
    ensures Explained(s) ==> Explained(t)
  {}

  lemma AbortKeeps(s: State)
    requires Inv(s)
    ensures Inv(Abort(s))
  {
    hide Explained, OnSchedule, Recorded, Linked;
    ChangesNoHistory(s, Abort(s));
  }

  // ---- Every run ----

  lemma StepKeeps(src: Sources, s: State, op: Op)
    requires src.Fair() && Inv(s) && Legal(s, op)
    ensures Inv(Step(src, s, op))
  {
    hide Inv, TryWrite, TryRead, Release, Close, Abort;
    match op
    case Write(a) => WriteKeeps(src, s, a);
    case Read(len, partitioned) => ReadKeeps(s, len, partitioned);
    case Fire(at) => ReleaseKeeps(s, at);
    case CloseWriter => CloseKeeps(s);
    case AbortReader => AbortKeeps(s);
  }

  lemma FreshIsSound(bound: int, tracing: bool)
    ensures Inv(Fresh(bound, tracing))
  {}

  /** The invariant holds after every legal run of a fresh pipe. */
  lemma {:induction false} RunKeeps(src: Sources, bound: int, tracing: bool, ops: seq<Op>)
    requires src.Fair() && Valid(ops) && LegalRun(src, Fresh(bound, tracing), ops)
    ensures Inv(After(src, Fresh(bound, tracing), ops))
  {
    hide Inv, Step;
    if ops == [] {
      FreshIsSound(bound, tracing);
    } else {
      var before := ops[..|ops| - 1];
      RunKeeps(src, bound, tracing, before);
      StepKeeps(src, After(src, Fresh(bound, tracing), before), ops[|ops| - 1]);
    }
  }
}
