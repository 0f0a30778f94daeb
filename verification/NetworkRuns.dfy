/** A whole network run: setters, partitions and the clock are shared, every direction of every
    established connection has a pipe of its own. */
module NetworkRuns {
  import opened Words
  import opened Faults
  import opened Controls
  import opened PipeSpec
  import opened PipeInvariant
  import opened PipeRuns
  import opened Determinism
  import opened Delivery

  /** One direction: the connection's ordinal and the side that writes. */
  datatype Direction = Direction(ordinal: nat, dialerWrites: bool)

  /** A write that holds its pipe's mutex: the partition state it read, and the settings once it has read
      those. The two have locks of their own, so a setter or a Partition can come in between. */
  datatype Writing = Writing(data: Bytes, partitioned: bool, cfg: Option<FaultConfig>)
  {
    predicate InForce(faults: FaultConfig) {
      |data| <= MAX_INT && (cfg.Some? ==> cfg.value.Valid() && cfg.value.GrowsInto(faults))
    }
  }

  datatype Net = Net(
    faults: FaultConfig,
    partitions: set<PairKey>,
    clock: int,
    pipes: map<Direction, State>,
    pairs: map<Direction, PairKey>,
    writing: map<Direction, Writing>)

  /** What every direction's streams are, the buffer bound and whether events are recorded: fixed when
      the network is constructed. */
  datatype Constants = Constants(streams: Direction -> Sources, bound: int, tracing: bool)

  ghost predicate Fair(c: Constants) {
    forall d: Direction :: c.streams(d).Fair()
  }

  datatype Event =
    | SetLatency(min: int, max: int)
    | SetPacketLoss(rate: real)
    | SetDuplication(rate: real)
    | SetCorruption(rate: real)
    | Partition(k: PairKey)
    | Heal(k: PairKey)
    | Pass(now: int)
    | Establish(ordinal: nat, pair: PairKey)
    | BeginWrite(d: Direction, data: Bytes)
    | ReadSettings(d: Direction)
    | EndWrite(d: Direction)
    | ReadFrom(d: Direction, len: nat)
    | RunTimer(d: Direction)
    | CloseWrite(d: Direction)
    | AbortRead(d: Direction)

  predicate Allowed(n: Net, e: Event) {
    match e
    case SetLatency(min, max) => 0 <= min <= max <= MAX_INT
    case Pass(now) => n.clock <= now
    case Establish(ordinal, _) => Direction(ordinal, true) !in n.pipes && Direction(ordinal, false) !in n.pipes
    case BeginWrite(d, data) => Free(n, d) && |data| <= MAX_INT
    case ReadSettings(d) => d in n.writing && n.writing[d].cfg.None?
    case EndWrite(d) => d in n.writing && n.writing[d].cfg.Some?
    case ReadFrom(d, _) => Free(n, d)
    case RunTimer(d) => Free(n, d)
    case CloseWrite(d) => Free(n, d)
    case AbortRead(d) => Free(n, d)
    case _ => true
  }

  /** The mutex of the direction's pipe is there to be taken. */
  predicate Free(n: Net, d: Direction) {
    d in n.pipes && d !in n.writing
  }

  /** The operation an event is on one direction: a write takes effect under the partition state and the
      settings it has read, everything else under what is in force. */
  function LocalOp(n: Net, e: Event, d: Direction): Option<Op> {
    match e
    case EndWrite(d') =>
      if d' == d && d in n.writing && n.writing[d].cfg.Some? then
        var w := n.writing[d];
        Some(Write(Admission(w.data, n.clock, w.cfg.value, w.partitioned)))
      else None
    case ReadFrom(d', len) =>
      if d' == d && d in n.pairs then Some(Read(len, n.pairs[d] in n.partitions)) else None
    case RunTimer(d') => if d' == d then Some(Fire(n.clock)) else None
    case CloseWrite(d') => if d' == d then Some(CloseWriter) else None
    case AbortRead(d') => if d' == d then Some(AbortReader) else None
    case _ => None
  }

  ghost predicate Coherent(n: Net) {
    && n.pipes.Keys == n.pairs.Keys
    && n.faults.Valid()
    && 0 <= n.clock
    && forall d | d in n.writing :: d in n.pipes && n.writing[d].InForce(n.faults)
  }

  /** No write of the direction has seen settings later than those the one under way has read. */
  ghost predicate Sampled(n: Net, d: Direction) {
    d in n.pipes && d in n.writing && n.writing[d].cfg.Some? ==>
      var h := n.pipes[d].history; h != [] ==> h[|h| - 1].a.cfg.GrowsInto(n.writing[d].cfg.value)
  }

  /** Every event is one atomic step; an operation on one direction touches no other. */
  ghost function Next(c: Constants, n: Net, e: Event): Net
    requires Fair(c) && Coherent(n) && Allowed(n, e)
  {
    match e
    case SetLatency(min, max) => n.(faults := n.faults.(latency := Some((min, max))))
    case SetPacketLoss(rate) => n.(faults := n.faults.(loss := Some(rate)))
    case SetDuplication(rate) => n.(faults := n.faults.(duplicate := Some(rate)))
    case SetCorruption(rate) => n.(faults := n.faults.(corrupt := Some(rate)))
    case Partition(k) => n.(partitions := n.partitions + {k})
    case Heal(k) => n.(partitions := n.partitions - {k})
    case Pass(now) => n.(clock := now)
    case Establish(ordinal, pair) =>
      var there, back := Direction(ordinal, true), Direction(ordinal, false);
      n.(pipes := n.pipes[there := Fresh(c.bound, c.tracing)][back := Fresh(c.bound, c.tracing)],
         pairs := n.pairs[there := pair][back := pair])
    case BeginWrite(d, data) => n.(writing := n.writing[d := Writing(data, n.pairs[d] in n.partitions, None)])
    case ReadSettings(d) => n.(writing := n.writing[d := n.writing[d].(cfg := Some(n.faults))])
    case EndWrite(d) => OnPipe(c, n, e, d).(writing := n.writing - {d})
    case _ => OnPipe(c, n, e, e.d)
  }

  ghost function OnPipe(c: Constants, n: Net, e: Event, d: Direction): Net
    requires Fair(c) && Coherent(n) && Allowed(n, e) && d in n.pipes
  {
    match LocalOp(n, e, d)
    case None => n
    case Some(op) => n.(pipes := n.pipes[d := Step(c.streams(d), n.pipes[d], op)])
  }

  lemma SettingsGrow(c: Constants, n: Net, e: Event)
    requires Fair(c) && Coherent(n) && Allowed(n, e)
    ensures n.faults.GrowsInto(Next(c, n, e).faults) && n.clock <= Next(c, n, e).clock
  {
    hide Step;
  }

  lemma StaysInForce(w: Writing, faults: FaultConfig, faults': FaultConfig)
    requires w.InForce(faults) && faults.GrowsInto(faults')
    ensures w.InForce(faults')
  {}

  lemma NextStaysCoherent(c: Constants, n: Net, e: Event)
    requires Fair(c) && Coherent(n) && Allowed(n, e)
    ensures Coherent(Next(c, n, e))
  {
    hide Step;
    var m := Next(c, n, e);
    SettingsGrow(c, n, e);
    forall d | d in m.writing
      ensures d in m.pipes && m.writing[d].InForce(m.faults)
    {
      if d in n.writing {
        StaysInForce(n.writing[d], n.faults, m.faults);
      }
    }
  }

  // ---- Runs ----

  datatype Run = Start(faults: FaultConfig, partitions: set<PairKey>) | Then(before: Run, e: Event)

  /** A run every event of which was allowed when it happened. */
  ghost predicate Proper(c: Constants, r: Run)
    requires Fair(c)
    decreases r, 0
  {
    match r
    case Start(faults, _) => faults.Valid()
    case Then(before, e) => Proper(c, before) && Allowed(At(c, before), e)
  }

  ghost function At(c: Constants, r: Run): (n: Net)
    requires Fair(c) && Proper(c, r)
    ensures Coherent(n)
    decreases r, 1
  {
    match r
    case Start(faults, partitions) => Net(faults, partitions, 0, map[], map[], map[])
    case Then(before, e) =>
      NextStaysCoherent(c, At(c, before), e);
      Next(c, At(c, before), e)
  }

  /** What the run did to one direction, in order. */
  ghost function On(c: Constants, r: Run, d: Direction): seq<Op>
    requires Fair(c) && Proper(c, r)
  {
    match r
    case Start(_, _) => []
    case Then(before, e) =>
      var op := LocalOp(At(c, before), e, d);
      On(c, before, d) + if op.Some? then [op.value] else []
  }

  // ---- A direction of any network run is a legal run of its own pipe ----

  lemma OnDirection(c: Constants, n: Net, e: Event, d: Direction)
    requires Fair(c) && Coherent(n) && Allowed(n, e) && d in n.pipes
    ensures var op := LocalOp(n, e, d);
            && (op.Some? && Sampled(n, d) ==> Current(n.faults, n.clock, n.pipes[d], op.value))
            && d in Next(c, n, e).pipes
            && Next(c, n, e).pipes[d]
               == (if op.Some? then Step(c.streams(d), n.pipes[d], op.value) else n.pipes[d])
            && (op.Some? ==> Next(c, n, e).faults == n.faults && Next(c, n, e).clock == n.clock)
  {
    hide Step;
  }

  lemma NextStaysRecent(c: Constants, n: Net, e: Event, d: Direction)
    requires Fair(c) && Coherent(n) && Allowed(n, e) && d in n.pipes && Recent(n.faults, n.clock, n.pipes[d]) && Sampled(n, d)
    ensures var op := LocalOp(n, e, d);
            && (op.Some? ==> Legal(n.pipes[d], op.value))
            && d in Next(c, n, e).pipes
            && Next(c, n, e).pipes[d]
               == (if op.Some? then Step(c.streams(d), n.pipes[d], op.value) else n.pipes[d])
            && Recent(Next(c, n, e).faults, Next(c, n, e).clock, Next(c, n, e).pipes[d])
  {
    hide Step, Next, Recent, Legal, LocalOp, Sampled, Current, Coherent;
    OnDirection(c, n, e, d);
    SettingsGrow(c, n, e);
    var op := LocalOp(n, e, d);
    if op.Some? {
      StepStaysRecent(c.streams(d), n.faults, n.clock, n.pipes[d], op.value);
    }
    RecentStaysRecent(n.faults, n.clock, Next(c, n, e).faults, Next(c, n, e).clock, Next(c, n, e).pipes[d]);
  }

  /** The settings a write reads have grown from those of every write before it. */
  lemma NextStaysSampled(c: Constants, n: Net, e: Event, d: Direction)
    requires Fair(c) && Coherent(n) && Allowed(n, e) && Sampled(n, d)
    requires d in n.pipes ==> Recent(n.faults, n.clock, n.pipes[d])
    ensures Sampled(Next(c, n, e), d)
  {
    hide Step;
  }

  lemma NoWriteYet(c: Constants, r: Run, d: Direction)
    requires Fair(c) && Proper(c, r) && r.Start?
    ensures Sampled(At(c, r), d)
  {}

  lemma AppendedOp(src: Sources, s: PipeSpec.State, ops: seq<Op>, op: Op)
    requires src.Fair() && Valid(ops) && LegalRun(src, s, ops) && Legal(After(src, s, ops), op)
    ensures Valid(ops + [op]) && LegalRun(src, s, ops + [op])
    ensures After(src, s, ops + [op]) == Step(src, After(src, s, ops), op)
  {
    hide Step;
    assert (ops + [op])[..|ops|] == ops;
    assert forall x | x in ops + [op] :: x in ops || x == op;
  }

  /** The monotone settings, the one clock and the partition state that a direction's pipe theorems
      assume are what any run of the whole network provides: each established direction stands exactly
      where its own operations alone would have taken a fresh pipe, in a legal run. */
  lemma {:induction false} DirectionsAreIndependent(c: Constants, r: Run, d: Direction)
    requires Fair(c) && Proper(c, r)
    ensures var n, ops := At(c, r), On(c, r, d);
            && Valid(ops)
            && (d !in n.pipes ==> ops == [])
            && LegalRun(c.streams(d), Fresh(c.bound, c.tracing), ops)
            && (d in n.pipes ==>
                  && n.pipes[d] == After(c.streams(d), Fresh(c.bound, c.tracing), ops)
                  && Recent(n.faults, n.clock, n.pipes[d]))
            && Sampled(n, d)
  {
    hide Step, Recent, Legal, Sampled, Next;
    if r.Start? {
      NoWriteYet(c, r, d);
    } else {
      var n, ops := At(c, r.before), On(c, r.before, d);
      DirectionsAreIndependent(c, r.before, d);
      NextStaysSampled(c, n, r.e, d);
      var op := LocalOp(n, r.e, d);
      if d in n.pipes {
        NextStaysRecent(c, n, r.e, d);
        if op.Some? {
          AppendedOp(c.streams(d), Fresh(c.bound, c.tracing), ops, op.value);
        } else {
          assert ops + [] == ops;
        }
      } else {
        NewIsFresh(c, n, r.e, d);
      }
    }
  }

  lemma NewIsFresh(c: Constants, n: Net, e: Event, d: Direction)
    requires Fair(c) && Coherent(n) && Allowed(n, e) && d !in n.pipes
    ensures LocalOp(n, e, d).None?
    ensures d in Next(c, n, e).pipes ==> Next(c, n, e).pipes[d] == Fresh(c.bound, c.tracing)
    ensures Recent(Next(c, n, e).faults, Next(c, n, e).clock, Fresh(c.bound, c.tracing))
  {}

  /** What the pipe theorems say of a direction of a network run: its history is its accepted writes with
      their decisions, and explains its bytes. */
  lemma DirectionIsExplained(c: Constants, r: Run, d: Direction)
    requires Fair(c) && Proper(c, r) && d in At(c, r).pipes
    ensures var s, ops := At(c, r).pipes[d], On(c, r, d);
            && Valid(ops)
            && AdmissionsOf(s.history) == AcceptedBy(c.streams(d), Fresh(c.bound, c.tracing), ops)
            && s.out == ReadBy(c.streams(d), Fresh(c.bound, c.tracing), ops)
            && Determined(c.streams(d), s)
            && s.out <= Replay(s.history)
            && (!s.readClosed ==> Explained(s) && Delivers(s.history, s.out + Flat(s.readable) + Flat(DataOf(s.pending))))
  {
    hide Step, After, LegalRun, AcceptedBy, Replay, Flat, ReadBy, Determined, Explained, At, On, Delivers;
    var src, ops := c.streams(d), On(c, r, d);
    DirectionsAreIndependent(c, r, d);
    RunIsObserved(src, Fresh(c.bound, c.tracing), ops);
    RunDetermined(src, c.bound, c.tracing, ops);
    RunKeeps(src, c.bound, c.tracing, ops);
    ReadBytesAreExplained(src, c.bound, c.tracing, ops);
    assert AdmissionsOf(Fresh(c.bound, c.tracing).history) == [];
    var s := At(c, r).pipes[d];
    assert s.out == ReadBy(src, Fresh(c.bound, c.tracing), ops);
    if !s.readClosed {
      EveryByteIsAccountedFor(src, c.bound, c.tracing, ops);
    }
  }

  /** Two network runs, as different as they may be in their other connections, their clocks, reads,
      bounds and recording: on a direction whose streams are the same and whose accepted writes agree in
      payload, settings and partition state, the same faults are injected and the same byte stream is
      delivered. */
  lemma ConnectionsDoNotInterfere(c: Constants, r: Run, c': Constants, r': Run, d: Direction)
    requires Fair(c) && Proper(c, r) && Fair(c') && Proper(c', r') && c.streams(d) == c'.streams(d)
    requires d in At(c, r).pipes && d in At(c', r').pipes
    requires AllAgree(AdmissionsOf(At(c, r).pipes[d].history), AdmissionsOf(At(c', r').pipes[d].history))
    ensures var s, s' := At(c, r).pipes[d], At(c', r').pipes[d];
            && DrawsOf(s.history) == DrawsOf(s'.history)
            && Replay(s.history) == Replay(s'.history)
            && s.out <= Replay(s.history) && s'.out <= Replay(s.history)
            && (!s.readClosed ==> s.out + Flat(s.readable) + Flat(DataOf(s.pending)) == Replay(s.history))
            && (!s'.readClosed ==> s'.out + Flat(s'.readable) + Flat(DataOf(s'.pending)) == Replay(s.history))
  {
    hide AcceptedBy, ReadBy, Replay, Flat, AllAgree, At, On, DecideAll;
    var s, s' := At(c, r).pipes[d], At(c', r').pipes[d];
    DirectionIsExplained(c, r, d);
    DirectionIsExplained(c', r', d);
    DecisionsIgnoreTime(c.streams(d), AdmissionsOf(s.history), AdmissionsOf(s'.history));
    ReplayIsDetermined(s.history, s'.history);
  }

  // ---- What is in force, and what a write sees of it ----

  /** The settings last made by each setter, or else at construction. */
  function LossIn(r: Run): Option<real> {
    match r
    case Start(faults, _) => faults.loss
    case Then(before, e) => if e.SetPacketLoss? then Some(e.rate) else LossIn(before)
  }

  function LatencyIn(r: Run): Option<(int, int)> {
    match r
    case Start(faults, _) => faults.latency
    case Then(before, e) => if e.SetLatency? then Some((e.min, e.max)) else LatencyIn(before)
  }

  function DuplicationIn(r: Run): Option<real> {
    match r
    case Start(faults, _) => faults.duplicate
    case Then(before, e) => if e.SetDuplication? then Some(e.rate) else DuplicationIn(before)
  }

  function CorruptionIn(r: Run): Option<real> {
    match r
    case Start(faults, _) => faults.corrupt
    case Then(before, e) => if e.SetCorruption? then Some(e.rate) else CorruptionIn(before)
  }

  function BandwidthIn(r: Run): Option<int> {
    match r
    case Start(faults, _) => faults.bandwidth
    case Then(before, _) => BandwidthIn(before)
  }

  /** Whether the last Partition of the pair has not been followed by a Heal. */
  predicate PartitionedIn(r: Run, k: PairKey) {
    match r
    case Start(_, partitions) => k in partitions
    case Then(before, e) =>
      if e == Partition(k) then true else if e == Heal(k) then false else PartitionedIn(before, k)
  }

  /** All of them together. */
  function SettingsIn(r: Run): FaultConfig {
    FaultConfig(LossIn(r), LatencyIn(r), BandwidthIn(r), DuplicationIn(r), CorruptionIn(r))
  }

  lemma SetterSets(c: Constants, n: Net, e: Event)
    requires Fair(c) && Coherent(n) && Allowed(n, e)
    ensures var faults := Next(c, n, e).faults;
            && faults.loss == (if e.SetPacketLoss? then Some(e.rate) else n.faults.loss)
            && faults.latency == (if e.SetLatency? then Some((e.min, e.max)) else n.faults.latency)
            && faults.bandwidth == n.faults.bandwidth
            && faults.duplicate == (if e.SetDuplication? then Some(e.rate) else n.faults.duplicate)
            && faults.corrupt == (if e.SetCorruption? then Some(e.rate) else n.faults.corrupt)
  {
    hide Step, LocalOp;
  }

  lemma PartitionParts(c: Constants, n: Net, e: Event, k: PairKey)
    requires Fair(c) && Coherent(n) && Allowed(n, e)
    ensures k in Next(c, n, e).partitions <==>
              e == Partition(k) || (e != Heal(k) && k in n.partitions)
  {
    hide Step, LocalOp;
  }

  lemma {:induction false} SettingsAreTheLastMade(c: Constants, r: Run)
    requires Fair(c) && Proper(c, r)
    ensures At(c, r).faults == SettingsIn(r)
  {
    hide Next, Allowed, Coherent;
    if r.Start? {
    } else {
      SettingsAreTheLastMade(c, r.before);
      SetterSets(c, At(c, r.before), r.e);
    }
  }

  /** In every run exactly what was last set is in force. */
  lemma {:induction false} LastSetIsInForce(c: Constants, r: Run, k: PairKey)
    requires Fair(c) && Proper(c, r)
    ensures At(c, r).faults == SettingsIn(r)
    ensures k in At(c, r).partitions <==> PartitionedIn(r, k)
  {
    hide Next, Allowed, Coherent, SettingsIn;
    SettingsAreTheLastMade(c, r);
    if r.Start? {
    } else {
      LastSetIsInForce(c, r.before, k);
      PartitionParts(c, At(c, r.before), r.e, k);
    }
  }

  /** The run is a later part of the other in which the write under way on the direction has not ended. */
  predicate Continues(r: Run, from: Run, d: Direction) {
    r == from || (r.Then? && r.e != EndWrite(d) && Continues(r.before, from, d))
  }

  lemma OthersLeaveWriting(c: Constants, n: Net, e: Event, d: Direction)
    requires Fair(c) && Coherent(n) && Allowed(n, e) && d in n.writing && e != EndWrite(d)
    ensures var m := Next(c, n, e);
            && d in m.writing && m.writing[d].data == n.writing[d].data
            && m.writing[d].partitioned == n.writing[d].partitioned
            && m.writing[d].cfg == if e == ReadSettings(d) then Some(n.faults) else n.writing[d].cfg
  {
    hide Step, LocalOp, Coherent;
  }

  /** However long it takes and whatever comes in between, a write takes effect as partitioned exactly if
      its pair was partitioned when it began, and under settings that were in force at some moment of it. */
  lemma {:induction false} WritesSeeTheirOwnTime(c: Constants, r: Run, from: Run, d: Direction, data: Bytes)
    returns (seen: Run)
    requires Fair(c) && Proper(c, r) && Proper(c, Then(from, BeginWrite(d, data)))
    requires Continues(r, Then(from, BeginWrite(d, data)), d)
    ensures var n := At(c, r);
            && d in n.writing && n.writing[d].data == data
            && d in At(c, from).pairs
            && (n.writing[d].partitioned <==> PartitionedIn(from, At(c, from).pairs[d]))
            && (n.writing[d].cfg.Some? ==>
                  && Continues(r, seen, d) && Continues(seen, Then(from, BeginWrite(d, data)), d)
                  && n.writing[d].cfg.value == SettingsIn(seen))
  {
    hide Next, Coherent, SettingsIn;
    if r == Then(from, BeginWrite(d, data)) {
      BeginBegins(c, At(c, from), d, data);
      LastSetIsInForce(c, from, At(c, from).pairs[d]);
      seen := r;
    } else {
      seen := WritesSeeTheirOwnTime(c, r.before, from, d, data);
      OthersLeaveWriting(c, At(c, r.before), r.e, d);
      if r.e == ReadSettings(d) {
        LastSetIsInForce(c, r.before, At(c, from).pairs[d]);
        seen := r.before;
      }
    }
  }

  lemma BeginBegins(c: Constants, n: Net, d: Direction, data: Bytes)
    requires Fair(c) && Coherent(n) && Allowed(n, BeginWrite(d, data))
    ensures d in n.pairs
    ensures Next(c, n, BeginWrite(d, data)).writing[d] == Writing(data, n.pairs[d] in n.partitions, None)
    ensures d in Next(c, n, BeginWrite(d, data)).writing
  {}
}
