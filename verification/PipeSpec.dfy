/** pipe.go, latency.go and faults.go: one direction of a connection as a value and the atomic steps
    its mutex makes of every operation. The class in Pipe.dfy is proved to take exactly these steps. */
module PipeSpec {
  import opened Words
  import opened Faults
  import Bandwidth

  /** A unit held back until releaseAt. */
  datatype Delayed = Delayed(data: Bytes, releaseAt: int)

  datatype State = State(
    bound: int,
    readable: seq<Bytes>,
    pending: seq<Delayed>,
    bufBytes: int,
    busyUntil: int,
    timer: Option<int>,                 // when the live release timer runs its callback
    closed: bool,
    readClosed: bool,
    eofSeen: bool,
    notify: nat,                        // generation of the notify channel
    pos: Positions,
    trace: Option<seq<FaultEvent>>,     // None without a recorder
    // history, read by nothing
    history: seq<Unit>,
    out: Bytes,
    clock: int)

  /** newPipe, at a fresh connection. */
  function Fresh(bound: int, tracing: bool): State {
    State(bound, [], [], 0, 0, None, false, false, false, 0, ORIGIN,
          if tracing then Some([]) else None, [], [], 0)
  }

  // ---- Measures ----

  function Total(chunks: seq<Bytes>): nat {
    if chunks == [] then 0 else |chunks[0]| + Total(chunks[1..])
  }

  function DataOf(units: seq<Delayed>): (d: seq<Bytes>)
    ensures |d| == |units|
    ensures forall i | 0 <= i < |units| :: d[i] == units[i].data
  {
    seq(|units|, i requires 0 <= i < |units| => units[i].data)
  }

  // ---- tryWrite ----

  datatype WriteResult = Accepted(n: nat) | BrokenPipe | WriteBlocks(notify: nat)

  predicate Admits(s: State, size: nat) {
    s.bufBytes == 0 || s.bufBytes + size <= s.bound
  }

  ghost function TryWrite(src: Sources, s: State, a: Admission): (State, WriteResult)
    requires src.Fair() && a.Valid()
  {
    var s := s.(clock := a.at);
    if s.closed || s.readClosed then (s, BrokenPipe)
    else if Admits(s, |a.data|) then (Deliver(src, s, a), Accepted(|a.data|))
    else (s, WriteBlocks(s.notify))
  }

  /** How long the unit occupies a throttled link. */
  function LinkDelay(a: Admission): (d: int)
    requires a.Valid() && a.cfg.bandwidth.Some?
    ensures 0 <= d
  {
    Bandwidth.SerializationDelay(|a.data|, a.cfg.bandwidth.value)
  }

  /** When the unit finishes transmitting onto the link. */
  function Base(s: State, a: Admission): (base: int)
    requires a.Valid()
    ensures a.at <= base
  {
    if a.cfg.bandwidth.None? then a.at
    else Later(a.at, s.busyUntil) + LinkDelay(a)
  }

  /** When the unit is released: never before the unit already at the tail of the queue. */
  function ReleaseAt(s: State, base: int, drawn: int): int {
    if s.pending == [] then base + drawn
    else Later(base + drawn, s.pending[|s.pending| - 1].releaseAt)
  }

  function Record(s: State, a: Admission, d: Draw, serialized: int, effective: int): State {
    s.(history := s.history + [Unit(a, FaultEvent(|s.history|, d, serialized, effective))],
       trace := if s.trace.None? then None
                else Some(s.trace.value + [FaultEvent(|s.trace.value|, d, serialized, effective)]))
  }

  /** The composed evaluator: partition, loss, bandwidth, latency, corruption, duplication. */
  ghost function Deliver(src: Sources, s: State, a: Admission): State
    requires src.Fair() && a.Valid()
  {
    var (d, pos) := Decide(src, s.pos, a);
    Settle(s.(pos := pos), a, d)
  }

  /** What becomes of a unit once its draws are known. */
  function Settle(s: State, a: Admission, d: Draw): State
    requires a.Valid()
  {
    if !d.Survives() then Discard(s, a, d)
    else if !a.cfg.Delays() then HandOver(s, a, d)
    else Enqueue(s, a, d, Base(s, a))
  }

  function Discard(s: State, a: Admission, d: Draw): State {
    Record(s, a, d, 0, 0).(notify := s.notify + 1)
  }

  function HandOver(s: State, a: Admission, d: Draw): State {
    var copies := Copies(a.data, d);
    Record(s, a, d, 0, 0).(
      readable := s.readable + copies, bufBytes := s.bufBytes + Total(copies), notify := s.notify + 1)
  }

  function Enqueue(s: State, a: Admission, d: Draw, base: int): State {
    var copies := Copies(a.data, d);
    var releaseAt := ReleaseAt(s, base, d.drawn);
    Record(s, a, d, base - a.at, releaseAt - base).(
      pending := s.pending + Held(copies, releaseAt),
      bufBytes := s.bufBytes + Total(copies),
      busyUntil := if a.cfg.bandwidth.None? then s.busyUntil else base,
      timer := if s.pending == [] then Some(Later(a.at, releaseAt)) else s.timer)
  }

  function Held(copies: seq<Bytes>, releaseAt: int): (h: seq<Delayed>)
    ensures |h| == |copies|
    ensures forall i | 0 <= i < |h| :: h[i] == Delayed(copies[i], releaseAt)
  {
    seq(|copies|, i requires 0 <= i < |copies| => Delayed(copies[i], releaseAt))
  }

  // ---- tryRead ----

  datatype ReadResult = Got(bytes: Bytes) | Eof | ReadWaits(notify: nat) | WaitsForHeal

  /** Up to len bytes off the front of the queue, and the queue that remains. An empty payload at the
      front goes as long as there is room in the buffer. */
  function Take(chunks: seq<Bytes>, len: nat): (Bytes, seq<Bytes>) {
    if chunks == [] || len == 0 then ([], chunks)
    else if |chunks[0]| <= len then
      var (bytes, rest) := Take(chunks[1..], len - |chunks[0]|);
      (chunks[0] + bytes, rest)
    else (chunks[0][..len], [chunks[0][len..]] + chunks[1..])
  }

  function TryRead(s: State, len: nat, partitioned: bool): (State, ReadResult) {
    if s.readClosed then (s, Eof)
    else
      var (bytes, rest) := Take(s.readable, len);
      var t := if s.readable == [] then s
               else s.(readable := rest, bufBytes := s.bufBytes - |bytes|, notify := s.notify + 1,
                       out := s.out + bytes);
      if s.readable != [] && (bytes != [] || len == 0) then (t, Got(bytes))
      else if t.closed && t.pending == [] then
        if t.eofSeen then (t, Eof)
        else if partitioned then (t, WaitsForHeal)
        else (t.(eofSeen := true), Eof)
      else (t, ReadWaits(t.notify))
  }

  // ---- releaseDueLatency, close, abort ----

  /** How many units at the front of the queue are due. */
  function Due(pending: seq<Delayed>, now: int): (k: nat)
    ensures k <= |pending|
    ensures forall i | 0 <= i < k :: pending[i].releaseAt <= now
    ensures k < |pending| ==> now < pending[k].releaseAt
  {
    if pending == [] || now < pending[0].releaseAt then 0 else 1 + Due(pending[1..], now)
  }

  function Release(s: State, now: int): State {
    var s := s.(clock := now);
    if s.readClosed then s
    else
      var k := Due(s.pending, now);
      var rest := s.pending[k..];
      s.(readable := s.readable + DataOf(s.pending[..k]),
         pending := rest,
         notify := if 0 < k then s.notify + 1 else s.notify,
         timer := if rest == [] then None else Some(Later(now, rest[0].releaseAt)))
  }

  function Close(s: State): State {
    if s.closed then s else s.(closed := true, notify := s.notify + 1)
  }

  function Abort(s: State): State {
    if s.readClosed then s
    else s.(readClosed := true, closed := true, timer := None, pending := [], readable := [],
            bufBytes := 0, notify := s.notify + 1)
  }

  // ---- Runs ----

  datatype Op =
    | Write(a: Admission)
    | Read(len: nat, partitioned: bool)
    | Fire(at: int)
    | CloseWriter
    | AbortReader

  ghost function Step(src: Sources, s: State, op: Op): State
    requires src.Fair() && (op.Write? ==> op.a.Valid())
  {
    match op
    case Write(a) => TryWrite(src, s, a).0
    case Read(len, partitioned) => TryRead(s, len, partitioned).0
    case Fire(at) => Release(s, at)
    case CloseWriter => Close(s)
    case AbortReader => Abort(s)
  }

  predicate Grows(s: State, a: Admission) {
    s.history != [] ==> s.history[|s.history| - 1].a.cfg.GrowsInto(a.cfg)
  }

  /** The clock never runs back, and a write is evaluated under settings that have only grown since the
      last one. The callback may run at any instant: a stale one finds nothing due. */
  predicate Legal(s: State, op: Op) {
    match op
    case Write(a) =>
      && a.Valid() && s.clock <= a.at
      && Grows(s, a)
    case Fire(at) => s.clock <= at
    case _ => true
  }

  ghost predicate Valid(ops: seq<Op>) {
    forall op | op in ops :: op.Write? ==> op.a.Valid()
  }

  /** The state after a run, one atomic step after the other. */
  ghost function After(src: Sources, s: State, ops: seq<Op>): State
    requires src.Fair() && Valid(ops)
  {
    if ops == [] then s
    else Step(src, After(src, s, ops[..|ops| - 1]), ops[|ops| - 1])
  }

  ghost predicate LegalRun(src: Sources, s: State, ops: seq<Op>)
    requires src.Fair() && Valid(ops)
  {
    ops == [] || (
      && LegalRun(src, s, ops[..|ops| - 1])
      && Legal(After(src, s, ops[..|ops| - 1]), ops[|ops| - 1]))
  }
}
