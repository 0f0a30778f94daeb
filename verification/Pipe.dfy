/** pipe.go, latency.go and the evaluator of faults.go in their own form: an object whose methods update
    its queues, counters and timer in place. Every method is proved to take the step PipeSpec gives it. */
module Pipe {
  import opened Words
  import opened Draws
  import opened Faults
  import opened Controls
  import Bandwidth
  import Spec = PipeSpec
  import opened PipeInvariant

  /** Go's copy into the part of b from n on. */
  method Copy(b: array<bv8>, n: nat, chunk: Bytes)
    requires n + |chunk| <= b.Length
    modifies b
    ensures b[..n + |chunk|] == old(b[..n]) + chunk
    ensures b[n + |chunk|..] == old(b[n + |chunk|..])
  {
    forall i | 0 <= i < |chunk| {
      b[n + i] := chunk[i];
    }
  }

  class Pipe {
    const bound: int
    const network: Network
    const pair: PairKey
    const loss: Stream
    const latency: Stream
    const duplicate: Stream
    const corrupt: Stream

    var readable: seq<Bytes>
    var pending: seq<Spec.Delayed>
    var bufBytes: int
    var busyUntil: int
    var timer: Option<int>
    var closed: bool
    var readClosed: bool
    var eofSeen: bool
    var notify: nat
    var trace: Option<seq<FaultEvent>>     // the direction's recorder, None without one

    ghost var history: seq<Unit>
    ghost var out: Bytes
    ghost var clock: int

    ghost function Streams(): Sources
    {
      Sources(loss.src, latency.src, duplicate.src, corrupt.src)
    }

    ghost predicate Valid()
      reads network
    {
      && Streams().Fair()
      && loss != latency && loss != duplicate && loss != corrupt
      && latency != duplicate && latency != corrupt && duplicate != corrupt
      && network.Valid()
    }

    /** The objects a write may change. */
    ghost function Parts(): set<object>
    {
      {this, loss, latency, duplicate, corrupt}
    }

    ghost function View(): Spec.State
      reads Parts()
    {
      Spec.State(bound, readable, pending, bufBytes, busyUntil, timer, closed, readClosed, eofSeen, notify,
                 Positions(loss.pos, latency.pos, duplicate.pos, corrupt.pos),
                 trace, history, out, clock)
    }

    constructor (bound: int, network: Network, pair: PairKey, src: Sources, tracing: bool)
      requires src.Fair() && network.Valid()
      ensures Valid() && Streams() == src && this.network == network && this.pair == pair
      ensures View() == Spec.Fresh(bound, tracing)
      ensures fresh(Parts())
    {
      this.bound := bound;
      this.network := network;
      this.pair := pair;
      loss := new Stream(src.loss);
      latency := new Stream(src.latency);
      duplicate := new Stream(src.duplicate);
      corrupt := new Stream(src.corrupt);
      trace := if tracing then Some([]) else None;
      readable, pending, bufBytes, busyUntil, timer := [], [], 0, 0, None;
      closed, readClosed, eofSeen, notify := false, false, false, 0;
      history, out, clock := [], [], 0;
    }

    // ---- tryRead ----

    lemma TakeUnfolds(chunks: seq<Bytes>, len: nat)
      ensures chunks == [] || len == 0 ==> Spec.Take(chunks, len) == ([], chunks)
      ensures chunks != [] && 0 < len && |chunks[0]| <= len ==>
        var rest := Spec.Take(chunks[1..], len - |chunks[0]|);
        Spec.Take(chunks, len) == (chunks[0] + rest.0, rest.1)
      ensures chunks != [] && 0 < len < |chunks[0]| ==>
        Spec.Take(chunks, len) == (chunks[0][..len], [chunks[0][len..]] + chunks[1..])
    {}

    /** One round of the copying loop of tryRead: from the head of the queue into b from n on. */
    method CopyHead(b: array<bv8>, n: nat) returns (m: nat)
      requires readable != [] && n < b.Length
      modifies `readable, b
      ensures n <= m <= b.Length && b[..n] == old(b[..n]) && b[m..] == old(b[m..])
      ensures var before, after := Spec.Take(old(readable), b.Length - n), Spec.Take(readable, b.Length - m);
              before.0 == b[n..m] + after.0 && before.1 == after.1
      ensures n < m || |readable| < |old(readable)|
    {
      hide Spec.Take;
      var chunk := readable[0];
      var copied := if |chunk| <= b.Length - n then |chunk| else b.Length - n;
      TakeUnfolds(readable, b.Length - n);
      Copy(b, n, chunk[..copied]);
      m := n + copied;
      assert b[n..m] == chunk[..copied] by {
        assert b[..m][n..] == b[n..m];
      }
      if copied == |chunk| {
        readable := readable[1..];
      } else {
        readable := [chunk[copied..]] + readable[1..];
        TakeUnfolds(readable, 0);
      }
    }

    method CopyOut(b: array<bv8>) returns (n: nat)
      modifies `readable, b
      ensures n <= b.Length && Spec.Take(old(readable), b.Length) == (b[..n], readable)
      ensures b[n..] == old(b[n..])
    {
      hide Spec.Take;
      n := 0;
      while 0 < |readable| && n < b.Length
        invariant 0 <= n <= b.Length
        invariant Spec.Take(old(readable), b.Length).0 == b[..n] + Spec.Take(readable, b.Length - n).0
        invariant Spec.Take(old(readable), b.Length).1 == Spec.Take(readable, b.Length - n).1
        invariant b[n..] == old(b[n..])
        decreases b.Length - n, |readable|
      {
        var m := CopyHead(b, n);
        Joined(b[..n], b[n..m], Spec.Take(readable, b.Length - m).0);
        assert b[..m] == b[..n] + b[n..m];
        n := m;
      }
      TakeUnfolds(readable, b.Length - n);
      assert b[..n] + [] == b[..n];
    }

    lemma Joined(x: Bytes, y: Bytes, z: Bytes)
      ensures x + (y + z) == x + y + z
    {}

    /** The part of tryRead that finds the end of the stream, or what to wait for. */
    method EndOrWait() returns (r: Spec.ReadResult)
      modifies `eofSeen
      ensures eofSeen == (old(eofSeen) || (closed && pending == [] && pair !in network.partitions))
      ensures r == if !closed || pending != [] then Spec.ReadWaits(notify)
                   else if eofSeen then Spec.Eof else Spec.WaitsForHeal
    {
      if closed && |pending| == 0 {
        if eofSeen {
          return Spec.Eof;
        }
        var partitioned, _ := network.CheckPartition(pair);
        if partitioned {
          return Spec.WaitsForHeal;
        }
        eofSeen := true;
        return Spec.Eof;
      }
      return Spec.ReadWaits(notify);
    }

    method TryRead(b: array<bv8>) returns (r: Spec.ReadResult)
      requires Valid()
      modifies this, b
      ensures (View(), r) == Spec.TryRead(old(View()), b.Length, pair in network.partitions)
      ensures r.Got? ==> |r.bytes| <= b.Length && b[..|r.bytes|] == r.bytes && b[|r.bytes|..] == old(b[|r.bytes|..])
      ensures !r.Got? ==> b[..] == old(b[..])
    {
      hide Spec.Take;
      if readClosed {
        return Spec.Eof;
      }
      if 0 < |readable| {
        var n := CopyOut(b);
        bufBytes := bufBytes - n;
        notify := notify + 1;
        out := out + b[..n];
        if 0 < n || b.Length == 0 {
          return Spec.Got(b[..n]);
        }
      }
      r := EndOrWait();
    }

    // ---- tryWrite ----

    /** A configured probability costs one draw of its own stream. */
    method Toss(stream: Stream, rate: Option<real>) returns (hit: bool)
      modifies stream
      ensures (hit, stream.pos) == Coin(stream.src, rate, old(stream.pos))
    {
      hit := false;
      if rate.Some? {
        hit := stream.Bernoulli(rate.value);
      }
    }

    method DrawLatency(range: Option<(int, int)>) returns (drawn: int)
      requires Draws.Fair(latency.src) && (range.Some? ==> 0 <= range.value.0 <= range.value.1 <= MAX_INT)
      modifies latency
      ensures (drawn, latency.pos) == Delay(latency.src, range, old(latency.pos))
    {
      drawn := 0;
      if range.Some? {
        drawn := latency.UniformDuration(range.value.0, range.value.1);
      }
    }

    /** Corruption's coin, and the flip in place: only of a unit that loss let through and that has a
        byte to flip. */
    method CorruptData(data: array<bv8>, rate: Option<real>, dropped: bool) returns (corrupted: bool, byteIndex: nat, bitIndex: nat)
      requires Draws.Fair(corrupt.src) && data.Length <= MAX_INT
      modifies corrupt, data
      ensures (corrupted, byteIndex, bitIndex, corrupt.pos)
           == Corruption(corrupt.src, rate, data.Length, dropped, old(corrupt.pos))
      ensures bitIndex < 8 && (0 < data.Length ==> byteIndex < data.Length)
      ensures data[..] == if corrupted && !dropped && 0 < data.Length
                          then old(data[..])[byteIndex := FlipBit(old(data[byteIndex]), bitIndex)] else old(data[..])
    {
      hide Site;
      byteIndex, bitIndex := 0, 0;
      corrupted := Toss(corrupt, rate);
      if corrupted && 0 < data.Length && !dropped {
        byteIndex, bitIndex := corrupt.CorruptionSite(data.Length);
        data[byteIndex] := FlipBit(data[byteIndex], bitIndex);
      }
    }

    /** The draws for one unit that cleared the partition gate. */
    method DrawFaults(data: array<bv8>, ghost a: Admission) returns (d: Draw)
      requires Valid() && a.Valid() && data[..] == a.data && a.cfg == network.faults && !a.partitioned
      modifies loss, latency, duplicate, corrupt, data
      ensures (d, Positions(loss.pos, latency.pos, duplicate.pos, corrupt.pos))
           == Decide(Streams(), old(Positions(loss.pos, latency.pos, duplicate.pos, corrupt.pos)), a)
      ensures d.Survives() ==> data[..] == Content(a.data, d)
      ensures !d.partitioned
    {
      hide Coin, Delay, Corruption, FlipBit;
      var cfg := network.faults;
      var dropped := Toss(loss, cfg.loss);
      var drawn := DrawLatency(cfg.latency);
      var duplicated := Toss(duplicate, cfg.duplicate);
      var corrupted, byteIndex, bitIndex := CorruptData(data, cfg.corrupt, dropped);
      d := Draw(false, dropped, duplicated, corrupted, drawn, data.Length, byteIndex, bitIndex);
    }

    /** A partitioned or dropped unit gives back the room it was admitted with. */
    method Discard(size: nat, ghost a: Admission, d: Draw)
      modifies this
      ensures View() == Spec.Discard(old(View()).(bufBytes := old(bufBytes) - size), a, d)
    {
      bufBytes := bufBytes - size;
      Note(a, d, 0, 0);
      notify := notify + 1;
    }

    method HandOver(data: array<bv8>, ghost a: Admission, d: Draw)
      requires d.Survives() && data[..] == Content(a.data, d)
      modifies this
      ensures View() == Spec.HandOver(old(View()).(bufBytes := old(bufBytes) - data.Length), a, d)
    {
      hide Content, Spec.Total;
      CopiesTotal(a.data, d);
      Note(a, d, 0, 0);
      readable := readable + [data[..]];
      if d.duplicated {
        bufBytes := bufBytes + data.Length;
        readable := readable + [data[..]];
      }
      notify := notify + 1;
    }

    /** The link clock: when the unit finishes transmitting. */
    method Transmit(size: nat, now: int, ghost a: Admission) returns (base: int)
      requires a.Valid() && a.cfg == network.faults && size == |a.data| && now == a.at
      modifies `busyUntil
      ensures base == Spec.Base(old(View()), a)
      ensures busyUntil == if a.cfg.bandwidth.None? then old(busyUntil) else base
    {
      base := now;
      if network.faults.bandwidth.Some? {
        if base < busyUntil {
          base := busyUntil;
        }
        base := base + Bandwidth.SerializationDelay(size, network.faults.bandwidth.value);
        busyUntil := base;
      }
    }

    /** Never before the unit at the tail of the queue. */
    method ClampToTail(due: int) returns (releaseAt: int)
      ensures releaseAt == Spec.ReleaseAt(View(), due, 0)
    {
      releaseAt := due;
      if 0 < |pending| {
        var prev := pending[|pending| - 1].releaseAt;
        if releaseAt < prev {
          releaseAt := prev;
        }
      }
    }

    method Enqueue(data: array<bv8>, now: int, ghost a: Admission, d: Draw, base: int)
      requires d.Survives() && data[..] == Content(a.data, d) && now == a.at
      modifies this
      ensures View() == Spec.Enqueue(old(View()).(bufBytes := old(bufBytes) - data.Length), a, d, base).(busyUntil := old(busyUntil))
    {
      hide Copies, Content, Spec.Total, Spec.Held;
      CopiesTotal(a.data, d);
      var releaseAt := ClampToTail(base + d.drawn);
      Note(a, d, base - now, releaseAt - base);
      Append(data[..], releaseAt, d.duplicated, now);
      HeldCopies(a.data, d, releaseAt);
    }

    lemma HeldCopies(data: Bytes, d: Draw, releaseAt: int)
      requires d.Survives()
      ensures var x := Spec.Delayed(Content(data, d), releaseAt);
              Spec.Held(Copies(data, d), releaseAt) == if d.duplicated then [x, x] else [x]
    {}

    /** The unit, and its duplicate behind it with the same release; one arming covers both. */
    method Append(chunk: Bytes, releaseAt: int, duplicated: bool, now: int)
      modifies `pending, `timer, `bufBytes
      ensures var x := Spec.Delayed(chunk, releaseAt);
              pending == old(pending) + if duplicated then [x, x] else [x]
      ensures timer == if old(pending) == [] then Some(Later(now, releaseAt)) else old(timer)
      ensures bufBytes == old(bufBytes) + if duplicated then |chunk| else 0
    {
      pending := pending + [Spec.Delayed(chunk, releaseAt)];
      ArmForAppend(now);
      if duplicated {
        bufBytes := bufBytes + |chunk|;
        pending := pending + [Spec.Delayed(chunk, releaseAt)];
      }
    }

    /** Loss, bandwidth, latency and duplication, once the draws are known. */
    method Settle(data: array<bv8>, now: int, ghost a: Admission, d: Draw)
      requires a.Valid() && a.cfg == network.faults && data.Length == |a.data| && now == a.at && !d.partitioned
      requires d.Survives() ==> data[..] == Content(a.data, d)
      modifies this
      ensures View() == Spec.Settle(old(View()).(bufBytes := old(bufBytes) - data.Length), a, d)
    {
      hide Spec.Discard, Spec.HandOver, Spec.Enqueue, Spec.LinkDelay, Content;
      if d.dropped {
        Discard(data.Length, a, d);
      } else if network.faults.latency.None? && network.faults.bandwidth.None? {
        HandOver(data, a, d);
      } else {
        EnqueueSetsLink(View().(bufBytes := bufBytes - data.Length), a, d, Spec.Base(View(), a));
        var base := Transmit(data.Length, now, a);
        Enqueue(data, now, a, d, base);
      }
    }

    /** The composed evaluator for one unit. data is the private copy of the caller's bytes, already
        counted against the bound. */
    method Deliver(data: array<bv8>, now: int)
      requires Valid() && data.Length <= MAX_INT && 0 <= now
      modifies Parts(), data
      ensures Valid()
      ensures var a := Admission(old(data[..]), now, network.faults, pair in network.partitions);
              View() == Spec.Deliver(Streams(), old(View()).(bufBytes := old(bufBytes) - data.Length), a)
    {
      hide Decide, Spec.Discard, Spec.Settle, Content;
      ghost var a := Admission(data[..], now, network.faults, pair in network.partitions);
      if pair in network.partitions {
        PartitionDrawsNothing(a, View());
        Discard(data.Length, a, PARTITIONED);
      } else {
        var d := DrawFaults(data, a);
        Settle(data, now, a, d);
      }
    }

    lemma EnqueueSetsLink(s: Spec.State, a: Admission, d: Draw, base: int)
      ensures var busy := if a.cfg.bandwidth.None? then s.busyUntil else base;
              Spec.Enqueue(s, a, d, base) == Spec.Enqueue(s.(busyUntil := busy), a, d, base).(busyUntil := busy)
    {}

    lemma PartitionDrawsNothing(a: Admission, s: Spec.State)
      requires Streams().Fair() && a.Valid() && a.partitioned
      ensures Decide(Streams(), s.pos, a) == (PARTITIONED, s.pos)
      ensures forall n: int :: Spec.Settle(s.(bufBytes := n), a, PARTITIONED) == Spec.Discard(s.(bufBytes := n), a, PARTITIONED)
    {}

    method TryWrite(data: array<bv8>, now: int) returns (r: Spec.WriteResult)
      requires Valid() && data.Length <= MAX_INT && 0 <= now
      modifies Parts(), data
      ensures Valid()
      ensures var a := Admission(old(data[..]), now, network.faults, pair in network.partitions);
              (View(), r) == Spec.TryWrite(Streams(), old(View()), a)
    {
      hide Spec.Deliver;
      clock := now;
      if closed || readClosed {
        return Spec.BrokenPipe;
      }
      if bufBytes == 0 || bufBytes + data.Length <= bound {
        bufBytes := bufBytes + data.Length;
        Deliver(data, now);
        return Spec.Accepted(data.Length);
      }
      return Spec.WriteBlocks(notify);
    }

    /** traceRecorder.record, when there is a recorder. */
    method Note(ghost a: Admission, d: Draw, serialized: int, effective: int)
      modifies `history, `trace
      ensures View() == Spec.Record(old(View()), a, d, serialized, effective)
    {
      if trace.Some? {
        trace := Some(trace.value + [FaultEvent(|trace.value|, d, serialized, effective)]);
      }
      history := history + [Unit(a, FaultEvent(|history|, d, serialized, effective))];
    }

    // ---- close and abort ----

    method Close()
      modifies this
      ensures View() == Spec.Close(old(View()))
    {
      if closed {
        return;
      }
      closed := true;
      notify := notify + 1;
    }

    method Abort()
      modifies this
      ensures View() == Spec.Abort(old(View()))
    {
      if readClosed {
        return;
      }
      readClosed := true;
      closed := true;
      timer := None;
      pending := [];
      readable := [];
      bufBytes := 0;
      notify := notify + 1;
    }

    // ---- The release timer ----

    /** (Re)arms the one timer for the current head of the queue, or clears it. */
    method ArmTimer(now: int)
      modifies `timer
      ensures timer == if pending == [] then None else Some(Later(now, pending[0].releaseAt))
    {
      timer := None;
      if |pending| == 0 {
        return;
      }
      var delay := pending[0].releaseAt - now;
      if delay < 0 {
        delay := 0;
      }
      timer := Some(now + delay);
    }

    /** After an append the head is new only if the queue was empty before. */
    method ArmForAppend(now: int)
      modifies `timer
      ensures timer == if |pending| == 1 then Some(Later(now, pending[0].releaseAt)) else old(timer)
    {
      if |pending| != 1 {
        return;
      }
      ArmTimer(now);
    }

    lemma DueUnfolds(queue: seq<Spec.Delayed>, i: nat, now: int)
      requires i <= |queue|
      ensures Spec.Due(queue[i..], now)
           == if i < |queue| && queue[i].releaseAt <= now then 1 + Spec.Due(queue[i + 1..], now) else 0
      ensures i < |queue| ==> Spec.DataOf(queue[..i + 1]) == Spec.DataOf(queue[..i]) + [queue[i].data]
      ensures Spec.DataOf(queue[..0]) == [] && queue[0..] == queue
    {
      if i < |queue| {
        assert queue[i..][1..] == queue[i + 1..];
      }
    }

    /** The loop of releaseDueLatency. */
    method MoveDue(now: int) returns (i: nat)
      modifies `readable
      ensures i == Spec.Due(pending, now)
      ensures readable == old(readable) + Spec.DataOf(pending[..i])
    {
      hide Spec.Due, Spec.DataOf;
      i := 0;
      DueUnfolds(pending, 0, now);
      while i < |pending| && !(now < pending[i].releaseAt)
        invariant 0 <= i <= |pending|
        invariant readable == old(readable) + Spec.DataOf(pending[..i])
        invariant i + Spec.Due(pending[i..], now) == Spec.Due(pending, now)
      {
        DueUnfolds(pending, i, now);
        readable := readable + [pending[i].data];
        i := i + 1;
      }
      DueUnfolds(pending, i, now);
    }

    /** The timer's callback. */
    method ReleaseDueLatency(now: int)
      modifies this
      ensures View() == Spec.Release(old(View()), now)
    {
      hide Spec.Due, Spec.DataOf;
      clock := now;
      if readClosed {
        return;
      }
      var i := MoveDue(now);
      if 0 < i {
        pending := pending[i..];
        notify := notify + 1;
      } else {
        assert pending[0..] == pending;
      }
      ArmTimer(now);
    }
  }
}
