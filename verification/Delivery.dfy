/** What bytes a reader gets, unit by unit, in terms of the payloads written and of the events recorded. */
module Delivery {
  import opened Faults
  import opened PipeSpec
  import opened PipeInvariant
  import opened PipeRuns
  import opened Determinism
  import opened Decisions

  // ---- One unit ----

  /** The two bytes differ in this bit, counted from the least significant, and in no other. */
  predicate DifferInBit(b: bv8, c: bv8, bit: nat)
    requires bit < 8
  {
    b ^ c == [1, 2, 4, 8, 16, 32, 64, 128][bit]
  }

  lemma FlipIsOneBit(b: bv8, bit: nat)
    requires bit < 8
    ensures DifferInBit(b, FlipBit(b, bit), bit)
  {
    if bit == 0 {} else if bit == 1 {} else if bit == 2 {} else if bit == 3 {}
    else if bit == 4 {} else if bit == 5 {} else if bit == 6 {} else {}
  }

  /** A copy of the unit as it arrives: the payload, but for the one recorded bit if it was corrupted. */
  predicate Carries(u: Unit, chunk: Bytes) {
    && |chunk| == |u.a.data|
    && forall i | 0 <= i < |chunk| ::
         if u.e.draw.corrupted && i == u.e.draw.corruptByte
         then u.e.draw.corruptBit < 8 && DifferInBit(u.a.data[i], chunk[i], u.e.draw.corruptBit)
         else chunk[i] == u.a.data[i]
  }

  /** How often the unit arrives. */
  function Arrivals(u: Unit): nat {
    if u.e.draw.partitioned || u.e.draw.dropped then 0 else if u.e.draw.duplicated then 2 else 1
  }

  /** The bytes are all the copies of the unit, one behind the other. */
  predicate Arrives(u: Unit, bytes: Bytes) {
    var n := |u.a.data|;
    && |bytes| == Arrivals(u) * n
    && (Arrivals(u) == 1 ==> Carries(u, bytes))
    && (Arrivals(u) == 2 ==> Carries(u, bytes[..n]) && bytes[n..] == bytes[..n])
  }

  /** The bytes are what arrives of the units, in the order in which they were written. */
  predicate Delivers(units: seq<Unit>, bytes: Bytes) {
    if units == [] then bytes == []
    else
      var u := units[|units| - 1];
      var k := |bytes| - Arrivals(u) * |u.a.data|;
      0 <= k && Delivers(units[..|units| - 1], bytes[..k]) && Arrives(u, bytes[k..])
  }

  /** The recorded site of a corrupted unit that arrives is one of its bits. */
  predicate Sited(u: Unit) {
    u.e.draw.corruptBit < 8 && (u.a.data != [] ==> u.e.draw.corruptByte < |u.a.data|)
  }

  lemma ContentIsCarried(u: Unit)
    requires Sited(u)
    ensures Carries(u, Content(u.a.data, u.e.draw))
  {
    hide FlipBit;
    if u.a.data != [] {
      FlipIsOneBit(u.a.data[u.e.draw.corruptByte], u.e.draw.corruptBit);
    }
  }

  lemma CopiesArrive(u: Unit)
    requires Sited(u)
    ensures Arrives(u, Flat(Copies(u.a.data, u.e.draw)))
    ensures |Copies(u.a.data, u.e.draw)| == Arrivals(u)
    ensures forall c | c in Copies(u.a.data, u.e.draw) :: Carries(u, c)
  {
    hide Content, Carries;
    ContentIsCarried(u);
    var c := Content(u.a.data, u.e.draw);
    assert Flat([]) == [];
    assert Flat([c]) == c by { assert [c][1..] == []; }
    assert Flat([c, c]) == c + c by { assert [c, c][1..] == [c]; }
  }

  lemma {:induction false} ReplayDelivers(units: seq<Unit>)
    requires forall u | u in units :: Sited(u)
    ensures Delivers(units, Replay(units))
  {
    hide Arrives, Copies, Flat, Sited;
    if units == [] {
    } else {
      var n := |units| - 1;
      var u := units[n];
      ReplayDelivers(units[..n]);
      CopiesArrive(u);
      ArrivingLength(u, Flat(Copies(u.a.data, u.e.draw)));
      var bytes := Replay(units);
      var k := |bytes| - Arrivals(u) * |u.a.data|;
      assert bytes[..k] == Replay(units[..n]) && bytes[k..] == Flat(Copies(u.a.data, u.e.draw));
    }
  }

  lemma ArrivingLength(u: Unit, bytes: Bytes)
    requires Arrives(u, bytes)
    ensures |bytes| == Arrivals(u) * |u.a.data|
  {}

  // ---- Runs ----

  lemma RunIsSited(src: Sources, bound: int, tracing: bool, ops: seq<Op>)
    requires src.Fair() && Valid(ops)
    ensures forall u | u in After(src, Fresh(bound, tracing), ops).history :: Sited(u)
  {
    hide After, Determined;
    RunDetermined(src, bound, tracing, ops);
    DeterminedIsSited(src, After(src, Fresh(bound, tracing), ops));
  }

  lemma DeterminedIsSited(src: Sources, s: State)
    requires src.Fair() && Determined(src, s)
    ensures forall u | u in s.history :: Sited(u)
  {
    hide Decide, DecideAll;
    forall i | 0 <= i < |s.history|
      ensures Sited(s.history[i])
    {
      DecidedInTurn(src, AdmissionsOf(s.history), i);
    }
  }

  /** In every reachable state of a pipe that was not aborted, the bytes read, the readable and the delayed
      ones are the accepted payloads in order, each as often as its event says it arrives and byte for byte
      as it was written but for the recorded bit of a corrupted one. */
  lemma EveryByteIsAccountedFor(src: Sources, bound: int, tracing: bool, ops: seq<Op>)
    requires src.Fair() && Valid(ops) && LegalRun(src, Fresh(bound, tracing), ops)
    requires !After(src, Fresh(bound, tracing), ops).readClosed
    ensures var s := After(src, Fresh(bound, tracing), ops);
            && AdmissionsOf(s.history) == AcceptedBy(src, Fresh(bound, tracing), ops)
            && Delivers(s.history, ReadBy(src, Fresh(bound, tracing), ops) + Flat(s.readable) + Flat(DataOf(s.pending)))
  {
    hide After, LegalRun, AcceptedBy, ReadBy, Replay, Flat, Delivers, Sited;
    TraceExplainsBytes(src, bound, tracing, ops);
    RunIsSited(src, bound, tracing, ops);
    ReplayDelivers(After(src, Fresh(bound, tracing), ops).history);
  }

  /** After an abort what was read is the beginning of such a stream. */
  lemma ReadBytesAreAccountedFor(src: Sources, bound: int, tracing: bool, ops: seq<Op>) returns (bytes: Bytes)
    requires src.Fair() && Valid(ops) && LegalRun(src, Fresh(bound, tracing), ops)
    ensures ReadBy(src, Fresh(bound, tracing), ops) <= bytes
    ensures Delivers(After(src, Fresh(bound, tracing), ops).history, bytes)
  {
    hide After, LegalRun, ReadBy, Replay, Delivers, Sited;
    var s := After(src, Fresh(bound, tracing), ops);
    bytes := Replay(s.history);
    RunIsObserved(src, Fresh(bound, tracing), ops);
    ReadBytesAreExplained(src, bound, tracing, ops);
    RunIsSited(src, bound, tracing, ops);
    ReplayDelivers(s.history);
  }

  // ---- Runs in which nothing happens to the units ----

  /** The payloads, one behind the other. */
  function Written(admitted: seq<Admission>): Bytes {
    if admitted == [] then [] else Written(admitted[..|admitted| - 1]) + admitted[|admitted| - 1].data
  }

  predicate Plain(u: Unit) {
    !u.e.draw.partitioned && !u.e.draw.dropped && !u.e.draw.duplicated && !u.e.draw.corrupted
  }

  lemma {:induction false} PlainUnitsArriveAsWritten(units: seq<Unit>, bytes: Bytes)
    requires Delivers(units, bytes) && forall u | u in units :: Plain(u)
    ensures bytes == Written(AdmissionsOf(units))
  {
    if units == [] {
    } else {
      var n := |units| - 1;
      var u := units[n];
      var k := |bytes| - Arrivals(u) * |u.a.data|;
      assert Plain(u);
      PlainUnitsArriveAsWritten(units[..n], bytes[..k]);
      assert AdmissionsOf(units)[..n] == AdmissionsOf(units[..n]);
      assert bytes[k..] == u.a.data;
      assert bytes == bytes[..k] + bytes[k..];
    }
  }

  /** If no event records a fault, the bytes read, readable and delayed are the payloads written. */
  lemma PlainRunDeliversWhatWasWritten(src: Sources, bound: int, tracing: bool, ops: seq<Op>)
    requires src.Fair() && Valid(ops) && LegalRun(src, Fresh(bound, tracing), ops)
    requires var s := After(src, Fresh(bound, tracing), ops); !s.readClosed && forall u | u in s.history :: Plain(u)
    ensures var s := After(src, Fresh(bound, tracing), ops);
            ReadBy(src, Fresh(bound, tracing), ops) + Flat(s.readable) + Flat(DataOf(s.pending))
            == Written(AcceptedBy(src, Fresh(bound, tracing), ops))
  {
    hide After, LegalRun, AcceptedBy, ReadBy, Flat, Delivers, Written, Plain;
    var s := After(src, Fresh(bound, tracing), ops);
    EveryByteIsAccountedFor(src, bound, tracing, ops);
    PlainUnitsArriveAsWritten(s.history,
      ReadBy(src, Fresh(bound, tracing), ops) + Flat(s.readable) + Flat(DataOf(s.pending)));
  }

  /** The settings leave the unit's bytes alone: latency and bandwidth at most. */
  predicate Harmless(a: Admission) {
    !a.partitioned && a.cfg.loss.None? && a.cfg.duplicate.None? && a.cfg.corrupt.None?
  }

  /** Without partition, loss, duplication and corruption a connection is a faithful byte stream, whatever
      latency and bandwidth, buffer, reads and callbacks do. */
  lemma HarmlessRunIsAByteStream(src: Sources, bound: int, tracing: bool, ops: seq<Op>)
    requires src.Fair() && Valid(ops) && LegalRun(src, Fresh(bound, tracing), ops)
    requires !After(src, Fresh(bound, tracing), ops).readClosed
    requires forall a | a in AcceptedBy(src, Fresh(bound, tracing), ops) :: Harmless(a)
    ensures var s := After(src, Fresh(bound, tracing), ops);
            ReadBy(src, Fresh(bound, tracing), ops) + Flat(s.readable) + Flat(DataOf(s.pending))
            == Written(AcceptedBy(src, Fresh(bound, tracing), ops))
  {
    hide After, LegalRun, AcceptedBy, ReadBy, Flat, Written, LossWords, DuplicateWords, Meets;
    var s := After(src, Fresh(bound, tracing), ops);
    var admitted := AcceptedBy(src, Fresh(bound, tracing), ops);
    RunIsObserved(src, Fresh(bound, tracing), ops);
    assert AdmissionsOf(Fresh(bound, tracing).history) == [];
    assert AdmissionsOf(s.history) == admitted;
    forall i | 0 <= i < |s.history|
      ensures Plain(s.history[i])
    {
      RunIsDecidedByWords(src, bound, tracing, ops, i);
      assert Harmless(admitted[i]);
    }
    PlainRunDeliversWhatWasWritten(src, bound, tracing, ops);
  }
}
