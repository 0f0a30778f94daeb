/** How much a direction buffers, and how its stream ends. */
module PipeLimits {
  import opened Words
  import opened Faults
  import opened PipeSpec
  import opened PipeInvariant
  import opened PipeRuns

  // ---- The buffer bound ----

  /** The longest admitted payload. */
  function Longest(units: seq<Unit>): nat {
    if units == [] then 0
    else
      var n := |units| - 1;
      Later(Longest(units[..n]), |units[n].a.data|)
  }

  /** No unit was admitted a second time. */
  ghost predicate NeverDuplicated(units: seq<Unit>) {
    forall i | 0 <= i < |units| :: !units[i].e.draw.duplicated
  }

  function NonEmpty(chunks: seq<Bytes>): nat {
    if chunks == [] then 0 else (if chunks[0] == [] then 0 else 1) + NonEmpty(chunks[1..])
  }

  /** Every payload a pipe holds. */
  function Contents(s: State): seq<Bytes> { s.readable + DataOf(s.pending) }

  /** Above the bound there is one payload, admitted alone. */
  ghost predicate Bounded(s: State) {
    && s.bufBytes <= Later(s.bound, Longest(s.history)) + Longest(s.history)
    && (NeverDuplicated(s.history) ==>
          && s.bufBytes <= Later(s.bound, Longest(s.history))
          && (s.bound < s.bufBytes ==> NonEmpty(Contents(s)) == 1))
  }

  lemma {:induction false} NonEmptyConcat(xs: seq<Bytes>, ys: seq<Bytes>)
    ensures NonEmpty(xs + ys) == NonEmpty(xs) + NonEmpty(ys)
  {
    if xs == [] {
      assert xs + ys == ys;
    } else {
      NonEmptyConcat(xs[1..], ys);
      assert (xs + ys)[1..] == xs[1..] + ys;
    }
  }

  lemma {:induction false} EmptyIffNoBytes(xs: seq<Bytes>)
    ensures NonEmpty(xs) == 0 <==> Total(xs) == 0
  {
    if xs == [] {
    } else {
      EmptyIffNoBytes(xs[1..]);
    }
  }

  lemma {:induction false} TakeLeavesFewer(chunks: seq<Bytes>, len: nat)
    ensures NonEmpty(Take(chunks, len).1) <= NonEmpty(chunks)
  {
    if chunks == [] || len == 0 {
    } else {
      if |chunks[0]| <= len {
        TakeLeavesFewer(chunks[1..], len - |chunks[0]|);
      } else {
        assert ([chunks[0][len..]] + chunks[1..])[1..] == chunks[1..];
      }
    }
  }

  lemma HistoryGrows(units: seq<Unit>, u: Unit)
    ensures Longest(units + [u]) == Later(Longest(units), |u.a.data|)
    ensures NeverDuplicated(units + [u]) ==> NeverDuplicated(units) && !u.e.draw.duplicated
  {
    assert (units + [u])[..|units|] == units;
    assert (units + [u])[|units|] == u;
    assert forall i | 0 <= i < |units| :: (units + [u])[i] == units[i];
  }

  lemma ContentsTotal(s: State)
    requires Accounted(s)
    ensures Total(Contents(s)) == s.bufBytes
  {
    TotalConcat(s.readable, DataOf(s.pending));
  }

  lemma CopiesCounted(data: Bytes, d: Draw)
    ensures Total(Copies(data, d)) <= 2 * |data|
    ensures !d.duplicated ==> Total(Copies(data, d)) <= |data| && NonEmpty(Copies(data, d)) <= 1
    ensures NonEmpty(Copies(data, d)) == 0 <==> Total(Copies(data, d)) == 0
  {
    CopiesTotal(data, d);
    EmptyIffNoBytes(Copies(data, d));
  }

  lemma AdmissionBounded(s: State, t: State, u: Unit)
    requires Accounted(s) && Bounded(s) && 0 < s.bound && Admits(s, |u.a.data|)
    requires t.bound == s.bound && t.history == s.history + [u]
    requires t.bufBytes == s.bufBytes + Total(Copies(u.a.data, u.e.draw))
    requires NonEmpty(Contents(t)) == NonEmpty(Contents(s)) + NonEmpty(Copies(u.a.data, u.e.draw))
    ensures Bounded(t)
  {
    hide Copies, Longest, NonEmpty, Total, Contents, NeverDuplicated;
    ContentsTotal(s);
    EmptyIffNoBytes(Contents(s));
    CopiesCounted(u.a.data, u.e.draw);
    HistoryGrows(s.history, u);
  }

  lemma WriteBounded(src: Sources, s: State, a: Admission)
    requires src.Fair() && Inv(s) && Legal(s, Write(a)) && Bounded(s) && 0 < s.bound
    ensures Bounded(TryWrite(src, s, a).0)
  {
    hide LinkDelay, Base, Decide, Bounded, Copies, ReleaseAt;
    var u := s.(clock := a.at);
    BoundedByBuffers(s, u);
    if !u.closed && !u.readClosed && Admits(u, |a.data|) {
      var (d, pos) := Decide(src, u.pos, a);
      var v := u.(pos := pos);
      BoundedByBuffers(s, v);
      if !d.Survives() {
        DiscardBounded(v, a, d);
      } else if !a.cfg.Delays() {
        HandOverBounded(v, a, d);
      } else {
        EnqueueBounded(v, a, d, Base(v, a));
      }
    }
  }

  lemma BoundedByBuffers(s: State, t: State)
    requires t.bound == s.bound && t.history == s.history
    requires t.bufBytes <= s.bufBytes && NonEmpty(Contents(t)) <= NonEmpty(Contents(s)) && Accounted(t)
    ensures Bounded(s) && 0 < s.bound ==> Bounded(t)
  {
    hide Longest, Total, Contents, NeverDuplicated;
    ContentsTotal(t);
    EmptyIffNoBytes(Contents(t));
  }

  lemma DiscardBounded(s: State, a: Admission, d: Draw)
    requires Accounted(s) && Bounded(s) && 0 < s.bound && Admits(s, |a.data|) && !d.Survives()
    ensures Bounded(Discard(s, a, d))
  {
    hide Bounded;
    AdmissionBounded(s, Discard(s, a, d), Unit(a, FaultEvent(|s.history|, d, 0, 0)));
  }

  lemma HandOverBounded(s: State, a: Admission, d: Draw)
    requires Accounted(s) && Bounded(s) && 0 < s.bound && Admits(s, |a.data|) && s.pending == []
    ensures Bounded(HandOver(s, a, d))
  {
    hide Bounded, Total, Copies, NonEmpty;
    var copies := Copies(a.data, d);
    assert Contents(HandOver(s, a, d)) == Contents(s) + copies;
    NonEmptyConcat(Contents(s), copies);
    AdmissionBounded(s, HandOver(s, a, d), Unit(a, FaultEvent(|s.history|, d, 0, 0)));
  }

  lemma EnqueueBounded(s: State, a: Admission, d: Draw, base: int)
    requires Accounted(s) && Bounded(s) && 0 < s.bound && Admits(s, |a.data|)
    ensures Bounded(Enqueue(s, a, d, base))
  {
    hide Bounded, Total, Copies, NonEmpty, ReleaseAt;
    var copies := Copies(a.data, d);
    var releaseAt := ReleaseAt(s, base, d.drawn);
    HeldData(s.pending, copies, releaseAt);
    assert Contents(Enqueue(s, a, d, base)) == Contents(s) + copies;
    NonEmptyConcat(Contents(s), copies);
    AdmissionBounded(s, Enqueue(s, a, d, base), Unit(a, FaultEvent(|s.history|, d, base - a.at, releaseAt - base)));
  }

  lemma ReadBounded(s: State, len: nat, partitioned: bool)
    requires Inv(s) && Bounded(s) && 0 < s.bound
    ensures Bounded(TryRead(s, len, partitioned).0)
  {
    hide Bounded, Total, Explained, OnSchedule, Recorded, Linked, Armed;
    var t := TryRead(s, len, partitioned).0;
    ReadAccounted(s, len, partitioned);
    TakeLeavesFewer(s.readable, len);
    NonEmptyConcat(s.readable, DataOf(s.pending));
    NonEmptyConcat(t.readable, DataOf(t.pending));
    BoundedByBuffers(s, t);
  }

  lemma ReleaseKeepsContents(s: State, now: int)
    ensures Contents(Release(s, now)) == Contents(s)
  {
    hide Due, DataOf;
    if !s.readClosed {
      var k := Due(s.pending, now);
      SplitQueue(s.pending, k);
      Reassociate(s.readable, DataOf(s.pending[..k]), DataOf(s.pending[k..]));
    }
  }

  lemma Reassociate(x: seq<Bytes>, y: seq<Bytes>, z: seq<Bytes>)
    ensures x + (y + z) == x + y + z
  {}

  lemma ReleaseBounded(s: State, now: int)
    requires Inv(s) && Bounded(s) && 0 < s.bound
    ensures Bounded(Release(s, now))
  {
    hide Bounded, Contents, Explained, OnSchedule, Recorded, Linked, Armed, Total, Due, NonEmpty;
    if !s.readClosed {
      ReleaseAccounted(s, now);
    }
    ReleaseKeepsContents(s, now);
    BoundedByBuffers(s, Release(s, now));
  }

  lemma StepBounded(src: Sources, s: State, op: Op)
    requires src.Fair() && Inv(s) && Legal(s, op) && Bounded(s) && 0 < s.bound
    ensures Bounded(Step(src, s, op))
  {
    hide Inv, Bounded, TryWrite, TryRead, Release;
    match op
    case Write(a) => WriteBounded(src, s, a);
    case Read(len, partitioned) => ReadBounded(s, len, partitioned);
    case Fire(at) => ReleaseBounded(s, at);
    case CloseWriter =>
      assert Accounted(Close(s)) by { CloseKeeps(s); InvAccounts(Close(s)); }
      BoundedByBuffers(s, Close(s));
    case AbortReader =>
      assert Accounted(Abort(s)) by { AbortKeeps(s); InvAccounts(Abort(s)); }
      InvAccounts(s);
      AbortBounded(s);
  }

  lemma InvAccounts(s: State)
    requires Inv(s)
    ensures Accounted(s)
  {}

  lemma AbortBounded(s: State)
    requires Accounted(s) && Bounded(s) && 0 < s.bound
    ensures Bounded(Abort(s))
  {
    ContentsTotal(s);
    EmptyIffNoBytes(Contents(s));
  }

  /** Whatever the readers, the timer and the settings do, a direction never buffers more than the larger
      of the bound and the longest write, plus one duplicate; without duplication not even that, and then
      only a payload admitted alone exceeds the bound. */
  lemma {:induction false} BufferIsBounded(src: Sources, bound: int, tracing: bool, ops: seq<Op>)
    requires src.Fair() && Valid(ops) && LegalRun(src, Fresh(bound, tracing), ops) && 0 < bound
    ensures Bounded(After(src, Fresh(bound, tracing), ops)) && After(src, Fresh(bound, tracing), ops).bound == bound
  {
    hide Inv, Step, Bounded;
    RunIsObserved(src, Fresh(bound, tracing), ops);
    if ops == [] {
      FreshIsBounded(bound, tracing);
    } else {
      var before := ops[..|ops| - 1];
      BufferIsBounded(src, bound, tracing, before);
      RunKeeps(src, bound, tracing, before);
      RunIsObserved(src, Fresh(bound, tracing), before);
      StepBounded(src, After(src, Fresh(bound, tracing), before), ops[|ops| - 1]);
    }
  }

  lemma FreshIsBounded(bound: int, tracing: bool)
    requires 0 < bound
    ensures Bounded(Fresh(bound, tracing))
  {}

  /** A writer is only ever held back behind bytes that a reader has still to take. */
  lemma BlockedWriterHasUnreadBytes(src: Sources, s: State, a: Admission)
    requires src.Fair() && Inv(s) && a.Valid() && TryWrite(src, s, a).1.WriteBlocks?
    ensures 0 < |Flat(s.readable)| + |Flat(DataOf(s.pending))|
    ensures s.bound < s.bufBytes + |a.data|
  {
    hide Deliver, Explained, OnSchedule, Recorded, Linked, Armed;
    TotalIsFlatLength(s.readable);
    TotalIsFlatLength(DataOf(s.pending));
  }

  // ---- The end of the stream ----

  /** On a pipe that was not aborted a read reports the end of the stream exactly when the writer has
      closed, nothing is left to read or to be released, and no partition hides it, unless it has been
      reported before. */
  lemma EofExactly(s: State, len: nat, partitioned: bool)
    requires Inv(s) && !s.readClosed
    ensures TryRead(s, len, partitioned).1.Eof? <==>
              && s.closed && s.pending == [] && s.bufBytes == 0 && (0 < len || s.readable == [])
              && (s.eofSeen || !partitioned)
    ensures TryRead(s, len, partitioned).1.Eof? ==> TryRead(s, len, partitioned).0.out == Replay(s.history)
  {
    hide Replay, OnSchedule, Recorded, Linked, Armed;
    var (bytes, rest) := Take(s.readable, len);
    TakeSplitsStream(s.readable, len);
    TotalIsFlatLength(s.readable);
    assert Flat(DataOf([])) == [];
  }

  lemma EofStays(src: Sources, s: State, op: Op)
    requires src.Fair() && (op.Write? ==> op.a.Valid()) && Lifecycle(s) && (s.readClosed || s.eofSeen)
    ensures var t := Step(src, s, op); Lifecycle(t) && (t.readClosed || t.eofSeen)
  {
    hide Deliver;
  }

  /** Once reported, the end of the stream is reported by every later read, whatever happens in between
      and partitioned or not. */
  lemma {:induction false} EofIsPermanent(src: Sources, s: State, ops: seq<Op>, len: nat, partitioned: bool)
    requires src.Fair() && Valid(ops) && Lifecycle(s) && (s.readClosed || s.eofSeen)
    ensures var t := After(src, s, ops); Lifecycle(t) && (t.readClosed || t.eofSeen)
    ensures TryRead(After(src, s, ops), len, partitioned).1 == Eof
  {
    hide Step;
    if ops == [] {
    } else {
      var before := ops[..|ops| - 1];
      EofIsPermanent(src, s, before, len, partitioned);
      EofStays(src, After(src, s, before), ops[|ops| - 1]);
    }
  }

  /** The first report makes it permanent. */
  lemma EofIsRemembered(s: State, len: nat, partitioned: bool)
    requires Lifecycle(s) && TryRead(s, len, partitioned).1.Eof?
    ensures var t := TryRead(s, len, partitioned).0; t.readClosed || t.eofSeen
  {}

  /** A read into a non-empty buffer that returns without waiting returns bytes, and each such read
      leaves fewer to drain. */
  lemma ReadsDrain(s: State, len: nat, partitioned: bool)
    requires Inv(s) && 0 < len && TryRead(s, len, partitioned).1.Got?
    ensures var (t, r) := TryRead(s, len, partitioned);
            && r.bytes != [] && |r.bytes| <= len
            && t.bufBytes == s.bufBytes - |r.bytes|
            && r.bytes + Flat(t.readable) == Flat(s.readable)
  {
    hide Explained, OnSchedule, Recorded, Linked, Armed;
    TakeSplitsStream(s.readable, len);
  }

  // ---- Draining ----

  /** Reads into buffers of these lengths, with no partition in the way. */
  function ReadsOf(lens: seq<nat>): (ops: seq<Op>)
    ensures |ops| == |lens|
    ensures forall i | 0 <= i < |ops| :: ops[i] == Read(lens[i], false)
  {
    seq(|lens|, i requires 0 <= i < |lens| => Read(lens[i], false))
  }

  /** The writer is done and every unit has been released. */
  ghost predicate Ending(s: State) {
    Inv(s) && !s.readClosed && s.closed && s.pending == []
  }

  /** A read then finds the end of the stream or takes bytes. */
  lemma EndingReadGetsOn(s: State, len: nat)
    requires Ending(s) && 0 < len
    ensures var t := TryRead(s, len, false).0;
            Ending(t) && t.history == s.history && (t.eofSeen || t.bufBytes < s.bufBytes) && (s.eofSeen ==> t.eofSeen)
  {
    hide Explained, OnSchedule, Recorded, Linked, Armed, Take, Flat, Total;
    TakeSplitsStream(s.readable, len);
    ReadKeeps(s, len, false);
  }

  lemma {:induction false} EndingReadsGetOn(src: Sources, s: State, lens: seq<nat>)
    requires src.Fair() && Ending(s) && forall i | 0 <= i < |lens| :: 0 < lens[i]
    ensures var t := After(src, s, ReadsOf(lens));
            Ending(t) && t.history == s.history && (t.eofSeen || t.bufBytes <= s.bufBytes - |lens|)
  {
    hide Ending, TryRead;
    if lens == [] {
    } else {
      var n := |lens| - 1;
      EndingReadsGetOn(src, s, lens[..n]);
      assert ReadsOf(lens)[..n] == ReadsOf(lens[..n]);
      EndingReadGetsOn(After(src, s, ReadsOf(lens[..n])), lens[n]);
    }
  }

  lemma EndedHasReadAll(s: State)
    requires Ending(s) && (s.eofSeen || s.bufBytes < 0)
    ensures s.eofSeen && s.out == Replay(s.history)
  {
    hide OnSchedule, Recorded, Linked, Armed, Replay;
    assert Flat(DataOf([])) == [];
  }

  lemma ReleasedIsEnding(s: State, at: int)
    requires Inv(s) && !s.readClosed && s.closed && s.clock <= at
    requires forall i | 0 <= i < |s.pending| :: s.pending[i].releaseAt <= at
    ensures var t := Release(s, at); Ending(t) && t.bufBytes == s.bufBytes && t.history == s.history
  {
    hide Inv;
    ReleaseKeeps(s, at);
  }

  lemma CloseIsReady(s: State)
    requires Inv(s) && !s.readClosed
    ensures var t := Close(s);
            && Inv(t) && !t.readClosed && t.closed && t.clock == s.clock && t.pending == s.pending
            && t.bufBytes == s.bufBytes && t.history == s.history
  {
    hide Inv;
    CloseKeeps(s);
  }

  /** When the writer closes, the last release and one read more than there are bytes, into any buffers,
      always get a reader to the end of the stream with everything that was to arrive. */
  lemma ClosedPipeDrains(src: Sources, s: State, at: int, lens: seq<nat>)
    requires src.Fair() && Inv(s) && !s.readClosed && s.clock <= at
    requires forall i | 0 <= i < |s.pending| :: s.pending[i].releaseAt <= at
    requires s.bufBytes < |lens| && forall i | 0 <= i < |lens| :: 0 < lens[i]
    ensures var t := After(src, Step(src, Step(src, s, CloseWriter), Fire(at)), ReadsOf(lens));
            t.eofSeen && t.history == s.history && t.out == Replay(s.history)
  {
    hide Inv, Ending, After, Release, Close, Replay;
    var u := Close(s);
    CloseIsReady(s);
    ReleasedIsEnding(u, at);
    EndingReadsGetOn(src, Release(u, at), lens);
    EndedHasReadAll(After(src, Release(u, at), ReadsOf(lens)));
  }
}
