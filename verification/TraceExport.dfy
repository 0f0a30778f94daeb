/** trace.go: one recorder a direction, and the export that puts all of them in one order. */
module TraceExport {
  import opened Faults

  // ---- The order of an exported trace ----

  /** An event with the direction it happened on. */
  datatype Exported = Exported(ordinal: nat, side: nat, event: FaultEvent)

  predicate KeyBefore(o: nat, s: nat, o': nat, s': nat) {
    o < o' || (o == o' && s < s')
  }

  /** By ordinal, then side, then position. */
  predicate Before(x: Exported, y: Exported) {
    KeyBefore(x.ordinal, x.side, y.ordinal, y.side)
    || (x.ordinal == y.ordinal && x.side == y.side && x.event.sequence < y.event.sequence)
  }

  predicate Increasing(out: seq<Exported>) {
    forall i, j | 0 <= i < j < |out| :: Before(out[i], out[j])
  }

  /** Two exports with the same events in this order are the same. */
  lemma {:induction false} IncreasingIsUnique(xs: seq<Exported>, ys: seq<Exported>)
    requires Increasing(xs) && Increasing(ys)
    requires forall x :: x in xs <==> x in ys
    ensures xs == ys
  {
    if xs == [] || ys == [] {
      SameEmptiness(xs, ys);
    } else {
      assert xs[0] in ys && ys[0] in xs;
      var i :| 0 <= i < |ys| && ys[i] == xs[0];
      var j :| 0 <= j < |xs| && xs[j] == ys[0];
      assert xs[0] == ys[0];
      RestHasTheRest(xs, ys);
      IncreasingIsUnique(xs[1..], ys[1..]);
    }
  }

  lemma SameEmptiness(xs: seq<Exported>, ys: seq<Exported>)
    requires forall x :: x in xs <==> x in ys
    ensures xs == [] <==> ys == []
  {
    assert xs != [] ==> xs[0] in ys;
    assert ys != [] ==> ys[0] in xs;
  }

  lemma RestHasTheRest(xs: seq<Exported>, ys: seq<Exported>)
    requires Increasing(xs) && Increasing(ys) && xs != [] && ys != [] && xs[0] == ys[0]
    requires forall x :: x in xs <==> x in ys
    ensures Increasing(xs[1..]) && Increasing(ys[1..])
    ensures forall x :: x in xs[1..] <==> x in ys[1..]
  {
    RestIsTheRest(xs);
    RestIsTheRest(ys);
  }

  /** What comes after the first event is everything but the first event. */
  lemma RestIsTheRest(xs: seq<Exported>)
    requires Increasing(xs) && xs != []
    ensures Increasing(xs[1..])
    ensures forall x :: x in xs[1..] <==> x in xs && x != xs[0]
  {
    assert xs == [xs[0]] + xs[1..];
    assert forall i | 0 <= i < |xs| - 1 :: xs[1..][i] == xs[i + 1] && Before(xs[0], xs[i + 1]);
  }

  // ---- What was recorded ----

  /** What one direction's recorder holds. */
  datatype Track = Track(ordinal: nat, side: nat, events: seq<FaultEvent>)

  predicate Numbered(events: seq<FaultEvent>) {
    forall i | 0 <= i < |events| :: events[i].sequence == i
  }

  predicate From(t: Track, x: Exported) {
    x.ordinal == t.ordinal && x.side == t.side && x.event in t.events
  }

  /** The event is one of those recorded. */
  ghost predicate Recorded(tracks: seq<Track>, x: Exported) {
    exists i | 0 <= i < |tracks| :: From(tracks[i], x)
  }

  /** Every event recorded, once, in order, and nothing else. */
  ghost predicate IsExport(tracks: seq<Track>, out: seq<Exported>) {
    Increasing(out) && forall x :: x in out <==> Recorded(tracks, x)
  }

  /** The export does not depend on the order in which racing dials registered their directions. */
  lemma ExportIgnoresRegistrationOrder(tracks: seq<Track>, out: seq<Exported>, tracks': seq<Track>, out': seq<Exported>)
    requires IsExport(tracks, out) && IsExport(tracks', out') && multiset(tracks) == multiset(tracks')
    ensures out == out'
  {
    forall x
      ensures x in out <==> x in out'
    {
      SameTracks(tracks, tracks', x);
      SameTracks(tracks', tracks, x);
    }
    IncreasingIsUnique(out, out');
  }

  lemma SameTracks(tracks: seq<Track>, tracks': seq<Track>, x: Exported)
    requires multiset(tracks) == multiset(tracks')
    ensures Recorded(tracks, x) ==> Recorded(tracks', x)
  {
    if Recorded(tracks, x) {
      var i :| 0 <= i < |tracks| && From(tracks[i], x);
      assert tracks[i] in multiset(tracks');
      assert tracks[i] in tracks';
    }
  }

  // ---- The recorder ----

  class Recorder {
    var events: seq<FaultEvent>

    ghost predicate Valid()
      reads this
    {
      Numbered(events)
    }

    constructor ()
      ensures Valid() && events == []
    {
      events := [];
    }

    method Record(draw: Draw, serialized: int, effective: int)
      requires Valid()
      modifies this
      ensures Valid()
      ensures events == old(events) + [FaultEvent(|old(events)|, draw, serialized, effective)]
    {
      events := events + [FaultEvent(|events|, draw, serialized, effective)];
    }
  }

  // ---- The registry of directions and its export ----

  datatype Handle = Handle(ordinal: nat, side: nat, rec: Recorder)

  predicate Sorted(hs: seq<Handle>) {
    forall i, j | 0 <= i < j < |hs| :: !KeyBefore(hs[j].ordinal, hs[j].side, hs[i].ordinal, hs[i].side)
  }

  lemma InsertedIsSorted(hs: seq<Handle>, h: Handle, i: nat)
    requires Sorted(hs) && i <= |hs|
    requires 0 < i ==> !KeyBefore(h.ordinal, h.side, hs[i - 1].ordinal, hs[i - 1].side)
    requires forall j | i <= j < |hs| :: KeyBefore(h.ordinal, h.side, hs[j].ordinal, hs[j].side)
    ensures Sorted(hs[..i] + [h] + hs[i..])
  {
    var r := hs[..i] + [h] + hs[i..];
    forall a, b | 0 <= a < b < |r|
      ensures !KeyBefore(r[b].ordinal, r[b].side, r[a].ordinal, r[a].side)
    {
      if b == i && a < i - 1 {
        assert !KeyBefore(hs[i - 1].ordinal, hs[i - 1].side, hs[a].ordinal, hs[a].side);
      }
    }
  }

  /** Puts a handle behind those that do not come after it. */
  method Insert(hs: seq<Handle>, h: Handle) returns (r: seq<Handle>)
    requires Sorted(hs)
    ensures Sorted(r) && multiset(r) == multiset(hs) + multiset{h}
  {
    hide Sorted;
    var i := |hs|;
    while 0 < i && KeyBefore(h.ordinal, h.side, hs[i - 1].ordinal, hs[i - 1].side)
      invariant 0 <= i <= |hs|
      invariant forall j | i <= j < |hs| :: KeyBefore(h.ordinal, h.side, hs[j].ordinal, hs[j].side)
    {
      i := i - 1;
    }
    r := hs[..i] + [h] + hs[i..];
    InsertedIsSorted(hs, h, i);
    assert hs == hs[..i] + hs[i..];
  }

  method SortHandles(hs: seq<Handle>) returns (r: seq<Handle>)
    ensures Sorted(r) && multiset(r) == multiset(hs)
  {
    r := [];
    for i := 0 to |hs|
      invariant Sorted(r) && multiset(r) == multiset(hs[..i])
    {
      assert hs[..i + 1] == hs[..i] + [hs[i]];
      r := Insert(r, hs[i]);
    }
    assert hs[..|hs|] == hs;
  }

  // ---- Export ----

  /** What a track adds to the export: all of its events, in order. */
  function EventsOf(t: Track): (out: seq<Exported>)
    ensures |out| == |t.events|
    ensures forall i | 0 <= i < |out| :: out[i] == Exported(t.ordinal, t.side, t.events[i])
  {
    seq(|t.events|, i requires 0 <= i < |t.events| => Exported(t.ordinal, t.side, t.events[i]))
  }

  lemma NothingToExport()
    ensures IsExport([], [])
  {}

  predicate TrackBefore(t: Track, u: Track) { KeyBefore(t.ordinal, t.side, u.ordinal, u.side) }

  lemma ExportGrows(tracks: seq<Track>, out: seq<Exported>, t: Track)
    requires IsExport(tracks, out) && Numbered(t.events)
    requires forall i | 0 <= i < |tracks| :: TrackBefore(tracks[i], t)
    ensures IsExport(tracks + [t], out + EventsOf(t))
  {
    var all, more := out + EventsOf(t), tracks + [t];
    forall i, j | 0 <= i < j < |all|
      ensures Before(all[i], all[j])
    {
      if i < |out| <= j {
        assert all[i] in out;
      }
    }
    forall x
      ensures x in all <==> Recorded(more, x)
    {
      assert more[|tracks|] == t;
      assert x in EventsOf(t) <==> From(t, x);
      RecordedByOneMore(tracks, t, x);
    }
  }

  lemma RecordedByOneMore(tracks: seq<Track>, t: Track, x: Exported)
    ensures Recorded(tracks + [t], x) <==> Recorded(tracks, x) || From(t, x)
  {
    var more := tracks + [t];
    assert more[|tracks|] == t;
    if Recorded(tracks, x) {
      var i :| 0 <= i < |tracks| && From(tracks[i], x);
      assert more[i] == tracks[i];
    }
    if Recorded(more, x) {
      var i :| 0 <= i < |more| && From(more[i], x);
      assert i < |tracks| ==> more[i] == tracks[i];
    }
  }

  /** Each direction is registered once. */
  predicate RegisteredOnce(hs: seq<Handle>) {
    forall i, j | 0 <= i < j < |hs| :: hs[i].ordinal != hs[j].ordinal || hs[i].side != hs[j].side
  }

  lemma CountedTwice(hs: seq<Handle>, i: nat, j: nat)
    requires i < j < |hs| && hs[i] == hs[j]
    ensures 2 <= multiset(hs)[hs[i]]
  {
    assert hs == hs[..j] + hs[j..];
    assert hs[i] in hs[..j] && hs[j] in hs[j..];
  }

  lemma {:induction false} CountedOnce(hs: seq<Handle>, h: Handle)
    requires RegisteredOnce(hs)
    ensures multiset(hs)[h] <= 1
  {
    if hs == [] {
    } else {
      var n := |hs| - 1;
      assert hs == hs[..n] + [hs[n]];
      CountedOnce(hs[..n], h);
      if hs[n] == h {
        assert h !in hs[..n];
      }
    }
  }

  lemma SortedApart(hs: seq<Handle>, sorted: seq<Handle>, i: nat, j: nat)
    requires RegisteredOnce(hs) && multiset(sorted) == multiset(hs) && Sorted(sorted) && i < j < |sorted|
    ensures KeyBefore(sorted[i].ordinal, sorted[i].side, sorted[j].ordinal, sorted[j].side)
  {
    assert sorted[i] in multiset(hs) && sorted[j] in multiset(hs);
    assert sorted[i] in hs && sorted[j] in hs;
    if sorted[i] == sorted[j] {
      CountedTwice(sorted, i, j);
      CountedOnce(hs, sorted[i]);
      assert false;
    }
  }

  ghost function TrackOf(h: Handle): Track
    reads h.rec
  {
    Track(h.ordinal, h.side, h.rec.events)
  }

  ghost function Recorders(hs: seq<Handle>): set<Recorder> {
    set i | 0 <= i < |hs| :: hs[i].rec
  }

  ghost function TracksOf(hs: seq<Handle>): (t: seq<Track>)
    reads Recorders(hs)
    ensures |t| == |hs|
    ensures forall i | 0 <= i < |hs| :: t[i] == TrackOf(hs[i])
  {
    if hs == [] then [] else
      assert Recorders(hs[..|hs| - 1]) <= Recorders(hs);
      assert hs[|hs| - 1].rec in Recorders(hs);
      TracksOf(hs[..|hs| - 1]) + [TrackOf(hs[|hs| - 1])]
  }

  class Tracer {
    const enabled: bool
    var traces: seq<Handle>

    constructor (enabled: bool)
      ensures this.enabled == enabled && traces == []
    {
      this.enabled := enabled;
      traces := [];
    }

    method Register(ordinal: nat, side: nat, rec: Recorder)
      modifies this
      ensures traces == old(traces) + [Handle(ordinal, side, rec)]
    {
      traces := traces + [Handle(ordinal, side, rec)];
    }

    method Trace() returns (out: seq<Exported>)
      requires RegisteredOnce(traces) && forall h | h in traces :: h.rec.Valid()
      ensures !enabled ==> out == []
      ensures enabled ==> IsExport(TracksOf(traces), out)
    {
      hide IsExport, Sorted, RegisteredOnce;
      if !enabled {
        return [];
      }
      var handles := SortHandles(traces);
      out := [];
      NothingToExport();
      for k := 0 to |handles|
        invariant IsExport(TracksOf(handles[..k]), out)
      {
        var h := handles[k];
        assert h in multiset(traces);
        assert h.rec.Valid();
        var mine: seq<Exported> := [];
        for i := 0 to |h.rec.events|
          invariant mine == EventsOf(TrackOf(h))[..i]
        {
          mine := mine + [Exported(h.ordinal, h.side, h.rec.events[i])];
        }
        forall i | 0 <= i < k
          ensures TrackBefore(TracksOf(handles[..k])[i], TrackOf(h))
        {
          SortedApart(traces, handles, i, k);
        }
        ExportGrows(TracksOf(handles[..k]), out, TrackOf(h));
        assert TracksOf(handles[..k + 1]) == TracksOf(handles[..k]) + [TrackOf(h)];
        assert mine == EventsOf(TrackOf(h));
        out := out + mine;
      }
      assert handles[..|handles|] == handles;
      SameExport(handles, traces, out);
    }
  }

  lemma SameExport(hs: seq<Handle>, hs': seq<Handle>, out: seq<Exported>)
    requires multiset(hs) == multiset(hs') && IsExport(TracksOf(hs), out)
    ensures IsExport(TracksOf(hs'), out)
  {
    forall x
      ensures x in out <==> Recorded(TracksOf(hs'), x)
    {
      SameRecorded(hs, hs', x);
      SameRecorded(hs', hs, x);
    }
  }

  lemma SameRecorded(hs: seq<Handle>, hs': seq<Handle>, x: Exported)
    requires multiset(hs) == multiset(hs')
    ensures Recorded(TracksOf(hs), x) ==> Recorded(TracksOf(hs'), x)
  {
    if Recorded(TracksOf(hs), x) {
      var i :| 0 <= i < |hs| && From(TracksOf(hs)[i], x);
      assert hs[i] in multiset(hs');
      var j :| 0 <= j < |hs'| && hs'[j] == hs[i];
      assert From(TracksOf(hs')[j], x);
    }
  }
}
