/** deadline.go: one direction's deadline and the channel that announces its changes. */
module Deadlines {
  import opened Faults

  /** The deadline on record, the callback still to run, and the generation of the channel. */
  datatype Timing = Timing(t: Option<int>, timer: Option<int>, gen: nat)

  const UNSET := Timing(None, None, 0)

  predicate Expired(d: Timing, now: int) {
    d.t.Some? && d.t.value <= now
  }

  function Set(d: Timing, t: Option<int>, now: int): Timing {
    Timing(t, if t.Some? && now < t.value then t else None, d.gen + 1)
  }

  /** The callback announces a change; whether the deadline has passed is for the waiter to check. */
  function Fire(d: Timing): Timing {
    d.(timer := None, gen := d.gen + 1)
  }

  function Stop(d: Timing): Timing {
    d.(timer := None)
  }

  // ---- A deadline set is a deadline kept ----

  datatype Change = Setting(t: Option<int>, now: int) | Firing | Stopping

  function Changed(d: Timing, c: Change): Timing {
    match c
    case Setting(t, now) => Set(d, t, now)
    case Firing => Fire(d)
    case Stopping => Stop(d)
  }

  function ChangedBy(d: Timing, changes: seq<Change>): Timing {
    if changes == [] then d else Changed(ChangedBy(d, changes[..|changes| - 1]), changes[|changes| - 1])
  }

  /** What was last asked for, if anything was. */
  function LastAsked(changes: seq<Change>): Option<int> {
    if changes == [] then None
    else
      var c := changes[|changes| - 1];
      if c.Setting? then c.t else LastAsked(changes[..|changes| - 1])
  }

  /** Whatever callbacks and stops there have been, a deadline has passed exactly from the instant on that
      was last asked for, and never if none or the zero time was. */
  lemma {:induction false} DeadlineIsTheLastAskedFor(changes: seq<Change>, x: int)
    ensures ChangedBy(UNSET, changes).t == LastAsked(changes)
    ensures Expired(ChangedBy(UNSET, changes), x) <==> LastAsked(changes).Some? && LastAsked(changes).value <= x
  {
    if changes == [] {
    } else {
      DeadlineIsTheLastAskedFor(changes[..|changes| - 1], x);
    }
  }

  /** Every one of them announces itself but a stop, and a set arms a callback for exactly the instant
      asked for if that is still to come. */
  lemma ChangesAreAnnounced(d: Timing, c: Change)
    ensures c.Stopping? || d.gen < Changed(d, c).gen
    ensures c.Setting? ==> Changed(d, c).timer == if c.t.Some? && c.now < c.t.value then c.t else None
  {}

  class Deadline {
    var t: Option<int>
    var timer: Option<int>
    var gen: nat

    function View(): Timing
      reads this
    {
      Timing(t, timer, gen)
    }

    constructor ()
      ensures View() == UNSET && forall x :: !Expired(View(), x)
    {
      t, timer, gen := None, None, 0;
    }

    method Channel() returns (g: nat)
      ensures g == View().gen
    {
      return gen;
    }

    method IsExpired(now: int) returns (expired: bool)
      ensures expired == Expired(View(), now)
      ensures expired <==> t.Some? && t.value <= now
    {
      return t.Some? && t.value <= now;
    }

    method SetTo(deadline: Option<int>, now: int)
      modifies this
      ensures View() == Set(old(View()), deadline, now)
      ensures t == deadline && old(gen) < gen
      ensures timer == if deadline.Some? && now < deadline.value then deadline else None
      ensures forall x :: Expired(View(), x) <==> deadline.Some? && deadline.value <= x
    {
      timer := None;
      t := deadline;
      gen := gen + 1;
      if deadline.None? || deadline.value <= now {
        return;
      }
      timer := deadline;
    }

    method RunCallback()
      modifies this
      ensures View() == Fire(old(View()))
      ensures t == old(t) && old(gen) < gen
    {
      timer := None;
      gen := gen + 1;
    }

    method Halt()
      modifies this
      ensures View() == Stop(old(View()))
      ensures t == old(t) && timer == None
    {
      timer := None;
    }
  }
}
