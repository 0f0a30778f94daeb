/** listener.go: the bounded accept queue. */
module Listeners {
  import opened Faults

  /** Connections are known by their ordinals. `reserved` counts slots claimed and not filled. */
  datatype Queue = Queue(capacity: nat, incoming: seq<nat>, reserved: int, closed: bool)
  {
    /** Every claimed slot still has room in the queue. */
    predicate Roomy() { 0 <= reserved && |incoming| + reserved <= capacity }
  }

  function Opened(capacity: nat): Queue { Queue(capacity, [], 0, false) }

  datatype Claim = Claimed | Refused | BacklogFull

  function Reserve(q: Queue): (Queue, Claim) {
    if q.closed then (q, Refused)
    else if q.capacity <= |q.incoming| + q.reserved then (q, BacklogFull)
    else (q.(reserved := q.reserved + 1), Claimed)
  }

  /** The connection goes into the queue, unless the listener has closed: then it is closed instead. */
  function Fill(q: Queue, c: nat): Queue {
    var q := q.(reserved := q.reserved - 1);
    if q.closed then q else q.(incoming := q.incoming + [c])
  }

  function Pop(q: Queue): Queue
    requires q.incoming != []
  {
    q.(incoming := q.incoming[1..])
  }

  class Listener {
    const capacity: nat
    var incoming: seq<nat>
    var reserved: int
    var closed: bool

    function View(): Queue
      reads this
    {
      Queue(capacity, incoming, reserved, closed)
    }

    constructor (capacity: nat)
      ensures View() == Opened(capacity)
    {
      this.capacity := capacity;
      incoming, reserved, closed := [], 0, false;
    }

    method ReserveSlot() returns (claim: Claim)
      modifies this
      ensures (View(), claim) == Reserve(old(View()))
    {
      if closed {
        return Refused;
      }
      if |incoming| + reserved >= capacity {
        return BacklogFull;
      }
      reserved := reserved + 1;
      return Claimed;
    }

    /** The send on the bounded channel has room whenever the slot was reserved. */
    method FillSlot(c: nat) returns (queued: bool)
      requires View().Roomy() && 0 < reserved
      modifies this
      ensures View() == Fill(old(View()), c) && queued == !closed
      ensures View().Roomy()
    {
      reserved := reserved - 1;
      if closed {
        return false;
      }
      assert |incoming| < capacity;
      incoming := incoming + [c];
      return true;
    }

    /** What one Accept finds: the head of the queue, or nothing to return yet. */
    method TryAccept() returns (c: Option<nat>)
      modifies this
      ensures c.None? <==> old(incoming) == []
      ensures c.Some? ==> c.value == old(incoming)[0] && View() == Pop(old(View()))
      ensures c.None? ==> View() == old(View())
    {
      if incoming == [] {
        return None;
      }
      c := Some(incoming[0]);
      incoming := incoming[1..];
    }

    /** Close and its drain, when nothing runs in between: every connection nobody accepted is closed, in
        order; a second Close closes nothing. */
    method Close() returns (dropped: seq<nat>)
      modifies this
      ensures dropped == if old(closed) then [] else old(incoming)
      ensures View() == if old(closed) then old(View()) else old(View()).(closed := true, incoming := [])
    {
      if closed {
        return [];
      }
      closed := true;
      dropped := [];
      while incoming != []
        invariant closed && reserved == old(reserved)
        invariant dropped + incoming == old(incoming)
        decreases |incoming|
      {
        var c := incoming[0];
        incoming := incoming[1..];
        dropped := dropped + [c];
      }
    }
  }
}
