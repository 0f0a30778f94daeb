/** netchaos.go's DialContext past the lookup: claim a slot, take an ordinal, find an address, register both
    ends for Reset and both directions for Trace, fill the slot. Any number of dials interleave with Accepts,
    listener Closes, other uses of the address book, and the Closes and Resets of what was established. */
module Establishment {
  import opened Faults
  import opened Listeners
  import opened AddressBook
  import opened Controls
  import Registry
  import TraceExport

  /** What a network is constructed with: how unnamed dialers are called, and whether it traces. */
  datatype Setup = Setup(ephemeral: nat -> string, tracing: bool)

  /** `registered` counts the registrations made: one for Reset and, when tracing, one for each direction. */
  datatype Phase = Reserved | Numbered(ordinal: nat) | Addressed(ordinal: nat, registered: nat)

  /** One end of a connection, or the direction it writes: the ordinal, and 0 for the dialer or 1 for the
      acceptor. */
  type End = (nat, nat)

  function Registrations(c: Setup): nat { if c.tracing then 3 else 1 }

  /** A dial under way. An unnamed dialer is called after its ordinal. */
  datatype Dial = Dial(listener: nat, local: Option<Peer>, phase: Phase)

  datatype Net = Net(
    listeners: map<nat, Queue>,
    families: map<nat, Family>,
    dials: map<nat, Dial>,
    nextOrdinal: nat,
    book: Book,
    traces: seq<End>,            // the directions registered for Trace, in registration order
    // history
    resets: seq<Registry.Op<End>>,   // what was done to the registry of Reset
    filled: nat,                 // dials that returned a connection
    accepted: seq<nat>,          // server ends that Accept returned
    dropped: seq<nat>,           // server ends their listener closed
    lost: seq<(nat, nat)>)       // dials that failed for want of an address: listener and ordinal

  datatype Action =
    | Open(l: nat, capacity: nat, family: Family)
    | Claim(id: nat, l: nat, local: Option<Peer>)
    | TakeOrdinal(id: nat)
    | FindAddress(id: nat)
    | RegisterEnds(id: nat, pair: PairKey)
    | RegisterDirection(id: nat)
    | FillIn(id: nat)
    | Accept(l: nat)
    | CloseListener(l: nat)
    | DropNext(l: nat)
    | UseBook(op: Op)
    | UseRegistry(change: Registry.Op<End>)

  predicate Enabled(c: Setup, n: Net, a: Action) {
    match a
    case Open(l, _, _) => l !in n.listeners
    case Claim(id, l, local) =>
      id !in n.dials && l in n.listeners && l in n.families && (local.Some? ==> n.book.Resolved(local.value))
    case TakeOrdinal(id) => id in n.dials && n.dials[id].phase.Reserved?
    case FindAddress(id) =>
      id in n.dials && n.dials[id].phase.Numbered? && n.dials[id].listener in n.families
    case RegisterEnds(id, _) => id in n.dials && n.dials[id].phase.Addressed? && n.dials[id].phase.registered == 0
    case RegisterDirection(id) =>
      id in n.dials && n.dials[id].phase.Addressed? && 0 < n.dials[id].phase.registered < Registrations(c)
    case FillIn(id) =>
      && id in n.dials && n.dials[id].phase.Addressed? && n.dials[id].phase.registered == Registrations(c)
      && n.dials[id].listener in n.listeners
    case Accept(l) => l in n.listeners && n.listeners[l].incoming != []
    case CloseListener(l) => l in n.listeners
    case DropNext(l) => l in n.listeners && n.listeners[l].closed && n.listeners[l].incoming != []
    case UseBook(op) => op.Assigning? ==> n.book.Resolved(op.peer)
    case UseRegistry(op) => !op.Register?
  }

  /** Who dials: by the name it gave, or the one made from its ordinal. */
  function LocalPeer(c: Setup, d: Dial): Peer
    requires !d.phase.Reserved?
  {
    if d.local.Some? then d.local.value else Named(c.ephemeral(d.phase.ordinal))
  }

  /** Step 3 of a dial: its address in the listener's family, or none. */
  function AddressFor(c: Setup, n: Net, id: nat): (Book, Option<Ip>)
    requires Enabled(c, n, FindAddress(id))
  {
    Assign(n.book, LocalPeer(c, n.dials[id]), n.families[n.dials[id].listener])
  }

  function Next(c: Setup, n: Net, a: Action): Net
    requires Enabled(c, n, a)
  {
    match a
    case Open(l, capacity, family) =>
      n.(listeners := n.listeners[l := Opened(capacity)], families := n.families[l := family])
    case Claim(id, l, local) =>
      var (q, claim) := Reserve(n.listeners[l]);
      if claim.Claimed? then n.(listeners := n.listeners[l := q], dials := n.dials[id := Dial(l, local, Reserved)])
      else n
    case TakeOrdinal(id) =>
      n.(dials := n.dials[id := n.dials[id].(phase := Numbered(n.nextOrdinal))], nextOrdinal := n.nextOrdinal + 1)
    case FindAddress(id) =>
      var d := n.dials[id];
      var (book, ip) := AddressFor(c, n, id);
      if ip.Some? then n.(book := book, dials := n.dials[id := d.(phase := Addressed(d.phase.ordinal, 0))])
      else n.(book := book, dials := n.dials - {id}, lost := n.lost + [(d.listener, d.phase.ordinal)])
    case RegisterEnds(id, pair) =>
      var d := n.dials[id];
      n.(dials := n.dials[id := d.(phase := Addressed(d.phase.ordinal, 1))],
         resets := n.resets + [Registry.Register(pair, [(d.phase.ordinal, 0), (d.phase.ordinal, 1)])])
    case RegisterDirection(id) =>
      var d := n.dials[id];
      var k := d.phase.registered;
      n.(dials := n.dials[id := d.(phase := Addressed(d.phase.ordinal, k + 1))],
         traces := n.traces + [(d.phase.ordinal, k - 1)])
    case FillIn(id) =>
      var d := n.dials[id];
      var q := n.listeners[d.listener];
      n.(listeners := n.listeners[d.listener := Fill(q, d.phase.ordinal)], dials := n.dials - {id},
         filled := n.filled + 1, dropped := n.dropped + if q.closed then [d.phase.ordinal] else [])
    case Accept(l) =>
      n.(listeners := n.listeners[l := Pop(n.listeners[l])], accepted := n.accepted + [n.listeners[l].incoming[0]])
    case CloseListener(l) => n.(listeners := n.listeners[l := n.listeners[l].(closed := true)])
    case DropNext(l) =>
      n.(listeners := n.listeners[l := Pop(n.listeners[l])], dropped := n.dropped + [n.listeners[l].incoming[0]])
    case UseBook(op) => n.(book := Apply(n.book, op))
    case UseRegistry(op) => n.(resets := n.resets + [op])
  }

  // ---- Where the server end of each ordinal is ----

  datatype Place = Building(id: nat) | Queued(l: nat, i: nat) | Accepted(i: nat) | Dropped(i: nat) | Lost(i: nat)

  predicate Holds(n: Net, k: nat, p: Place) {
    match p
    case Building(id) => id in n.dials && !n.dials[id].phase.Reserved? && n.dials[id].phase.ordinal == k
    case Queued(l, i) => l in n.listeners && i < |n.listeners[l].incoming| && n.listeners[l].incoming[i] == k
    case Accepted(i) => i < |n.accepted| && n.accepted[i] == k
    case Dropped(i) => i < |n.dropped| && n.dropped[i] == k
    case Lost(i) => i < |n.lost| && n.lost[i].1 == k
  }

  ghost predicate OnlyAt(n: Net, k: nat, p: Place) {
    Holds(n, k, p) && forall other :: Holds(n, k, other) ==> other == p
  }

  ghost predicate Placed(n: Net, k: nat) {
    if k < n.nextOrdinal then exists p :: OnlyAt(n, k, p) else forall p :: !Holds(n, k, p)
  }

  /** Every ordinal taken has its server end in exactly one place, and no other ordinal has one. */
  ghost predicate Conserved(n: Net) {
    forall k: nat :: Placed(n, k)
  }

  /** Where a step takes what is at a place. */
  function Moved(c: Setup, n: Net, a: Action, p: Place): Place
    requires Enabled(c, n, a)
  {
    match a
    case FindAddress(id) =>
      if p == Building(id) && AddressFor(c, n, id).1.None? then Lost(|n.lost|) else p
    case FillIn(id) =>
      var l := n.dials[id].listener;
      if p != Building(id) then p
      else if n.listeners[l].closed then Dropped(|n.dropped|)
      else Queued(l, |n.listeners[l].incoming|)
    case Accept(l) => if p.Queued? && p.l == l then (if p.i == 0 then Accepted(|n.accepted|) else Queued(l, p.i - 1)) else p
    case DropNext(l) => if p.Queued? && p.l == l then (if p.i == 0 then Dropped(|n.dropped|) else Queued(l, p.i - 1)) else p
    case _ => p
  }

  /** Where it came from. */
  function Origin(c: Setup, n: Net, a: Action, p: Place): Place
    requires Enabled(c, n, a)
  {
    match a
    case FindAddress(id) => if p == Lost(|n.lost|) then Building(id) else p
    case FillIn(id) =>
      var l := n.dials[id].listener;
      if n.listeners[l].closed then (if p == Dropped(|n.dropped|) then Building(id) else p)
      else if p == Queued(l, |n.listeners[l].incoming|) then Building(id) else p
    case Accept(l) => if p == Accepted(|n.accepted|) then Queued(l, 0) else if p.Queued? && p.l == l then Queued(l, p.i + 1) else p
    case DropNext(l) => if p == Dropped(|n.dropped|) then Queued(l, 0) else if p.Queued? && p.l == l then Queued(l, p.i + 1) else p
    case _ => p
  }

  lemma ThingsMove(c: Setup, n: Net, a: Action, k: nat, p: Place)
    requires Enabled(c, n, a) && Holds(n, k, p)
    ensures Holds(Next(c, n, a), k, Moved(c, n, a, p))
  {
    hide Assign;
  }

  lemma ThingsCameFrom(c: Setup, n: Net, a: Action, k: nat, p: Place)
    requires Enabled(c, n, a) && Holds(Next(c, n, a), k, p)
    requires !(a.TakeOrdinal? && p == Building(a.id))
    ensures var q := Origin(c, n, a, p); Holds(n, k, q) && Moved(c, n, a, q) == p
  {
    hide Assign, Reserve;
    if MovesThings(a) {
      MovedThingsCameFrom(c, n, a, k, p);
    } else {
      NothingMoves(c, n, a, k, p);
    }
  }

  predicate MovesThings(a: Action) { a.FindAddress? || a.FillIn? || a.Accept? || a.DropNext? }

  lemma MovedThingsCameFrom(c: Setup, n: Net, a: Action, k: nat, p: Place)
    requires Enabled(c, n, a) && Holds(Next(c, n, a), k, p) && MovesThings(a)
    ensures var q := Origin(c, n, a, p); Holds(n, k, q) && Moved(c, n, a, q) == p
  {
    hide Enabled, Next, Holds, Moved, Origin;
    if a.FindAddress? || a.FillIn? {
      DialThingsCameFrom(c, n, a, k, p);
    } else {
      QueueThingsCameFrom(c, n, a, k, p);
    }
  }

  lemma DialThingsCameFrom(c: Setup, n: Net, a: Action, k: nat, p: Place)
    requires Enabled(c, n, a) && Holds(Next(c, n, a), k, p) && (a.FindAddress? || a.FillIn?)
    ensures var q := Origin(c, n, a, p); Holds(n, k, q) && Moved(c, n, a, q) == p
  {
    hide Assign, Reserve;
  }

  lemma QueueThingsCameFrom(c: Setup, n: Net, a: Action, k: nat, p: Place)
    requires Enabled(c, n, a) && Holds(Next(c, n, a), k, p) && (a.Accept? || a.DropNext?)
    ensures var q := Origin(c, n, a, p); Holds(n, k, q) && Moved(c, n, a, q) == p
  {
    hide Assign, Reserve;
  }

  lemma NothingMoves(c: Setup, n: Net, a: Action, k: nat, p: Place)
    requires Enabled(c, n, a) && Holds(Next(c, n, a), k, p) && !MovesThings(a)
    requires !(a.TakeOrdinal? && p == Building(a.id))
    ensures Holds(n, k, p)
  {
    hide Assign, Reserve, Apply;
    if a.Claim? {
      ReservingMovesNothing(n.listeners[a.l]);
    }
  }

  lemma ReservingMovesNothing(q: Queue)
    ensures Reserve(q).0 == q.(reserved := Reserve(q).0.reserved)
  {}

  lemma NextConserves(c: Setup, n: Net, a: Action)
    requires Enabled(c, n, a) && Conserved(n)
    ensures Conserved(Next(c, n, a))
  {
    hide Assign, Moved, Origin, Holds, Next;
    var m := Next(c, n, a);
    forall k: nat
      ensures Placed(m, k)
    {
      assert Placed(n, k);
      OrdinalsAdvance(c, n, a);
      if a.TakeOrdinal? && k == n.nextOrdinal {
        NewOrdinalIsAlone(c, n, a);
      } else if k < n.nextOrdinal {
        var p :| OnlyAt(n, k, p);
        ThingsMove(c, n, a, k, p);
        StaysAlone(c, n, a, k, p);
      } else {
        forall p
          ensures !Holds(m, k, p)
        {
          if Holds(m, k, p) {
            NothingOfItsOwn(c, n, a, k, p);
            ThingsCameFrom(c, n, a, k, p);
            assert false;
          }
        }
      }
    }
  }

  lemma OrdinalsAdvance(c: Setup, n: Net, a: Action)
    requires Enabled(c, n, a)
    ensures Next(c, n, a).nextOrdinal == n.nextOrdinal + if a.TakeOrdinal? then 1 else 0
  {
    hide Assign, Reserve, Fill;
  }

  /** A dial that takes an ordinal holds that one and no other. */
  lemma NothingOfItsOwn(c: Setup, n: Net, a: Action, k: nat, p: Place)
    requires Enabled(c, n, a) && Holds(Next(c, n, a), k, p) && (a.TakeOrdinal? ==> k != n.nextOrdinal)
    ensures !(a.TakeOrdinal? && p == Building(a.id))
  {}

  lemma NewOrdinalIsAlone(c: Setup, n: Net, a: Action)
    requires Enabled(c, n, a) && a.TakeOrdinal? && Placed(n, n.nextOrdinal)
    ensures OnlyAt(Next(c, n, a), n.nextOrdinal, Building(a.id))
  {
    var k, m := n.nextOrdinal, Next(c, n, a);
    forall other | Holds(m, k, other)
      ensures other == Building(a.id)
    {
      if other != Building(a.id) {
        ThingsCameFrom(c, n, a, k, other);
        assert false;
      }
    }
  }

  lemma StaysAlone(c: Setup, n: Net, a: Action, k: nat, p: Place)
    requires Enabled(c, n, a) && OnlyAt(n, k, p) && (a.TakeOrdinal? ==> k != n.nextOrdinal)
    ensures OnlyAt(Next(c, n, a), k, Moved(c, n, a, p))
  {
    hide Assign, Moved, Origin, Holds, Next;
    ThingsMove(c, n, a, k, p);
    forall other | Holds(Next(c, n, a), k, other)
      ensures other == Moved(c, n, a, p)
    {
      NothingOfItsOwn(c, n, a, k, other);
      ThingsCameFrom(c, n, a, k, other);
    }
  }

  // ---- Slots and ordinals ----

  /** The dials under way on a listener. */
  function DialsOn(n: Net, l: nat): set<nat> {
    set id | id in n.dials && n.dials[id].listener == l
  }

  /** The dials under way that have their ordinal. */
  function WithOrdinal(n: Net): set<nat> {
    set id | id in n.dials && !n.dials[id].phase.Reserved?
  }

  /** How many dials on the listener failed for want of an address. */
  function LostOn(lost: seq<(nat, nat)>, l: nat): nat {
    if lost == [] then 0
    else LostOn(lost[..|lost| - 1], l) + if lost[|lost| - 1].0 == l then 1 else 0
  }

  /** The slots claimed are those of the dials under way and those of the dials that failed for want of an
      address: no other slot is ever held, and these are never given back. */
  ghost predicate SlotsBalance(n: Net, l: nat) {
    l in n.listeners ==> n.listeners[l].Roomy() && n.listeners[l].reserved == |DialsOn(n, l)| + LostOn(n.lost, l)
  }

  /** The ordinals taken are those of the dials under way, of the connections returned and of the dials
      that failed for want of an address. */
  ghost predicate OrdinalsBalance(n: Net) {
    n.nextOrdinal == |WithOrdinal(n)| + n.filled + |n.lost|
  }

  ghost predicate Sane(n: Net) {
    && n.listeners.Keys == n.families.Keys
    && (forall id | id in n.dials :: n.dials[id].listener in n.listeners)
    && (forall i | 0 <= i < |n.lost| :: n.lost[i].0 in n.listeners)
  }

  ghost predicate BookSane(n: Net) {
    && Sound(n.book)
    && forall id | id in n.dials && n.dials[id].local.Some? :: n.book.Resolved(n.dials[id].local.value)
  }

  lemma Joined(s: set<nat>, t: set<nat>, x: nat)
    requires x !in s && t == s + {x}
    ensures |t| == |s| + 1
  {}

  lemma {:induction false} NoneLost(lost: seq<(nat, nat)>, l: nat)
    requires forall i | 0 <= i < |lost| :: lost[i].0 != l
    ensures LostOn(lost, l) == 0
  {
    if lost == [] {
    } else {
      NoneLost(lost[..|lost| - 1], l);
    }
  }

  lemma LostGrows(lost: seq<(nat, nat)>, l: nat, k: nat, other: nat)
    ensures LostOn(lost + [(l, k)], other) == LostOn(lost, other) + if l == other then 1 else 0
  {
    assert (lost + [(l, k)])[..|lost|] == lost;
  }

  lemma NextStaysSane(c: Setup, n: Net, a: Action)
    requires Enabled(c, n, a) && Sane(n)
    ensures Sane(Next(c, n, a))
  {
    hide Assign, Apply, Reserve, Fill;
  }

  lemma OpeningBalances(n: Net, l: nat, capacity: nat, family: Family)
    requires Sane(n) && l !in n.listeners
    ensures var m := n.(listeners := n.listeners[l := Opened(capacity)], families := n.families[l := family]);
            SlotsBalance(m, l)
  {
    var m := n.(listeners := n.listeners[l := Opened(capacity)], families := n.families[l := family]);
    assert DialsOn(m, l) == {};
    NoneLost(n.lost, l);
  }

  /** A claim adds a dial, a failure and a fill remove one. */
  lemma ClaimBalances(n: Net, m: Net, id: nat, l: nat)
    requires id !in n.dials && id in m.dials && m.dials == n.dials[id := m.dials[id]] && m.dials[id].listener == l
    ensures |DialsOn(m, l)| == |DialsOn(n, l)| + 1
    ensures forall other | other != l :: DialsOn(m, other) == DialsOn(n, other)
  {
    Joined(DialsOn(n, l), DialsOn(m, l), id);
  }

  lemma EndBalances(n: Net, m: Net, id: nat)
    requires id in n.dials && m.dials == n.dials - {id}
    ensures var l := n.dials[id].listener;
            && |DialsOn(n, l)| == |DialsOn(m, l)| + 1
            && forall other | other != l :: DialsOn(m, other) == DialsOn(n, other)
  {
    Joined(DialsOn(m, n.dials[id].listener), DialsOn(n, n.dials[id].listener), id);
  }

  lemma PhaseBalances(n: Net, m: Net, id: nat, l: nat)
    requires id in n.dials && id in m.dials && m.dials == n.dials[id := m.dials[id]]
    requires m.dials[id].listener == n.dials[id].listener
    ensures DialsOn(m, l) == DialsOn(n, l)
  {}

  lemma NextBalancesSlots(c: Setup, n: Net, a: Action, l: nat)
    requires Enabled(c, n, a) && Sane(n) && SlotsBalance(n, l)
    ensures SlotsBalance(Next(c, n, a), l)
  {
    hide Assign, Apply, DialsOn, LostOn;
    var m := Next(c, n, a);
    match a {
      case Open(at, capacity, family) => OpeningBalances(n, at, capacity, family); SameDials(n, m, l);
      case Claim(id, at, _) =>
        if Reserve(n.listeners[at]).1.Claimed? {
          ClaimBalances(n, m, id, at);
        }
      case TakeOrdinal(id) => PhaseBalances(n, m, id, l);
      case RegisterEnds(id, _) => PhaseBalances(n, m, id, l);
      case RegisterDirection(id) => PhaseBalances(n, m, id, l);
      case FindAddress(id) =>
        LostGrows(n.lost, n.dials[id].listener, n.dials[id].phase.ordinal, l);
        if id in m.dials {
          PhaseBalances(n, m, id, l);
        } else {
          EndBalances(n, m, id);
        }
      case FillIn(id) => EndBalances(n, m, id);
      case _ => SameDials(n, m, l);
    }
  }

  lemma SameDials(n: Net, m: Net, l: nat)
    requires n.dials == m.dials
    ensures DialsOn(n, l) == DialsOn(m, l)
  {}

  lemma OrdinalTaken(n: Net, m: Net, id: nat)
    requires id in n.dials && n.dials[id].phase.Reserved? && id in m.dials && !m.dials[id].phase.Reserved?
    requires m.dials == n.dials[id := m.dials[id]]
    ensures |WithOrdinal(m)| == |WithOrdinal(n)| + 1
  {
    Joined(WithOrdinal(n), WithOrdinal(m), id);
  }

  lemma OrdinalSpent(n: Net, m: Net, id: nat)
    requires id in n.dials && !n.dials[id].phase.Reserved? && m.dials == n.dials - {id}
    ensures |WithOrdinal(n)| == |WithOrdinal(m)| + 1
  {
    Joined(WithOrdinal(m), WithOrdinal(n), id);
  }

  lemma OrdinalsStay(n: Net, m: Net)
    requires m.dials == n.dials
          || exists id :: id in m.dials && m.dials == n.dials[id := m.dials[id]]
                          && if id in n.dials then m.dials[id].phase.Reserved? == n.dials[id].phase.Reserved?
                             else m.dials[id].phase.Reserved?
    ensures WithOrdinal(m) == WithOrdinal(n)
  {}

  lemma NextBalancesOrdinals(c: Setup, n: Net, a: Action)
    requires Enabled(c, n, a) && OrdinalsBalance(n)
    ensures OrdinalsBalance(Next(c, n, a))
  {
    hide Assign, Apply, Fill, WithOrdinal, Pop, Reserve;
    var m := Next(c, n, a);
    match a {
      case TakeOrdinal(id) => OrdinalTaken(n, m, id);
      case FindAddress(id) =>
        if id in m.dials {
          OrdinalsStay(n, m);
        } else {
          OrdinalSpent(n, m, id);
        }
      case FillIn(id) => OrdinalSpent(n, m, id);
      case _ => OrdinalsStay(n, m);
    }
  }

  lemma NextKeepsBook(c: Setup, n: Net, a: Action)
    requires Enabled(c, n, a) && BookSane(n)
    ensures BookSane(Next(c, n, a))
  {
    hide Assign, Apply, Reserve, Fill, Sound, Extends;
    var m := Next(c, n, a);
    if a.FindAddress? {
      var d := n.dials[a.id];
      AssignKeeps(n.book, LocalPeer(c, d), n.families[d.listener]);
      BooksGrow(n, m);
    } else if a.UseBook? {
      StepKeeps(n.book, a.op);
      BooksGrow(n, m);
    }
  }

  lemma BooksGrow(n: Net, m: Net)
    requires Extends(n.book, m.book) && BookSane(n) && Sound(m.book)
    requires forall id | id in m.dials :: id in n.dials && m.dials[id].local == n.dials[id].local
    ensures BookSane(m)
  {
    hide Extends, Sound;
    forall id | id in m.dials && m.dials[id].local.Some?
      ensures m.book.Resolved(m.dials[id].local.value)
    {
      StaysResolved(n.book, m.book, n.dials[id].local.value);
    }
  }

  // ---- Registrations ----

  predicate HasOrdinal(n: Net, id: nat) { id in n.dials && !n.dials[id].phase.Reserved? }

  /** No end of the ordinal has been registered for Reset. */
  ghost predicate Unregistered(resets: seq<Registry.Op<End>>, k: nat) {
    forall i | 0 <= i < |resets| && resets[i].Register? :: (k, 0) !in resets[i].ends && (k, 1) !in resets[i].ends
  }

  /** What the dial has still to register has not been registered. */
  ghost predicate Upcoming(n: Net, id: nat)
    requires HasOrdinal(n, id)
  {
    var phase := n.dials[id].phase;
    && (phase.Numbered? || phase.registered == 0 ==> Unregistered(n.resets, phase.ordinal))
    && forall side: nat | phase.Numbered? || phase.registered <= side + 1 :: (phase.ordinal, side) !in n.traces
  }

  ghost predicate Numbering(n: Net) {
    && (forall i | 0 <= i < |n.traces| :: n.traces[i].0 < n.nextOrdinal)
    && (forall k: nat | n.nextOrdinal <= k :: Unregistered(n.resets, k))
  }

  ghost predicate RegisteredOnce(n: Net) {
    && Registry.Distinct(n.traces) && Registry.Once(n.resets) && Numbering(n)
    && forall id | HasOrdinal(n, id) :: Upcoming(n, id)
  }

  /** No two dials hold one ordinal. */
  lemma OrdinalsAreTheirOwn(n: Net, id: nat, other: nat)
    requires Conserved(n) && HasOrdinal(n, id) && HasOrdinal(n, other) && id != other
    ensures n.dials[id].phase.ordinal != n.dials[other].phase.ordinal
    ensures n.dials[id].phase.ordinal < n.nextOrdinal
  {
    var k := n.dials[id].phase.ordinal;
    assert Placed(n, k);
    assert Holds(n, k, Building(id));
    if k == n.dials[other].phase.ordinal {
      assert Holds(n, k, Building(other));
    }
  }

  lemma OrdinalIsTaken(n: Net, id: nat)
    requires Conserved(n) && HasOrdinal(n, id)
    ensures n.dials[id].phase.ordinal < n.nextOrdinal
  {
    assert Placed(n, n.dials[id].phase.ordinal);
    assert Holds(n, n.dials[id].phase.ordinal, Building(id));
  }

  lemma TracesGrow(traces: seq<End>, t: End)
    requires Registry.Distinct(traces) && t !in traces
    ensures Registry.Distinct(traces + [t])
  {}

  lemma OtherOpGrows(ops: seq<Registry.Op<End>>, op: Registry.Op<End>)
    requires Registry.Once(ops) && !op.Register?
    ensures Registry.Once(ops + [op])
    ensures forall k :: Unregistered(ops + [op], k) == Unregistered(ops, k)
  {
    var all := ops + [op];
    assert forall i | 0 <= i < |ops| :: all[i] == ops[i];
    forall k
      ensures Unregistered(all, k) == Unregistered(ops, k)
    {
      assert Unregistered(all, k) ==> forall i | 0 <= i < |ops| && ops[i].Register? :: all[i].Register?;
    }
  }

  lemma RegisterGrows(ops: seq<Registry.Op<End>>, pair: PairKey, k: nat)
    requires Registry.Once(ops) && Unregistered(ops, k)
    ensures Registry.Once(ops + [Registry.Register(pair, [(k, 0), (k, 1)])])
    ensures forall other | other != k ::
              Unregistered(ops, other) ==> Unregistered(ops + [Registry.Register(pair, [(k, 0), (k, 1)])], other)
  {
    var all := ops + [Registry.Register(pair, [(k, 0), (k, 1)])];
    assert forall i | 0 <= i < |ops| :: all[i] == ops[i];
  }

  lemma EndsRegisterOnce(c: Setup, n: Net, id: nat, pair: PairKey)
    requires Enabled(c, n, RegisterEnds(id, pair)) && Conserved(n) && RegisteredOnce(n)
    ensures RegisteredOnce(Next(c, n, RegisterEnds(id, pair)))
  {
    hide Unregistered, Registry.Once, Registry.Distinct, Conserved;
    var m := Next(c, n, RegisterEnds(id, pair));
    var k := n.dials[id].phase.ordinal;
    assert Upcoming(n, id);
    OrdinalIsTaken(n, id);
    RegisterGrows(n.resets, pair, k);
    forall other | HasOrdinal(m, other)
      ensures Upcoming(m, other)
    {
      assert Upcoming(n, other);
      if other != id {
        OrdinalsAreTheirOwn(n, id, other);
      }
    }
  }

  lemma DirectionRegistersOnce(c: Setup, n: Net, id: nat)
    requires Enabled(c, n, RegisterDirection(id)) && Conserved(n) && RegisteredOnce(n)
    ensures RegisteredOnce(Next(c, n, RegisterDirection(id)))
  {
    hide Unregistered, Registry.Once, Registry.Distinct, Conserved;
    var m := Next(c, n, RegisterDirection(id));
    var phase := n.dials[id].phase;
    assert Upcoming(n, id);
    OrdinalIsTaken(n, id);
    TracesGrow(n.traces, (phase.ordinal, phase.registered - 1));
    forall other | HasOrdinal(m, other)
      ensures Upcoming(m, other)
    {
      assert Upcoming(n, other);
      if other != id {
        OrdinalsAreTheirOwn(n, id, other);
      }
    }
  }

  lemma NextRegistersOnce(c: Setup, n: Net, a: Action)
    requires Enabled(c, n, a) && Conserved(n) && RegisteredOnce(n)
    ensures RegisteredOnce(Next(c, n, a))
  {
    hide Assign, Apply, Reserve, Fill, Unregistered, Registry.Once, Registry.Distinct, Conserved;
    match a {
      case RegisterEnds(id, pair) => EndsRegisterOnce(c, n, id, pair);
      case RegisterDirection(id) => DirectionRegistersOnce(c, n, id);
      case UseRegistry(op) => RegistryUsed(n, op);
      case _ => NothingRegistered(n, Next(c, n, a));
    }
  }

  lemma RegistryUsed(n: Net, op: Registry.Op<End>)
    requires RegisteredOnce(n) && !op.Register?
    ensures RegisteredOnce(n.(resets := n.resets + [op]))
  {
    hide Unregistered, Registry.Once, Registry.Distinct;
    var m := n.(resets := n.resets + [op]);
    OtherOpGrows(n.resets, op);
    forall id | HasOrdinal(m, id)
      ensures Upcoming(m, id)
    {
      assert Upcoming(n, id);
    }
  }

  /** A dial that takes an ordinal takes one nothing has been registered under. */
  lemma NothingRegistered(n: Net, m: Net)
    requires RegisteredOnce(n) && m.traces == n.traces && m.resets == n.resets && n.nextOrdinal <= m.nextOrdinal
    requires forall id | HasOrdinal(m, id) ::
               || (m.dials[id].phase.Numbered? && n.nextOrdinal <= m.dials[id].phase.ordinal)
               || (HasOrdinal(n, id) && m.dials[id].phase.ordinal == n.dials[id].phase.ordinal
                   && (m.dials[id].phase == n.dials[id].phase || n.dials[id].phase.Numbered?))
    ensures RegisteredOnce(m)
  {
    hide Unregistered, Registry.Once, Registry.Distinct;
    forall id | HasOrdinal(m, id)
      ensures Upcoming(m, id)
    {
      if HasOrdinal(n, id) {
        assert Upcoming(n, id);
      }
    }
  }

  // ---- Runs ----

  const NOTHING := Net(map[], map[], map[], 0, EMPTY, [], [], 0, [], [], [])

  ghost predicate Proper(c: Setup, actions: seq<Action>)
    decreases |actions|, 0
  {
    actions == [] || (
      && Proper(c, actions[..|actions| - 1])
      && Enabled(c, After(c, actions[..|actions| - 1]), actions[|actions| - 1]))
  }

  ghost function After(c: Setup, actions: seq<Action>): Net
    requires Proper(c, actions)
    decreases |actions|, 1
  {
    if actions == [] then NOTHING
    else Next(c, After(c, actions[..|actions| - 1]), actions[|actions| - 1])
  }

  ghost predicate Inv(n: Net) {
    && Sane(n) && BookSane(n) && Conserved(n) && OrdinalsBalance(n) && RegisteredOnce(n)
    && forall l: nat :: SlotsBalance(n, l)
  }

  lemma NextKeeps(c: Setup, n: Net, a: Action)
    requires Enabled(c, n, a) && Inv(n)
    ensures Inv(Next(c, n, a))
  {
    hide Enabled, Next, Sane, BookSane, Conserved, OrdinalsBalance, SlotsBalance, RegisteredOnce;
    NextStaysSane(c, n, a);
    NextKeepsBook(c, n, a);
    NextConserves(c, n, a);
    NextBalancesOrdinals(c, n, a);
    NextRegistersOnce(c, n, a);
    forall l: nat
      ensures SlotsBalance(Next(c, n, a), l)
    {
      NextBalancesSlots(c, n, a, l);
    }
  }

  lemma NothingIsSound()
    ensures Inv(NOTHING)
  {
    EmptyIsSound();
    assert WithOrdinal(NOTHING) == {};
    forall k: nat
      ensures Placed(NOTHING, k)
    {}
  }

  lemma {:induction false} RunKeeps(c: Setup, actions: seq<Action>)
    requires Proper(c, actions)
    ensures Inv(After(c, actions))
  {
    hide Inv, Next, Enabled;
    if actions == [] {
      NothingIsSound();
    } else {
      RunKeeps(c, actions[..|actions| - 1]);
      NextKeeps(c, After(c, actions[..|actions| - 1]), actions[|actions| - 1]);
    }
  }

  /** No dial of the run was refused an address. */
  ghost predicate NoneRefused(c: Setup, actions: seq<Action>)
    requires Proper(c, actions)
  {
    actions == [] || (
      var before, a := actions[..|actions| - 1], actions[|actions| - 1];
      && NoneRefused(c, before)
      && (a.FindAddress? ==> AddressFor(c, After(c, before), a.id).1.Some?))
  }

  lemma OnlyRefusalsLose(c: Setup, n: Net, a: Action)
    requires Enabled(c, n, a)
    ensures Next(c, n, a).lost == [] <==> n.lost == [] && (a.FindAddress? ==> AddressFor(c, n, a.id).1.Some?)
  {
    hide Assign, Apply, Reserve, Fill;
  }

  lemma {:induction false} LostAreTheRefused(c: Setup, actions: seq<Action>)
    requires Proper(c, actions)
    ensures After(c, actions).lost == [] <==> NoneRefused(c, actions)
  {
    hide Next, Enabled, AddressFor;
    if actions == [] {
    } else {
      var before := actions[..|actions| - 1];
      LostAreTheRefused(c, before);
      OnlyRefusalsLose(c, After(c, before), actions[|actions| - 1]);
    }
  }

  // ---- The theorems ----

  /** A dial that has come to its last step finds room in the queue: it never blocks and never fails. */
  lemma FillNeverBlocks(c: Setup, actions: seq<Action>, id: nat)
    requires Proper(c, actions) && id in After(c, actions).dials
    ensures var n := After(c, actions);
            var l := n.dials[id].listener;
            && l in n.listeners && 0 < n.listeners[l].reserved
            && |n.listeners[l].incoming| < n.listeners[l].capacity
            && (n.dials[id].phase.Addressed? && n.dials[id].phase.registered == Registrations(c) ==> Enabled(c, n, FillIn(id)))
  {
    hide After, Conserved, OrdinalsBalance, BookSane;
    RunKeeps(c, actions);
    var n := After(c, actions);
    assert id in DialsOn(n, n.dials[id].listener);
    assert SlotsBalance(n, n.dials[id].listener);
  }

  /** The backlog the listener was opened with, if it was opened, and whether it has been closed. */
  function OpenedWith(actions: seq<Action>, l: nat): Option<nat> {
    if actions == [] then None
    else
      var a := actions[|actions| - 1];
      if a.Open? && a.l == l then Some(a.capacity) else OpenedWith(actions[..|actions| - 1], l)
  }

  predicate HasClosed(actions: seq<Action>, l: nat) {
    exists i | 0 <= i < |actions| :: actions[i] == CloseListener(l)
  }

  lemma ListenerAfter(c: Setup, n: Net, a: Action, l: nat)
    requires Enabled(c, n, a)
    ensures var m := Next(c, n, a);
            && (l in m.listeners <==> l in n.listeners || (a.Open? && a.l == l))
            && (l in n.listeners ==>
                  && m.listeners[l].capacity == n.listeners[l].capacity
                  && m.listeners[l].closed == (n.listeners[l].closed || a == CloseListener(l)))
            && (a.Open? && a.l == l ==> m.listeners[l].capacity == a.capacity && !m.listeners[l].closed)
            && (a == CloseListener(l) ==> l in n.listeners)
  {
    hide Assign, Apply;
  }

  lemma HasClosedAfter(actions: seq<Action>, a: Action, l: nat)
    ensures HasClosed(actions + [a], l) <==> HasClosed(actions, l) || a == CloseListener(l)
  {
    var all := actions + [a];
    if HasClosed(actions, l) {
      var i :| 0 <= i < |actions| && actions[i] == CloseListener(l);
      assert all[i] == actions[i];
    }
    if a == CloseListener(l) {
      assert all[|actions|] == a;
    }
  }

  lemma {:induction false} ListenersAreAsOpened(c: Setup, actions: seq<Action>, l: nat)
    requires Proper(c, actions)
    ensures var n := After(c, actions);
            && (l in n.listeners <==> OpenedWith(actions, l).Some?)
            && (l in n.listeners ==>
                  n.listeners[l].capacity == OpenedWith(actions, l).value && n.listeners[l].closed == HasClosed(actions, l))
            && (l !in n.listeners ==> !HasClosed(actions, l))
  {
    hide Next, Enabled, HasClosed;
    if actions == [] {
      assert !HasClosed([], l) by { NeverClosed(l); }
    } else {
      var before, a := actions[..|actions| - 1], actions[|actions| - 1];
      ListenersAreAsOpened(c, before, l);
      ListenerAfter(c, After(c, before), a, l);
      HasClosedAfter(before, a, l);
      assert actions == before + [a];
      if a.Open? {
        OpenIsNew(c, After(c, before), a);
      }
    }
  }

  lemma NeverClosed(l: nat)
    ensures !HasClosed([], l)
  {}

  lemma OpenIsNew(c: Setup, n: Net, a: Action)
    requires Enabled(c, n, a) && a.Open?
    ensures a.l !in n.listeners
  {}

  /** A claim is refused exactly by a listener that has been closed, and finds the backlog full exactly when
      the connections queued, the dials under way and the slots lost make up the whole of it; in every other
      case it gets its slot and the dial is under way. */
  lemma ClaimsSucceedExactly(c: Setup, actions: seq<Action>, id: nat, l: nat, local: Option<Peer>)
    requires Proper(c, actions) && Enabled(c, After(c, actions), Claim(id, l, local))
    ensures var n := After(c, actions);
            var taken := |n.listeners[l].incoming| + |DialsOn(n, l)| + LostOn(n.lost, l);
            && OpenedWith(actions, l).Some? && taken <= OpenedWith(actions, l).value
            && (Reserve(n.listeners[l]).1 == Refused <==> HasClosed(actions, l))
            && (Reserve(n.listeners[l]).1 == BacklogFull <==>
                  !HasClosed(actions, l) && taken == OpenedWith(actions, l).value)
            && (Reserve(n.listeners[l]).1 == Claimed <==>
                  !HasClosed(actions, l) && taken < OpenedWith(actions, l).value)
            && (id in Next(c, n, Claim(id, l, local)).dials <==>
                  !HasClosed(actions, l) && taken < OpenedWith(actions, l).value)
  {
    hide After, Sane, OrdinalsBalance, BookSane, Conserved, RegisteredOnce, HasClosed, OpenedWith;
    RunKeeps(c, actions);
    ListenersAreAsOpened(c, actions, l);
    assert SlotsBalance(After(c, actions), l);
  }

  /** A listener closes a server end only after it has been closed itself: as long as none has, every
      connection established is queued or accepted. */
  lemma {:induction false} NothingIsDroppedUnlessClosed(c: Setup, actions: seq<Action>)
    requires Proper(c, actions) && forall l :: !HasClosed(actions, l)
    ensures After(c, actions).dropped == []
  {
    hide Assign, Apply, Reserve, HasClosed, OpenedWith;
    if actions == [] {
    } else {
      var before, a := actions[..|actions| - 1], actions[|actions| - 1];
      assert actions == before + [a];
      forall l
        ensures !HasClosed(before, l)
      {
        HasClosedAfter(before, a, l);
      }
      NothingIsDroppedUnlessClosed(c, before);
      var n := After(c, before);
      if a.FillIn? {
        ListenersAreAsOpened(c, before, n.dials[a.id].listener);
      } else if a.DropNext? {
        ListenersAreAsOpened(c, before, a.l);
      }
    }
  }

  /** The server end of every ordinal ever taken is in exactly one place: with the dial that builds it, in
      one position of one queue, accepted, closed by its listener, or lost with its dial. */
  lemma EveryEndIsInOnePlace(c: Setup, actions: seq<Action>, k: nat)
    requires Proper(c, actions)
    ensures var n := After(c, actions);
            if k < n.nextOrdinal then exists p :: OnlyAt(n, k, p) else forall p :: !Holds(n, k, p)
  {
    hide After, Sane, OrdinalsBalance, BookSane, SlotsBalance;
    RunKeeps(c, actions);
    assert Placed(After(c, actions), k);
  }

  /** What the comments promise, that every claimed slot is filled and that a dial that fails takes no
      ordinal, is true exactly of the runs in which no dial was refused an address: whenever no dial is
      under way, no slot is held and the connections returned are as many as the ordinals taken. */
  lemma NothingLostExactly(c: Setup, actions: seq<Action>)
    requires Proper(c, actions) && After(c, actions).dials == map[]
    ensures var n := After(c, actions);
            NoneRefused(c, actions) <==>
              n.nextOrdinal == n.filled && forall l | l in n.listeners :: n.listeners[l].reserved == 0
  {
    hide After, Conserved, BookSane, LostOn, NoneRefused;
    var n := After(c, actions);
    RunKeeps(c, actions);
    LostAreTheRefused(c, actions);
    assert WithOrdinal(n) == {};
    forall l | l in n.listeners
      ensures n.lost == [] ==> n.listeners[l].reserved == 0
    {
      assert SlotsBalance(n, l);
      assert DialsOn(n, l) == {};
      NoneLost([], l);
    }
  }

  /** What each such failure costs, for good: one slot of that listener and one ordinal. */
  lemma EachFailureLosesOneSlotAndOneOrdinal(c: Setup, actions: seq<Action>, l: nat)
    requires Proper(c, actions) && After(c, actions).dials == map[] && l in After(c, actions).listeners
    ensures var n := After(c, actions);
            && n.listeners[l].reserved == LostOn(n.lost, l)
            && n.nextOrdinal == n.filled + |n.lost|
            && |n.listeners[l].incoming| <= n.listeners[l].capacity - LostOn(n.lost, l)
            && (forall i | 0 <= i < |n.lost| :: OnlyAt(n, n.lost[i].1, Lost(i)))
  {
    hide After, BookSane, LostOn;
    var n := After(c, actions);
    RunKeeps(c, actions);
    assert WithOrdinal(n) == {} && DialsOn(n, l) == {};
    assert SlotsBalance(n, l);
    forall i | 0 <= i < |n.lost|
      ensures OnlyAt(n, n.lost[i].1, Lost(i))
    {
      assert Placed(n, n.lost[i].1) && Holds(n, n.lost[i].1, Lost(i));
    }
  }

  /** When a dial is refused an address: it calls itself by a literal of the other family, or by a name
      without an address there when the pool has run out. */
  lemma RefusedAnAddressExactly(c: Setup, actions: seq<Action>, id: nat)
    requires Proper(c, actions) && Enabled(c, After(c, actions), FindAddress(id))
    ensures var n := After(c, actions);
            var f := n.families[n.dials[id].listener];
            AddressFor(c, n, id).1.None? <==>
              match n.dials[id].local
              case Some(Literal(ip)) => FamilyOf(ip) != f
              case Some(Named(name)) => Exhausted(n.book, name, f)
              case None => Exhausted(n.book, c.ephemeral(n.dials[id].phase.ordinal), f)
  {
    hide After, Conserved, OrdinalsBalance, Sane, SlotsBalance, Matched, Candidate;
    RunKeeps(c, actions);
  }

  /** What the exported trace relies on: whatever order racing dials register in, every direction is
      registered once. */
  lemma DirectionsAreRegisteredOnce(c: Setup, actions: seq<Action>, handles: seq<TraceExport.Handle>)
    requires Proper(c, actions) && |handles| == |After(c, actions).traces|
    requires forall i | 0 <= i < |handles| :: After(c, actions).traces[i] == (handles[i].ordinal, handles[i].side)
    ensures TraceExport.RegisteredOnce(handles)
  {
    hide After, Conserved, OrdinalsBalance, BookSane, SlotsBalance, Sane, Registry.Once;
    RunKeeps(c, actions);
  }

  /** And what Reset relies on: every end is registered once, so the registry of any run holds exactly the
      live ends. */
  lemma RegistryHoldsExactlyTheLive(c: Setup, actions: seq<Action>, pair: PairKey)
    requires Proper(c, actions)
    ensures var ops := After(c, actions).resets;
            && Registry.Distinct(Registry.Of(Registry.After(ops), pair))
            && forall x: End :: x in Registry.Of(Registry.After(ops), pair) <==> Registry.Live(ops, pair, x)
  {
    hide After, Conserved, OrdinalsBalance, BookSane, SlotsBalance, Sane, Registry.Once, Registry.After, Registry.Of, Registry.Live;
    RunKeeps(c, actions);
    var ops := After(c, actions).resets;
    Registry.ResetFindsExactlyTheLive(ops, pair);
    forall x: End
      ensures x in Registry.Of(Registry.After(ops), pair) <==> Registry.Live(ops, pair, x)
    {
      assert x in Registry.Of(Registry.After(ops), pair) ==> Registry.Live(ops, pair, x);
      assert Registry.Live(ops, pair, x) ==> x in Registry.Of(Registry.After(ops), pair);
    }
  }

  // ---- A run that loses ----

  lemma Extended(c: Setup, actions: seq<Action>, a: Action)
    requires Proper(c, actions) && Enabled(c, After(c, actions), a)
    ensures Proper(c, actions + [a])
    ensures After(c, actions + [a]) == Next(c, After(c, actions), a)
  {
    hide Enabled, Next;
    assert (actions + [a])[..|actions|] == actions;
  }

  /** ::1 as a dialer's name, and one IPv4 listener with a backlog of one. */
  const LOOPBACK6: Peer := Literal(Address([0, 0, 0, 0, 0, 0, 0, 0, 0, 0, 0, 0, 0, 0, 0, 1]))

  const LOSING: seq<Action> :=
    [Open(0, 1, IPv4), UseBook(Resolving(LOOPBACK6)), Claim(0, 0, Some(LOOPBACK6)), TakeOrdinal(0), FindAddress(0)]

  const LISTENING := NOTHING.(listeners := map[0 := Opened(1)], families := map[0 := IPv4])

  /** The dial has its slot and its ordinal. */
  const DIALING := LISTENING.(
    listeners := map[0 := Queue(1, [], 1, false)],
    book := EMPTY.(owners := map[LOOPBACK6.ip := LOOPBACK6]),
    dials := map[0 := Dial(0, Some(LOOPBACK6), Numbered(0))],
    nextOrdinal := 1)

  lemma TheListenerOpens(c: Setup)
    ensures Proper(c, LOSING[..1]) && After(c, LOSING[..1]) == LISTENING
  {
    assert Proper(c, []);
    Extended(c, [], LOSING[0]);
    assert [] + [LOSING[0]] == LOSING[..1];
  }

  lemma TheDialTakesItsOrdinal(c: Setup)
    ensures Proper(c, LOSING[..4]) && After(c, LOSING[..4]) == DIALING
  {
    hide Proper, After;
    TheListenerOpens(c);
    Extended(c, LOSING[..1], LOSING[1]);
    assert LOSING[..1] + [LOSING[1]] == LOSING[..2];
    Extended(c, LOSING[..2], LOSING[2]);
    assert LOSING[..2] + [LOSING[2]] == LOSING[..3];
    Extended(c, LOSING[..3], LOSING[3]);
    assert LOSING[..3] + [LOSING[3]] == LOSING[..4];
  }

  /** One dial by an IPv6 literal to an IPv4 listener fails; nothing is queued and no dial is under way,
      yet ordinal 0 is gone and the listener's only slot is held, so every later dial finds it full. */
  lemma AFailedDialCanFillTheBacklog(c: Setup)
    ensures Proper(c, LOSING)
    ensures var n := After(c, LOSING);
            && n.dials == map[] && n.filled == 0 && n.nextOrdinal == 1
            && 0 in n.listeners && n.listeners[0].incoming == []
            && Reserve(n.listeners[0]) == (n.listeners[0], BacklogFull)
  {
    hide Proper, After;
    TheDialTakesItsOrdinal(c);
    Extended(c, LOSING[..4], LOSING[4]);
    assert LOSING[..4] + [LOSING[4]] == LOSING;
  }
}
