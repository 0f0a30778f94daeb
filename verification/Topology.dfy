/** netchaos.go: which listener an address reaches. Listen, its port search, deregister and the lookup of
    DialContext. */
module Topology {
  import opened Faults
  import opened AddressBook
  import opened Registry

  const LISTEN_PORT_BASE := 8000
  const MAX_PORT := 65535

  /** How many ports the search goes through. */
  const SPAN := MAX_PORT - LISTEN_PORT_BASE + 1

  datatype Network = Tcp | Tcp4 | Tcp6

  datatype Entry = Entry(id: nat, network: Network, ip: Ip)

  type Ports = map<int, Entry>

  function AddressFamily(network: Network, peer: Peer): Family {
    match network
    case Tcp6 => IPv6
    case Tcp4 => IPv4
    case Tcp => if peer.Literal? then FamilyOf(peer.ip) else IPv4
  }

  // ---- The port search ----

  predicate InRange(port: int) { LISTEN_PORT_BASE <= port <= MAX_PORT }

  /** The port i places after start, round and round the range. */
  function Cyclic(start: int, i: nat): (port: int)
    ensures InRange(port)
  {
    LISTEN_PORT_BASE + (start - LISTEN_PORT_BASE + i) % SPAN
  }

  function Successor(port: int): int { if port == MAX_PORT then LISTEN_PORT_BASE else port + 1 }

  lemma CyclicSteps(start: int, i: nat)
    requires InRange(start)
    ensures Cyclic(start, 0) == start
    ensures Cyclic(start, i + 1) == Successor(Cyclic(start, i))
  {}

  /** SPAN places in a row are all the ports there are. */
  lemma EveryPortComesUp(start: int, port: int)
    requires InRange(start) && InRange(port)
    ensures exists i | 0 <= i < SPAN :: Cyclic(start, i) == port
  {
    var i := (port - start) % SPAN;
    assert Cyclic(start, i) == port;
  }

  /** The port a search from start finds: the first free one in cyclic order. */
  ghost predicate FirstFreePort(ports: Ports, start: int, port: int) {
    exists i | 0 <= i < SPAN ::
      Cyclic(start, i) == port && port !in ports && forall j | 0 <= j < i :: Cyclic(start, j) in ports
  }

  ghost predicate AllTaken(ports: Ports) {
    forall port | InRange(port) :: port in ports
  }

  /** No port is to be had: the one asked for, or any. */
  ghost predicate Taken(ports: Ports, port: Option<int>) {
    if port.Some? then port.value in ports else AllTaken(ports)
  }

  ghost predicate Fits(ports: Ports, start: int, port: Option<int>, p: int) {
    p !in ports && if port.Some? then p == port.value else FirstFreePort(ports, start, p)
  }

  lemma CountersInRange(b: Book, f: Family)
    requires Sound(b)
    ensures b.Next(f) < Wrap(f)
  {}

  /** The address a peer gets is of the family asked for, and stands for the peer. */
  lemma AssignedIsOwned(b: Book, peer: Peer, f: Family)
    requires Sound(b) && b.Resolved(peer) && Assign(b, peer, f).1.Some?
    ensures var (c, ip) := Assign(b, peer, f); FamilyOf(ip.value) == f && c.Canonical(Literal(ip.value)) == peer
    ensures peer.Literal? ==> Assign(b, peer, f).1.value == peer.ip
  {
    hide Passed;
  }

  lemma FamiliesByOctets(network: Network, peer: Peer, ip: Ip)
    requires FamilyOf(ip) == AddressFamily(network, peer)
    ensures network.Tcp4? || (network.Tcp? && peer.Named?) ==> |ip.octets| == 4
    ensures network.Tcp6? ==> |ip.octets| == 16
  {}

  // ---- The lookup ----

  predicate Matches(network: Network, target: Option<Ip>, peer: Peer, e: Entry) {
    && (network.Tcp? || AddressFamily(network, peer) == AddressFamily(e.network, peer))
    && (target.Some? ==> e.ip == target.value)
  }

  /** An order in which a map may be walked: every key once. */
  predicate Walk(ports: Ports, walk: seq<int>) {
    && (forall port | port in ports :: port in walk)
    && (forall i | 0 <= i < |walk| :: walk[i] in ports)
    && Distinct(walk)
  }

  /** Every listener's address is of the family it was asked for. */
  predicate AllOfFamily(peer: Peer, ports: Ports) {
    forall port | port in ports :: FamilyOf(ports[port].ip) == AddressFamily(ports[port].network, peer)
  }

  /** What a dial asks of a listener it can reach: tcp4 an address of 4 octets, tcp6 one of 16, and a literal
      the address itself. */
  predicate Reachable(network: Network, target: Option<Ip>, e: Entry) {
    && (network.Tcp4? ==> |e.ip.octets| == 4)
    && (network.Tcp6? ==> |e.ip.octets| == 16)
    && (target.Some? ==> e.ip == target.value)
  }

  lemma MatchesTheReachable(network: Network, target: Option<Ip>, peer: Peer, e: Entry)
    requires FamilyOf(e.ip) == AddressFamily(e.network, peer)
    ensures Matches(network, target, peer, e) <==> Reachable(network, target, e)
  {}

  /** No address is to be had: a literal that is not of the network's family, which tcp leaves open, or a
      name when the pool is used up, of IPv6 for tcp6 and of IPv4 otherwise. */
  ghost predicate Unaddressable(b: Book, peer: Peer, network: Network) {
    match peer
    case Literal(ip) => (network.Tcp4? && |ip.octets| != 4) || (network.Tcp6? && |ip.octets| != 16)
    case Named(name) => Exhausted(b, name, if network.Tcp6? then IPv6 else IPv4)
  }

  lemma UnaddressableIsRefused(b: Book, peer: Peer, network: Network)
    requires Sound(b)
    ensures Assign(Resolve(b, peer), peer, AddressFamily(network, peer)).1.None? <==> Unaddressable(b, peer, network)
  {
    hide Assign, Sound, Exhausted;
    ResolveKeeps(b, peer);
    RefusalIsExact(Resolve(b, peer), peer, AddressFamily(network, peer));
  }

  // ---- The topology ----

  datatype Error = AddressInUse | NoAddress

  datatype Outcome = Bound(peer: Peer, port: int, ip: Ip) | Failed(error: Error)

  class Directory {
    const book: AddressTable
    var listeners: map<Peer, Ports>
    var nextListenPort: int
    var nextWildcard: nat

    ghost predicate Valid()
      reads this, book
    {
      && InRange(nextListenPort)
      && Sound(book.View())
      && forall peer | peer in listeners :: listeners[peer] != map[] && AllOfFamily(peer, listeners[peer])
    }

    function PortsOf(peer: Peer): Ports
      reads this
    {
      if peer in listeners then listeners[peer] else map[]
    }

    constructor ()
      ensures Valid() && fresh(book) && book.View() == EMPTY && listeners == map[]
    {
      book := new AddressTable();
      listeners := map[];
      nextListenPort := LISTEN_PORT_BASE;
      nextWildcard := 0;
      new;
      EmptyIsSound();
    }

    /** The search of Listen. It gives up only when every port of the range is taken for the peer. */
    method FindPort(peer: Peer) returns (port: int)
      requires InRange(nextListenPort)
      modifies `nextListenPort
      ensures 8000 <= port <= 65535 && 8000 <= nextListenPort <= 65535
      ensures nextListenPort == if port == 65535 then 8000 else port + 1
      ensures port in PortsOf(peer) <==> forall p | 8000 <= p <= 65535 :: p in PortsOf(peer)
      ensures !AllTaken(PortsOf(peer)) ==> FirstFreePort(PortsOf(peer), old(nextListenPort), port)
    {
      ghost var start := nextListenPort;
      ghost var ports := PortsOf(peer);
      CyclicSteps(start, 0);
      port := nextListenPort;
      for attempts := 0 to SPAN
        invariant PortsOf(peer) == ports
        invariant nextListenPort == Cyclic(start, attempts)
        invariant 0 < attempts ==> InRange(port) && nextListenPort == Successor(port)
        invariant forall j | 0 <= j < attempts :: Cyclic(start, j) in ports
        invariant 0 < attempts ==> port in ports
      {
        CyclicSteps(start, attempts);
        port := nextListenPort;
        nextListenPort := nextListenPort + 1;
        if nextListenPort > MAX_PORT {
          nextListenPort := LISTEN_PORT_BASE;
        }
        if peer !in listeners || port !in listeners[peer] {
          assert FirstFreePort(ports, start, port);
          return;
        }
      }
      forall p | InRange(p)
        ensures p in ports
      {
        EveryPortComesUp(start, p);
      }
    }

    /** The explicit port unless it is taken, or the one the search finds. */
    method ChoosePort(peer: Peer, port: Option<int>) returns (p: Option<int>)
      requires InRange(nextListenPort)
      modifies `nextListenPort
      ensures InRange(nextListenPort)
      ensures p.None? <==> Taken(PortsOf(peer), port)
      ensures p.Some? ==> Fits(PortsOf(peer), old(nextListenPort), port, p.value)
    {
      hide FirstFreePort;
      var found: int;
      if port.None? {
        found := FindPort(peer);
      } else {
        found := port.value;
      }
      return if peer in listeners && found in listeners[peer] then None else Some(found);
    }

    /** The last part of Listen: an address for the peer, and the listener on record. */
    method Bind(peer: Peer, port: int, network: Network, id: nat) returns (ip: Option<Ip>)
      requires Valid() && book.View().Resolved(peer)
      modifies `listeners, book
      ensures Valid() && Extends(old(book.View()), book.View())
      ensures (book.View(), ip) == Assign(old(book.View()), peer, AddressFamily(network, peer))
      ensures listeners == if ip.None? then old(listeners)
                           else old(listeners)[peer := old(PortsOf(peer))[port := Entry(id, network, ip.value)]]
    {
      hide Assign, Sound, Extends, AddressFamily;
      var family := AddressFamily(network, peer);
      AssignKeeps(book.View(), peer, family);
      if Assign(book.View(), peer, family).1.Some? {
        AssignedIsOwned(book.View(), peer, family);
      }
      assert book.View().Next(family) < Wrap(family) by { CountersInRange(book.View(), family); }
      ip := book.PeerIp(peer, family);
      if ip.Some? {
        var ports := (if peer in listeners then listeners[peer] else map[])[port := Entry(id, network, ip.value)];
        assert port in ports;
        listeners := listeners[peer := ports];
      }
    }

    /** Listen, by the peer asked for (none for a wildcard), the explicit port if any and the id the new
        listener is to have. */
    method Listen(host: Option<Peer>, port: Option<int>, network: Network, wildcard: nat -> string, id: nat)
      returns (r: Outcome)
      requires Valid()
      modifies this, book
      ensures Valid()
      ensures r.Bound? && network.Tcp4? ==> |r.ip.octets| == 4
      ensures r.Bound? && network.Tcp6? ==> |r.ip.octets| == 16
      ensures r.Bound? && network.Tcp? && r.peer.Named? ==> |r.ip.octets| == 4
      ensures r.Bound? && r.peer.Literal? ==> r.ip == r.peer.ip
      ensures var peer := if host.Some? then host.value else Named(wildcard(old(nextWildcard)));
              var inUse := old(book.View()).Canonical(peer) != peer || Taken(old(PortsOf(peer)), port);
              var refused := Unaddressable(old(book.View()), peer, network);
              match r
              case Failed(AddressInUse) => inUse
              case Failed(NoAddress) => !inUse && refused
              case Bound(at, _, _) => !inUse && !refused && at == peer
      ensures r.Failed? ==> listeners == old(listeners)
      ensures r.Bound? ==>
                && Fits(old(PortsOf(r.peer)), old(nextListenPort), port, r.port)
                && listeners == old(listeners)[r.peer := old(PortsOf(r.peer))[r.port := Entry(id, network, r.ip)]]
      ensures r.Bound? ==>
                FamilyOf(r.ip) == AddressFamily(network, r.peer) && book.View().Canonical(Literal(r.ip)) == r.peer
      ensures Extends(old(book.View()), book.View())
    {
      hide Assign, Sound, Extends, AddressFamily, Resolve, Fits, Taken, Unaddressable;
      var peer: Peer;
      if host.None? {
        peer := Named(wildcard(nextWildcard));
        nextWildcard := nextWildcard + 1;
      } else {
        peer := host.value;
      }
      ghost var before := book.View();
      if peer.Literal? && peer.ip in book.owners && book.owners[peer.ip] != peer {
        ExtendsItself(before);
        return Failed(AddressInUse);
      }
      ResolveKeeps(before, peer);
      UnaddressableIsRefused(before, peer, network);
      peer := book.CanonicalPeer(peer);
      var p := ChoosePort(peer, port);
      if p.None? {
        return Failed(AddressInUse);
      }
      ghost var reserved := book.View();
      var ip := Bind(peer, p.value, network, id);
      ExtendsChains(before, reserved, book.View());
      if ip.None? {
        return Failed(NoAddress);
      }
      AssignedIsOwned(reserved, peer, AddressFamily(network, peer));
      FamiliesByOctets(network, peer, ip.value);
      return Bound(peer, p.value, ip.value);
    }

    /** A closed listener frees its port; a peer without listeners leaves the map. */
    method Deregister(peer: Peer, port: int)
      requires Valid()
      modifies `listeners
      ensures Valid()
      ensures PortsOf(peer) == old(PortsOf(peer)) - {port}
      ensures forall other | other != peer :: PortsOf(other) == old(PortsOf(other))
    {
      if peer in listeners {
        listeners := listeners[peer := listeners[peer] - {port}];
        if listeners[peer] == map[] {
          listeners := listeners - {peer};
        }
      }
    }

    /** The listener at the port is one the dial can reach. */
    predicate ReachableAt(peer: Peer, network: Network, target: Option<Ip>, port: int)
      reads this
    {
      port in PortsOf(peer) && Reachable(network, target, PortsOf(peer)[port])
    }

    /** With a port, the lookup reaches exactly that listener, if a dial of this network and target can
        reach it at all; without one, it reaches a listener exactly when it can reach one and no more, in
        whatever order the map is walked. */
    method Lookup(peer: Peer, port: Option<int>, network: Network, target: Option<Ip>, walk: seq<int>)
      returns (l: Option<Entry>)
      requires Valid() && Walk(PortsOf(peer), walk)
      ensures port.Some? ==> (l.Some? <==> ReachableAt(peer, network, target, port.value))
      ensures port.Some? && l.Some? ==> l.value == PortsOf(peer)[port.value]
      ensures port.None? && l.Some? ==>
                exists p :: ReachableAt(peer, network, target, p) && l.value == PortsOf(peer)[p]
                            && forall other :: ReachableAt(peer, network, target, other) ==> other == p
      ensures port.None? && l.None? ==>
                forall p :: ReachableAt(peer, network, target, p) ==>
                  exists other :: other != p && ReachableAt(peer, network, target, other)
    {
      hide Reachable, Matches, AllOfFamily;
      var ports := PortsOf(peer);
      forall p | p in ports
        ensures Matches(network, target, peer, ports[p]) == Reachable(network, target, ports[p])
      {
        EntryIsOfFamily(peer, ports, p);
        MatchesTheReachable(network, target, peer, ports[p]);
      }
      if port.Some? {
        if port.value in ports && Matches(network, target, peer, ports[port.value]) {
          return Some(ports[port.value]);
        }
        return None;
      }
      l := None;
      ghost var at := 0;
      for i := 0 to |walk|
        invariant forall j | 0 <= j < i && Matches(network, target, peer, ports[walk[j]]) :: l.Some? && j == at
        invariant l.Some? ==> 0 <= at < i && Matches(network, target, peer, ports[walk[at]]) && l.value == ports[walk[at]]
      {
        if !Matches(network, target, peer, ports[walk[i]]) {
          continue;
        }
        if l.Some? {
          assert walk[at] != walk[i];
          assert ReachableAt(peer, network, target, walk[at]) && ReachableAt(peer, network, target, walk[i]);
          return None;
        }
        l, at := Some(ports[walk[i]]), i;
      }
      if l.Some? {
        assert ReachableAt(peer, network, target, walk[at]);
      }
    }
  }

  lemma EntryIsOfFamily(peer: Peer, ports: Ports, port: int)
    requires port in ports && (ports == map[] || AllOfFamily(peer, ports))
    ensures FamilyOf(ports[port].ip) == AddressFamily(ports[port].network, peer)
  {}
}
