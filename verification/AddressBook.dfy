/** addressing.go: which peer an address names, and which address a peer gets. */
module AddressBook {
  import opened Words
  import opened Faults
  import opened Encoding

  /** An address by its octets, as netip.Addr.String tells addresses apart: 4 of them or 16. */
  datatype RawIp = Address(octets: Octets)

  type Ip = ip: RawIp | |ip.octets| == 4 || |ip.octets| == 16 witness Address([0, 0, 0, 0])

  datatype Peer = Named(name: string) | Literal(ip: Ip)

  datatype Family = IPv4 | IPv6

  function FamilyOf(ip: Ip): Family { if |ip.octets| == 4 then IPv4 else IPv6 }

  // ---- The synthetic pools ----

  /** 198.18.0.0/15, section 2.2.2 of RFC 6890. */
  const POOL4: nat := 0x2_0000

  /** The lower half of an address below fd00::/8, section 3.1 of RFC 4193; the last value is never given out. */
  const POOL6: nat := 0xFFFF_FFFF_FFFF_FFFF

  function Pool(f: Family): nat { if f.IPv4? then POOL4 else POOL6 }

  /** What the family's counter wraps at. */
  function Wrap(f: Family): nat { if f.IPv4? then 0x1_0000_0000 else POOL6 + 1 }

  function Candidate(f: Family, v: nat): (ip: Ip)
    requires v < Pool(f)
    ensures FamilyOf(ip) == f
  {
    if f.IPv4? then Address([198, 18 + v / 0x1_0000] + BigEndian(v, 2))
    else Address([0xfd, 0, 0, 0, 0, 0, 0, 0] + BigEndian(v, 8))
  }

  /** The IPv4 pool is all of 198.18.0.0 to 198.19.255.255, and nothing else. */
  lemma Ipv4PoolIsTheBenchmarkRange(ip: Ip)
    ensures (exists v: nat :: v < Pool(IPv4) && Candidate(IPv4, v) == ip) <==>
              && |ip.octets| == 4 && ip.octets[0] == 198 && 18 <= ip.octets[1] <= 19
              && ip.octets[2] < 256 && ip.octets[3] < 256
  {
    forall v: nat | v < Pool(IPv4)
      ensures Candidate(IPv4, v).octets == [198, 18 + v / 0x1_0000, v / 256 % 256, v % 256]
    {
      LowOctets(v);
    }
    var o := ip.octets;
    if |o| == 4 && o[0] == 198 && 18 <= o[1] <= 19 && o[2] < 256 && o[3] < 256 {
      var v: nat := (o[1] - 18) * 0x1_0000 + o[2] * 256 + o[3];
      assert v < Pool(IPv4) && Candidate(IPv4, v).octets == o;
      assert Candidate(IPv4, v) == ip;
    }
  }

  /** The IPv6 pool lies in fd00::/64: 0xfd and seven zero octets, then the counter's eight; the counter
      takes every value but the last. */
  lemma Ipv6PoolIsUniqueLocal(v: nat)
    requires v < Pool(IPv6)
    ensures var o := Candidate(IPv6, v).octets;
            |o| == 16 && o[0] == 0xfd && (forall i | 1 <= i < 8 :: o[i] == 0) && o[8..] == BigEndian(v, 8)
    ensures Pool(IPv6) == 0x1_0000_0000_0000_0000 - 1
  {}

  lemma CandidateIsInjective(f: Family, v: nat, w: nat)
    requires v < Pool(f) && w < Pool(f) && Candidate(f, v) == Candidate(f, w)
    ensures v == w
  {
    hide Span;
    var a, b := Candidate(f, v).octets, Candidate(f, w).octets;
    if f.IPv4? {
      assert a[1] == 18 + v / 0x1_0000 && b[1] == 18 + w / 0x1_0000;
      assert a[2..] == BigEndian(v, 2) && b[2..] == BigEndian(w, 2);
      LowOctets(v);
      LowOctets(w);
    } else {
      hide BigEndian;
      assert a[8..] == BigEndian(v, 8) && b[8..] == BigEndian(w, 8);
      SpanOfWord();
      BigEndianIsInjective(v, w, 8);
    }
  }

  lemma LowOctets(v: nat)
    ensures BigEndian(v, 2) == [v / 256 % 256, v % 256]
    ensures v % 0x1_0000 == 256 * (v / 256 % 256) + v % 256
  {
    assert BigEndian(v / 256, 1) == BigEndian(v / 256 / 256, 0) + [v / 256 % 256];
  }

  // ---- The book ----

  datatype Book = Book(
    owners: map<Ip, Peer>,
    ips: map<(string, Family), Ip>,
    next4: nat,
    next6: nat)
  {
    function Next(f: Family): nat { if f.IPv4? then next4 else next6 }

    function WithNext(f: Family, v: nat): Book { if f.IPv4? then this.(next4 := v) else this.(next6 := v) }

    /** canonicalPeerLocked: the peer a name or a literal address stands for. */
    function Canonical(host: Peer): Peer {
      if host.Literal? && host.ip in owners then owners[host.ip] else host
    }

    /** A peer as canonicalPeerLocked returns it. */
    predicate Resolved(peer: Peer) {
      peer.Literal? ==> peer.ip in owners && owners[peer.ip] == peer
    }
  }

  const EMPTY := Book(map[], map[], 0, 0)

  /** canonicalPeerLocked reserves a literal it has not met before. */
  function Resolve(b: Book, host: Peer): Book {
    if host.Literal? && host.ip !in b.owners then b.(owners := b.owners[host.ip := host]) else b
  }

  /** The first candidate from v on that nobody owns. */
  function FirstFree(b: Book, f: Family, v: nat): (r: Option<nat>)
    ensures r.Some? ==> v <= r.value < Pool(f) && Candidate(f, r.value) !in b.owners
    ensures r.None? ==> forall u | v <= u < Pool(f) :: Candidate(f, u) in b.owners
    ensures r.Some? ==> forall u | v <= u < r.value :: Candidate(f, u) in b.owners
    decreases Pool(f) - v
  {
    if Pool(f) <= v then None
    else if Candidate(f, v) in b.owners then FirstFree(b, f, v + 1)
    else Some(v)
  }

  /** peerIPLocked: the peer's address in one family, or none if it cannot have one. */
  function Assign(b: Book, peer: Peer, f: Family): (Book, Option<Ip>) {
    match peer
    case Literal(ip) =>
      if FamilyOf(ip) != f then (b, None) else (b.(owners := b.owners[ip := peer]), Some(ip))
    case Named(name) =>
      if (name, f) in b.ips then (b, Some(b.ips[(name, f)]))
      else
        match FirstFree(b, f, b.Next(f))
        case None => (b.WithNext(f, (Later(Pool(f), b.Next(f)) + 1) % Wrap(f)), None)
        case Some(v) =>
          var ip := Candidate(f, v);
          (b.(owners := b.owners[ip := peer], ips := b.ips[(name, f) := ip]).WithNext(f, v + 1), Some(ip))
  }

  // ---- What every operation keeps ----

  /** The name owns exactly the addresses on record for it, and a literal owns only itself. */
  ghost predicate Matched(b: Book) {
    && (forall key | key in b.ips ::
          b.ips[key] in b.owners && b.owners[b.ips[key]] == Named(key.0) && FamilyOf(b.ips[key]) == key.1)
    && (forall ip | ip in b.owners ::
          match b.owners[ip]
          case Literal(own) => own == ip
          case Named(name) => (name, FamilyOf(ip)) in b.ips && b.ips[(name, FamilyOf(ip))] == ip)
  }

  /** Every candidate the counter has passed is owned; once the pool has run out, all of them are. */
  ghost predicate Passed(b: Book, f: Family) {
    && b.Next(f) < Wrap(f)
    && ((forall v | 0 <= v < Pool(f) :: Candidate(f, v) in b.owners)
        || (b.Next(f) <= Pool(f) && forall v | 0 <= v < b.Next(f) && v < Pool(f) :: Candidate(f, v) in b.owners))
  }

  ghost predicate Sound(b: Book) {
    Matched(b) && Passed(b, IPv4) && Passed(b, IPv6)
  }

  /** What is on record stays on record. */
  ghost predicate Extends(b: Book, c: Book) {
    && (forall ip | ip in b.owners :: ip in c.owners && c.owners[ip] == b.owners[ip])
    && (forall key | key in b.ips :: key in c.ips && c.ips[key] == b.ips[key])
  }

  lemma ResolveKeeps(b: Book, host: Peer)
    requires Sound(b)
    ensures Sound(Resolve(b, host)) && Extends(b, Resolve(b, host))
    ensures Resolve(b, host).Resolved(b.Canonical(host))
    ensures Resolve(b, host).Canonical(host) == b.Canonical(host)
  {}

  lemma GrownStaysPassed(b: Book, c: Book, f: Family)
    requires Passed(b, f) && Extends(b, c) && c.Next(f) == b.Next(f)
    ensures Passed(c, f)
  {}

  lemma AssignedIsPassed(b: Book, f: Family, name: string)
    requires Passed(b, f) && (name, f) !in b.ips
    ensures Passed(Assign(b, Named(name), f).0, f)
  {}

  lemma NewAddressIsMatched(b: Book, c: Book, f: Family, name: string, ip: Ip)
    requires Matched(b) && ip !in b.owners && FamilyOf(ip) == f && (name, f) !in b.ips
    requires c.owners == b.owners[ip := Named(name)] && c.ips == b.ips[(name, f) := ip]
    ensures Matched(c) && Extends(b, c)
  {}

  lemma SameRecordIsMatched(b: Book, c: Book)
    requires Matched(b) && c.owners == b.owners && c.ips == b.ips
    ensures Matched(c) && Extends(b, c)
  {}

  lemma AssignedIsMatched(b: Book, f: Family, name: string)
    requires Matched(b)
    ensures Matched(Assign(b, Named(name), f).0) && Extends(b, Assign(b, Named(name), f).0)
  {
    hide Candidate, Matched, Extends;
    var (c, ip) := Assign(b, Named(name), f);
    if (name, f) !in b.ips && ip.Some? {
      NewAddressIsMatched(b, c, f, name, ip.value);
    } else {
      SameRecordIsMatched(b, c);
    }
  }

  lemma AssignKeeps(b: Book, peer: Peer, f: Family)
    requires Sound(b) && b.Resolved(peer)
    ensures Sound(Assign(b, peer, f).0) && Extends(b, Assign(b, peer, f).0)
  {
    hide Passed, Matched, Candidate;
    var c := Assign(b, peer, f).0;
    match peer
    case Literal(ip) => assert c == b || c.owners == b.owners;
    case Named(name) =>
      AssignedIsMatched(b, f, name);
      var other := if f.IPv4? then IPv6 else IPv4;
      GrownStaysPassed(b, c, other);
      if (name, f) !in b.ips {
        AssignedIsPassed(b, f, name);
      }
  }

  /** The name has no address in the family and the pool has none left. */
  ghost predicate Exhausted(b: Book, name: string, f: Family) {
    (name, f) !in b.ips && forall v | 0 <= v < Pool(f) :: Candidate(f, v) in b.owners
  }

  /** A peer is refused an address exactly if it is a literal of the other family, or a name without an
      address when the pool is used up. */
  lemma RefusalIsExact(b: Book, peer: Peer, f: Family)
    requires Sound(b)
    ensures Assign(b, peer, f).1.None? <==>
              match peer
              case Literal(ip) => |ip.octets| != (if f.IPv4? then 4 else 16)
              case Named(name) => Exhausted(b, name, f)
  {
    hide Candidate, Matched;
  }

  // ---- Runs ----

  /** All that Listen, Dial, Partition, Heal and Reset do to the book: resolve a host, and find an address
      for a peer that was resolved before. */
  datatype Op = Resolving(host: Peer) | Assigning(peer: Peer, family: Family)

  function Apply(b: Book, op: Op): Book {
    match op
    case Resolving(host) => Resolve(b, host)
    case Assigning(peer, f) => Assign(b, peer, f).0
  }

  function After(b: Book, ops: seq<Op>): Book {
    if ops == [] then b else Apply(After(b, ops[..|ops| - 1]), ops[|ops| - 1])
  }

  /** An address is looked up only for a name, or for what an earlier resolution answered. */
  ghost predicate Proper(ops: seq<Op>) {
    forall i | 0 <= i < |ops| && ops[i].Assigning? :: WasResolved(ops[..i], ops[i].peer)
  }

  ghost predicate WasResolved(ops: seq<Op>, peer: Peer) {
    || peer.Named?
    || exists i | 0 <= i < |ops| :: ops[i].Resolving? && After(EMPTY, ops[..i]).Canonical(ops[i].host) == peer
  }

  lemma ExtendsChains(b: Book, c: Book, d: Book)
    requires Extends(b, c) && Extends(c, d)
    ensures Extends(b, d)
  {}

  lemma StepAtEnd(ops: seq<Op>, i: nat)
    requires i < |ops|
    ensures After(EMPTY, ops[..i + 1]) == Apply(After(EMPTY, ops[..i]), ops[i])
  {
    assert ops[..i + 1][..i] == ops[..i] && ops[..i + 1][i] == ops[i];
  }

  /** What an earlier resolution answered, the last one or one before. */
  lemma ResolvedEarlier(ops: seq<Op>, n: nat, peer: Peer)
    requires n < |ops| && WasResolved(ops[..n + 1], peer)
    ensures WasResolved(ops[..n], peer)
         || (ops[n].Resolving? && After(EMPTY, ops[..n]).Canonical(ops[n].host) == peer)
  {
    hide After;
    if peer.Literal? {
      var now := ops[..n + 1];
      var i :| 0 <= i < |now| && now[i].Resolving? && After(EMPTY, now[..i]).Canonical(now[i].host) == peer;
      assert now[..i] == ops[..i] && now[i] == ops[i];
      if i < n {
        assert ops[..n][i] == ops[i] && ops[..n][..i] == ops[..i];
      }
    }
  }

  lemma StepKeeps(b: Book, op: Op)
    requires Sound(b) && (op.Assigning? ==> b.Resolved(op.peer))
    ensures Sound(Apply(b, op)) && Extends(b, Apply(b, op))
    ensures op.Resolving? ==> Apply(b, op).Resolved(b.Canonical(op.host))
  {
    hide Sound, Extends, Resolve, Assign;
    if op.Resolving? {
      ResolveKeeps(b, op.host);
    } else {
      AssignKeeps(b, op.peer, op.family);
    }
  }

  lemma {:induction false} RunKeeps(ops: seq<Op>, n: nat)
    requires Proper(ops) && n <= |ops|
    ensures Sound(After(EMPTY, ops[..n]))
    ensures forall peer :: WasResolved(ops[..n], peer) ==> After(EMPTY, ops[..n]).Resolved(peer)
  {
    hide Sound, Extends, Apply, WasResolved;
    if n == 0 {
      EmptyIsSound();
      NothingWasResolved();
    } else {
      var b := After(EMPTY, ops[..n - 1]);
      RunKeeps(ops, n - 1);
      StepKeeps(b, ops[n - 1]);
      StepAtEnd(ops, n - 1);
      forall peer | WasResolved(ops[..n], peer)
        ensures After(EMPTY, ops[..n]).Resolved(peer)
      {
        ResolvedEarlier(ops, n - 1, peer);
        if b.Resolved(peer) {
          StaysResolved(b, After(EMPTY, ops[..n]), peer);
        }
      }
    }
  }

  lemma NothingWasResolved()
    ensures forall peer :: WasResolved([], peer) ==> peer.Named?
  {}

  /** Nothing is ever taken off the record. */
  lemma {:induction false} BookOnlyGrows(ops: seq<Op>, i: nat, n: nat)
    requires Proper(ops) && i <= n <= |ops|
    ensures Extends(After(EMPTY, ops[..i]), After(EMPTY, ops[..n]))
    decreases n
  {
    hide Sound, Extends, Apply, WasResolved, After;
    if i == n {
      ExtendsItself(After(EMPTY, ops[..i]));
    } else {
      BookOnlyGrows(ops, i, n - 1);
      RunKeeps(ops, n - 1);
      StepKeeps(After(EMPTY, ops[..n - 1]), ops[n - 1]);
      StepAtEnd(ops, n - 1);
      ExtendsChains(After(EMPTY, ops[..i]), After(EMPTY, ops[..n - 1]), After(EMPTY, ops[..n]));
    }
  }

  lemma RunIsSound(ops: seq<Op>)
    requires Proper(ops)
    ensures Sound(After(EMPTY, ops))
  {
    hide Sound, After;
    RunKeeps(ops, |ops|);
    assert ops[..|ops|] == ops;
  }

  lemma RunExtends(ops: seq<Op>, i: nat)
    requires Proper(ops) && i <= |ops|
    ensures Extends(After(EMPTY, ops[..i]), After(EMPTY, ops)) && Sound(After(EMPTY, ops[..i]))
  {
    hide Sound, After;
    RunKeeps(ops, i);
    BookOnlyGrows(ops, i, |ops|);
    assert ops[..|ops|] == ops;
  }

  lemma EmptyIsSound()
    ensures Sound(EMPTY) && Extends(EMPTY, EMPTY)
  {}

  lemma ExtendsItself(b: Book)
    ensures Extends(b, b)
  {}

  lemma StaysResolved(b: Book, c: Book, peer: Peer)
    requires Extends(b, c) && b.Resolved(peer)
    ensures c.Resolved(peer)
  {}

  // ---- The theorems ----

  /** No two peers ever own one address, and a name never has two in one family. */
  lemma NoTwoPeersShareAnAddress(ops: seq<Op>, key: (string, Family), other: (string, Family))
    requires Proper(ops)
    requires var b := After(EMPTY, ops); key in b.ips && other in b.ips && b.ips[key] == b.ips[other]
    ensures key == other
  {
    hide Passed, After;
    RunIsSound(ops);
  }

  /** Once a name has an address it keeps it, and from then on the address stands for the name. */
  lemma AddressesAreForever(ops: seq<Op>, i: nat, name: string, f: Family)
    requires Proper(ops) && i <= |ops| && (name, f) in After(EMPTY, ops[..i]).ips
    ensures var ip := After(EMPTY, ops[..i]).ips[(name, f)];
            && (name, f) in After(EMPTY, ops).ips && After(EMPTY, ops).ips[(name, f)] == ip
            && After(EMPTY, ops).Canonical(Literal(ip)) == Named(name)
            && Assign(After(EMPTY, ops), Named(name), f) == (After(EMPTY, ops), Some(ip))
  {
    hide Passed, After;
    RunExtends(ops, i);
    RunIsSound(ops);
  }

  /** The peer a host was once resolved to is the one it is resolved to ever after. */
  lemma IdentityIsForever(ops: seq<Op>, i: nat)
    requires Proper(ops) && i < |ops| && ops[i].Resolving?
    ensures After(EMPTY, ops).Canonical(ops[i].host) == After(EMPTY, ops[..i]).Canonical(ops[i].host)
  {
    hide Sound, After;
    RunExtends(ops, i + 1);
    StepAtEnd(ops, i);
  }

  /** A name is refused an address exactly when every address of the pool is owned; otherwise it gets one
      of the pool that nobody, literal or name, had. */
  lemma RefusedExactlyWhenExhausted(ops: seq<Op>, name: string, f: Family)
    requires Proper(ops) && (name, f) !in After(EMPTY, ops).ips
    ensures var b := After(EMPTY, ops);
            var (c, ip) := Assign(b, Named(name), f);
            && (ip.None? <==> forall v | 0 <= v < Pool(f) :: Candidate(f, v) in b.owners)
            && (ip.Some? ==>
                  && ip.value !in b.owners
                  && (exists v | 0 <= v < Pool(f) :: Candidate(f, v) == ip.value)
                  && c.owners == b.owners[ip.value := Named(name)] && c.ips == b.ips[(name, f) := ip.value])
            && (ip.None? ==> c.owners == b.owners && c.ips == b.ips)
  {
    hide After, Matched, Candidate;
    RunIsSound(ops);
  }

  /** The literal addresses a caller uses are never handed out, used before or after. */
  lemma LiteralsAreNeverHandedOut(ops: seq<Op>, i: nat, ip: Ip)
    requires Proper(ops) && i <= |ops|
    requires ip in After(EMPTY, ops[..i]).owners && After(EMPTY, ops[..i]).owners[ip].Literal?
    ensures forall key | key in After(EMPTY, ops).ips :: After(EMPTY, ops).ips[key] != ip
  {
    hide After, Passed;
    RunExtends(ops, i);
    RunIsSound(ops);
  }

  // ---- The book itself ----

  class AddressTable {
    var owners: map<Ip, Peer>
    var ips: map<(string, Family), Ip>
    var next4: nat
    var next6: nat

    function View(): Book
      reads this
    {
      Book(owners, ips, next4, next6)
    }

    constructor ()
      ensures View() == EMPTY
    {
      owners, ips, next4, next6 := map[], map[], 0, 0;
    }

    method CanonicalPeer(host: Peer) returns (peer: Peer)
      modifies this
      ensures peer == old(View()).Canonical(host)
      ensures View() == Resolve(old(View()), host)
    {
      if host.Named? {
        return host;
      }
      if host.ip in owners {
        return owners[host.ip];
      }
      owners := owners[host.ip := host];
      return host;
    }

    /** Takes the counter's value and moves it on, as an unsigned word. */
    method Draw(f: Family) returns (v: nat)
      modifies `next4, `next6
      ensures v == old(View()).Next(f)
      ensures View() == old(View()).WithNext(f, (v + 1) % Wrap(f))
      ensures v < Pool(f) ==> View() == old(View()).WithNext(f, v + 1)
    {
      if f.IPv4? {
        v := next4;
        next4 := (next4 + 1) % 0x1_0000_0000;
      } else {
        v := next6;
        next6 := (next6 + 1) % WORD;
      }
    }

    /** Goes through at most the rest of the pool. */
    method FindFree(f: Family) returns (v: Option<nat>)
      requires View().Next(f) < Wrap(f)
      modifies `next4, `next6
      ensures v == FirstFree(old(View()), f, old(View()).Next(f))
      ensures View() == old(View()).WithNext(f,
                          if v.Some? then v.value + 1 else (Later(Pool(f), old(View()).Next(f)) + 1) % Wrap(f))
    {
      hide Candidate, Wrap;
      ghost var book := View();
      while true
        invariant View() == book.WithNext(f, View().Next(f))
        invariant book.Next(f) <= View().Next(f) <= Later(Pool(f), book.Next(f))
        invariant FirstFree(book, f, book.Next(f)) == FirstFree(book, f, View().Next(f))
        decreases Pool(f) + 1 - View().Next(f)
      {
        var next := Draw(f);
        if Pool(f) <= next {
          return None;
        }
        if Candidate(f, next) !in owners {
          return Some(next);
        }
      }
    }

    method PeerIp(peer: Peer, f: Family) returns (ip: Option<Ip>)
      requires View().Next(f) < Wrap(f)
      modifies this
      ensures (View(), ip) == Assign(old(View()), peer, f)
    {
      hide Candidate;
      if peer.Literal? {
        if FamilyOf(peer.ip) != f {
          return None;
        }
        owners := owners[peer.ip := peer];
        return Some(peer.ip);
      }
      if (peer.name, f) in ips {
        return Some(ips[(peer.name, f)]);
      }
      var v := FindFree(f);
      if v.None? {
        return None;
      }
      var candidate := Candidate(f, v.value);
      owners := owners[candidate := peer];
      ips := ips[(peer.name, f) := candidate];
      return Some(candidate);
    }
  }
}
