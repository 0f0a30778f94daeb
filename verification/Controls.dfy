/** partition.go and the setters of netchaos.go: what a running network is told. */
module Controls {
  import opened Words
  import opened Faults

  /** The order of Go strings. */
  predicate AtMost(x: string, y: string) {
    x == [] || (y != [] && (x[0] < y[0] || (x[0] == y[0] && AtMost(x[1..], y[1..]))))
  }

  datatype PairKey = PairKey(a: string, b: string)

  function NewPairKey(x: string, y: string): PairKey {
    if AtMost(x, y) then PairKey(x, y) else PairKey(y, x)
  }

  lemma {:induction false} OrderIsTotal(x: string, y: string)
    ensures AtMost(x, y) || AtMost(y, x)
    ensures AtMost(x, y) && AtMost(y, x) ==> x == y
  {
    if x == [] || y == [] || x[0] != y[0] {
    } else {
      OrderIsTotal(x[1..], y[1..]);
      assert x == [x[0]] + x[1..] && y == [y[0]] + y[1..];
    }
  }

  /** A key names an unordered pair: two calls agree exactly when they name the same two peers. */
  lemma PairKeyIsUnordered(x: string, y: string, u: string, v: string)
    ensures NewPairKey(x, y) == NewPairKey(u, v) <==> (x == u && y == v) || (x == v && y == u)
  {
    OrderIsTotal(x, y);
    OrderIsTotal(u, v);
  }

  // ---- Partitions and the channel that announces their changes ----

  /** The partitioned pairs and the generation of the channel. */
  datatype Links = Links(partitions: set<PairKey>, notify: nat)

  datatype Change = Cut(k: PairKey) | Mend(k: PairKey)

  /** Partition and Heal replace the channel only when they change something. */
  function Relink(l: Links, c: Change): Links {
    match c
    case Cut(k) => if k in l.partitions then l else Links(l.partitions + {k}, l.notify + 1)
    case Mend(k) => if k in l.partitions then Links(l.partitions - {k}, l.notify + 1) else l
  }

  function RelinkedBy(l: Links, changes: seq<Change>): Links {
    if changes == [] then l else Relink(RelinkedBy(l, changes[..|changes| - 1]), changes[|changes| - 1])
  }

  /** A dial that waits on the channel it was given with the news that its pair is partitioned is woken by
      anything that heals it: as long as the channel is the same, so are the partitions. */
  lemma {:induction false} UnwokenDialsAreStillCutOff(l: Links, changes: seq<Change>)
    ensures l.notify <= RelinkedBy(l, changes).notify
    ensures RelinkedBy(l, changes).notify == l.notify ==> RelinkedBy(l, changes) == l
  {
    if changes == [] {
    } else {
      UnwokenDialsAreStillCutOff(l, changes[..|changes| - 1]);
    }
  }

  /** The settings and partitions of one network. */
  class Network {
    var faults: FaultConfig
    var partitions: set<PairKey>
    var partNotify: nat     // generation of the channel that Partition and Heal close

    ghost predicate Valid()
      reads this
    {
      faults.Valid()
    }

    function Cuts(): Links
      reads this
    {
      Links(partitions, partNotify)
    }

    constructor (faults: FaultConfig)
      requires faults.Valid()
      ensures Valid() && this.faults == faults && partitions == {} && partNotify == 0
    {
      this.faults := faults;
      partitions := {};
      partNotify := 0;
    }

    method Partition(x: string, y: string)
      modifies `partitions, `partNotify
      ensures Cuts() == Relink(old(Cuts()), Cut(NewPairKey(x, y)))
      ensures partitions == old(partitions) + {NewPairKey(x, y)}
    {
      var k := NewPairKey(x, y);
      if k in partitions {
        return;
      }
      partitions := partitions + {k};
      partNotify := partNotify + 1;
    }

    method Heal(x: string, y: string)
      modifies `partitions, `partNotify
      ensures Cuts() == Relink(old(Cuts()), Mend(NewPairKey(x, y)))
      ensures partitions == old(partitions) - {NewPairKey(x, y)}
    {
      var k := NewPairKey(x, y);
      if k !in partitions {
        return;
      }
      partitions := partitions - {k};
      partNotify := partNotify + 1;
    }

    /** Whether k is partitioned, and the generation to wait on if it is, in one step. */
    method CheckPartition(k: PairKey) returns (partitioned: bool, notify: nat)
      ensures partitioned == (k in partitions) && notify == partNotify
    {
      return k in partitions, partNotify;
    }

    method SetLatency(min: int, max: int)
      requires Valid() && 0 <= min <= max <= MAX_INT
      modifies `faults
      ensures Valid() && faults == old(faults).(latency := Some((min, max))) && old(faults).GrowsInto(faults)
    {
      faults := faults.(latency := Some((min, max)));
    }

    method SetPacketLoss(rate: real)
      requires Valid() && 0.0 <= rate <= 1.0
      modifies `faults
      ensures Valid() && faults == old(faults).(loss := Some(rate)) && old(faults).GrowsInto(faults)
    {
      faults := faults.(loss := Some(rate));
    }

    method SetDuplication(rate: real)
      requires Valid() && 0.0 <= rate <= 1.0
      modifies `faults
      ensures Valid() && faults == old(faults).(duplicate := Some(rate)) && old(faults).GrowsInto(faults)
    {
      faults := faults.(duplicate := Some(rate));
    }

    method SetCorruption(rate: real)
      requires Valid() && 0.0 <= rate <= 1.0
      modifies `faults
      ensures Valid() && faults == old(faults).(corrupt := Some(rate)) && old(faults).GrowsInto(faults)
    {
      faults := faults.(corrupt := Some(rate));
    }
  }
}
