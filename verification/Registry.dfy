/** reset.go: which connections a Reset finds. */
module Registry {
  import opened Controls

  /** deregisterReset: the list without the first occurrence of x. */
  function Without<T(==)>(xs: seq<T>, x: T): seq<T> {
    if xs == [] then []
    else if xs[0] == x then xs[1..]
    else [xs[0]] + Without(xs[1..], x)
  }

  predicate Distinct<T(==)>(xs: seq<T>) {
    forall i, j | 0 <= i < j < |xs| :: xs[i] != xs[j]
  }

  lemma {:induction false} WithoutCutsFirst<T>(xs: seq<T>, x: T, i: nat)
    requires i < |xs| && xs[i] == x && x !in xs[..i]
    ensures Without(xs, x) == xs[..i] + xs[i + 1..]
  {
    if i == 0 {
    } else {
      assert xs[..i][0] == xs[0];
      assert xs[1..][..i - 1] == xs[..i][1..];
      WithoutCutsFirst(xs[1..], x, i - 1);
    }
  }

  lemma {:induction false} WithoutRemoves<T>(xs: seq<T>, x: T)
    requires Distinct(xs)
    ensures x !in Without(xs, x) && Distinct(Without(xs, x))
    ensures forall y :: y != x ==> (y in Without(xs, x) <==> y in xs)
    ensures xs == [] ==> Without(xs, x) == []
  {
    if xs == [] {
    } else {
      var rest := xs[1..];
      assert Distinct(rest) by {
        assert forall i | 0 <= i < |rest| :: rest[i] == xs[i + 1];
      }
      WithoutRemoves(rest, x);
      if xs[0] != x {
        assert xs[0] !in rest;
        DistinctCons(xs[0], Without(rest, x));
      }
    }
  }

  lemma DistinctCons<T>(x: T, rest: seq<T>)
    requires Distinct(rest) && x !in rest
    ensures Distinct([x] + rest)
  {}

  // ---- Runs of the registry ----

  /** A connection's two ends are registered when it is established, an end is removed by its own Close,
      and a Reset takes all there is. */
  datatype Op<T> =
    | Register(pair: PairKey, ends: seq<T>)
    | Deregister(pair: PairKey, end: T)
    | TakeAll(pair: PairKey)

  type Targets<T> = map<PairKey, seq<T>>

  function Of<T>(targets: Targets<T>, pair: PairKey): seq<T> {
    if pair in targets then targets[pair] else []
  }

  function Apply<T(==)>(targets: Targets<T>, op: Op<T>): Targets<T> {
    match op
    case Register(pair, ends) => targets[pair := Of(targets, pair) + ends]
    case Deregister(pair, end) =>
      if end in Of(targets, pair) then targets[pair := Without(targets[pair], end)] else targets
    case TakeAll(pair) => targets - {pair}
  }

  function After<T(==)>(ops: seq<Op<T>>): Targets<T> {
    if ops == [] then map[] else Apply(After(ops[..|ops| - 1]), ops[|ops| - 1])
  }

  /** No end is registered twice. */
  predicate Once<T(==)>(ops: seq<Op<T>>) {
    && (forall i | 0 <= i < |ops| && ops[i].Register? :: Distinct(ops[i].ends))
    && forall i, j, x | 0 <= i < j < |ops| && ops[i].Register? && ops[j].Register? && x in ops[i].ends :: x !in ops[j].ends
  }

  /** The end was registered under the pair, and neither closed nor reset since. */
  ghost predicate Live<T>(ops: seq<Op<T>>, pair: PairKey, x: T) {
    exists i | 0 <= i < |ops| ::
      && ops[i].Register? && ops[i].pair == pair && x in ops[i].ends
      && forall j | i < j < |ops| :: Spares(ops[j], pair, x)
  }

  predicate Spares<T(==)>(op: Op<T>, pair: PairKey, x: T) {
    match op
    case Register(_, _) => true
    case Deregister(k, end) => k != pair || end != x
    case TakeAll(k) => k != pair
  }

  lemma LiveAfter<T>(ops: seq<Op<T>>, op: Op<T>, pair: PairKey, x: T)
    ensures Live(ops + [op], pair, x) <==>
              (op.Register? && op.pair == pair && x in op.ends) || (Live(ops, pair, x) && Spares(op, pair, x))
  {
    var all := ops + [op];
    if Live(ops, pair, x) && Spares(op, pair, x) {
      var i :| 0 <= i < |ops| && ops[i].Register? && ops[i].pair == pair && x in ops[i].ends
               && forall j | i < j < |ops| :: Spares(ops[j], pair, x);
      assert all[i] == ops[i];
    }
    if Live(all, pair, x) {
      var i :| 0 <= i < |all| && all[i].Register? && all[i].pair == pair && x in all[i].ends
               && forall j | i < j < |all| :: Spares(all[j], pair, x);
      if i < |ops| {
        assert all[|ops|] == op;
        assert forall j | i < j < |ops| :: ops[j] == all[j];
      }
    }
    if op.Register? && op.pair == pair && x in op.ends {
      assert all[|ops|] == op;
    }
  }

  lemma LiveWasRegistered<T>(ops: seq<Op<T>>, pair: PairKey, x: T)
    requires Live(ops, pair, x)
    ensures exists i | 0 <= i < |ops| :: ops[i].Register? && x in ops[i].ends
  {}

  lemma DistinctJoin<T>(xs: seq<T>, ys: seq<T>)
    requires Distinct(xs) && Distinct(ys) && forall x | x in ys :: x !in xs
    ensures Distinct(xs + ys)
  {
    var all := xs + ys;
    forall i, j | 0 <= i < j < |all|
      ensures all[i] != all[j]
    {
      if i < |xs| <= j {
        assert all[j] == ys[j - |xs|] && all[j] in ys && all[i] in xs;
      }
    }
  }

  /** A Reset targets exactly the ends registered under its pair that have neither closed nor been taken
      by an earlier Reset of that pair, each once: nothing established later, nothing that is gone. */
  lemma {:induction false} ResetFindsExactlyTheLive<T>(ops: seq<Op<T>>, pair: PairKey)
    requires Once(ops)
    ensures Distinct(Of(After(ops), pair))
    ensures forall x :: x in Of(After(ops), pair) <==> Live(ops, pair, x)
  {
    if ops == [] {
    } else {
      var before, op := ops[..|ops| - 1], ops[|ops| - 1];
      assert ops == before + [op];
      assert Once(before) by {
        assert forall i | 0 <= i < |before| :: before[i] == ops[i];
      }
      ResetFindsExactlyTheLive(before, pair);
      var list := Of(After(before), pair);
      forall x
        ensures x in Of(After(ops), pair) <==> Live(ops, pair, x)
      {
        LiveAfter(before, op, pair, x);
        WithoutRemoves(list, if op.Deregister? then op.end else x);
      }
      if op.Register? && op.pair == pair {
        forall x | x in op.ends
          ensures x !in list
        {
          if Live(before, pair, x) {
            LiveWasRegistered(before, pair, x);
            assert false;
          }
        }
        DistinctJoin(list, op.ends);
      } else if op.Deregister? {
        WithoutRemoves(list, op.end);
      }
    }
  }

  // ---- The registry itself ----

  class ResetRegistry<T(==)> {
    var targets: Targets<T>

    constructor ()
      ensures targets == map[]
    {
      targets := map[];
    }

    method Register(pair: PairKey, ends: seq<T>)
      modifies this
      ensures targets == Apply(old(targets), Op.Register(pair, ends))
    {
      var list := if pair in targets then targets[pair] else [];
      targets := targets[pair := list + ends];
    }

    method Deregister(pair: PairKey, end: T)
      modifies this
      ensures targets == Apply(old(targets), Op.Deregister(pair, end))
    {
      var list := if pair in targets then targets[pair] else [];
      for i := 0 to |list|
        invariant targets == old(targets) && end !in list[..i]
      {
        if list[i] == end {
          WithoutCutsFirst(list, end, i);
          targets := targets[pair := list[..i] + list[i + 1..]];
          return;
        }
        assert list[..i + 1] == list[..i] + [list[i]];
      }
      assert list[..|list|] == list;
    }

    /** What Reset does under the lock. */
    method TakeAll(pair: PairKey) returns (ends: seq<T>)
      modifies this
      ensures ends == Of(old(targets), pair)
      ensures targets == Apply(old(targets), Op.TakeAll(pair))
    {
      ends := if pair in targets then targets[pair] else [];
      targets := targets - {pair};
    }
  }
}
