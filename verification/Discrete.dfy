// The weighted chooser (core/discrete_generator.h) and the operation mix that
// CoreWorkload::Init loads into it (core/core_workload.cc).

module Discrete {
  import opened Wrappers
  import opened RealFacts

  // The sum of the first i weights.
  function Prefix<V>(values: seq<(V, real)>, i: nat): real
    requires i <= |values|
  {
    if i == 0 then 0.0 else Prefix(values, i - 1) + values[i - 1].1
  }

  function Total<V>(values: seq<(V, real)>): real {
    Prefix(values, |values|)
  }

  predicate Positive<V>(values: seq<(V, real)>) {
    forall i | 0 <= i < |values| :: values[i].1 > 0.0
  }

  // The index the loop of Next stops at, entering entry i with the given chooser.
  function Pick<V>(values: seq<(V, real)>, sum: real, i: nat, chooser: real): (r: Option<nat>)
    requires i <= |values| && sum != 0.0
    ensures r.Some? ==> i <= r.value < |values|
    decreases |values| - i
  {
    if i == |values| then None
    else if chooser < values[i].1 / sum then Some(i)
    else Pick(values, sum, i + 1, chooser - values[i].1 / sum)
  }

  // What Next returns for a draw u; None is the failing assertion after the loop.
  function Choice<V>(values: seq<(V, real)>, u: real): Option<V>
    requires values == [] || Total(values) != 0.0
  {
    if values == [] then None
    else
      match Pick(values, Total(values), 0, u)
      case None => None
      case Some(i) => Some(values[i].0)
  }

  class DiscreteGenerator<V> {
    var values: seq<(V, real)>
    var sum: real
    var last: Option<V>

    ghost predicate Valid()
      reads this
    {
      sum == Total(values)
    }

    constructor ()
      ensures Valid() && values == [] && last == None
    {
      values, sum, last := [], 0.0, None;
    }

    method AddValue(value: V, weight: real)
      requires Valid()
      modifies this
      ensures Valid() && values == old(values) + [(value, weight)]
      ensures last == (if old(values) == [] then Some(value) else old(last))
    {
      if values == [] {
        last := Some(value);
      }
      PrefixOfAppend(values, (value, weight), |values|);
      values := values + [(value, weight)];
      sum := sum + weight;
    }

    method Next(u: real) returns (r: Option<V>)
      requires Valid() && 0.0 <= u < 1.0
      requires values == [] || Total(values) != 0.0
      modifies this`last
      ensures Valid()
      ensures r == Choice(values, u)
      ensures last == (if r.Some? then r else old(last))
    {
      var chooser := u;
      for i := 0 to |values|
        invariant values == old(values) && sum == old(sum) && last == old(last)
        invariant values != [] ==> Pick(values, sum, 0, u) == Pick(values, sum, i, chooser)
      {
        if chooser < values[i].1 / sum {
          r := Some(values[i].0);
          last := r;
          return;
        }
        chooser := chooser - values[i].1 / sum;
      }
      r := None;
    }
  }

  lemma {:induction false} PrefixOfAppend<V>(values: seq<(V, real)>, entry: (V, real), i: nat)
    requires i <= |values|
    ensures Prefix(values + [entry], i) == Prefix(values, i)
    ensures i == |values| ==> Total(values + [entry]) == Total(values) + entry.1
  {
    if i > 0 {
      PrefixOfAppend(values, entry, i - 1);
    }
  }

  lemma {:induction false} PrefixGrows<V>(values: seq<(V, real)>, i: nat, j: nat)
    requires Positive(values) && i <= j <= |values|
    ensures Prefix(values, i) <= Prefix(values, j)
    ensures i < j ==> Prefix(values, i) < Prefix(values, j)
  {
    if i < j {
      PrefixGrows(values, i, j - 1);
    }
  }

  lemma TotalIsPositive<V>(values: seq<(V, real)>)
    requires Positive(values) && values != []
    ensures Total(values) > 0.0
  {
    PrefixGrows(values, 0, |values|);
  }

  // The share of the draws below entry i.
  function Share<V>(values: seq<(V, real)>, i: nat): real
    requires i <= |values| && Total(values) != 0.0
  {
    Prefix(values, i) / Total(values)
  }

  lemma ShareStep<V>(values: seq<(V, real)>, i: nat)
    requires i < |values| && Total(values) != 0.0
    ensures Share(values, i + 1) == Share(values, i) + values[i].1 / Total(values)
  {
    DivideSum(Prefix(values, i), values[i].1, Total(values));
  }

  lemma ShareGrows<V>(values: seq<(V, real)>, i: nat, j: nat)
    requires Positive(values) && values != [] && i <= j <= |values|
    ensures Total(values) > 0.0 && Share(values, i) <= Share(values, j)
  {
    TotalIsPositive(values);
    PrefixGrows(values, i, j);
    DivideMonotone(Prefix(values, i), Prefix(values, j), Total(values));
  }

  lemma LastShare<V>(values: seq<(V, real)>)
    requires Total(values) > 0.0
    ensures Share(values, |values|) == 1.0
  {
  }

  // From entry i on, the loop stops at the first entry whose upper share exceeds u.
  lemma {:induction false} PickFrom<V>(values: seq<(V, real)>, i: nat, u: real)
    requires Positive(values) && values != [] && i <= |values| && Total(values) > 0.0
    requires Share(values, i) <= u < 1.0
    ensures var p := Pick(values, Total(values), i, u - Share(values, i));
            p.Some? && i <= p.value < |values| && Share(values, p.value) <= u < Share(values, p.value + 1)
    decreases |values| - i
  {
    LastShare(values);
    if i < |values| {
      ShareStep(values, i);
      if u - Share(values, i) >= values[i].1 / Total(values) {
        PickFrom(values, i + 1, u);
        assert u - Share(values, i) - values[i].1 / Total(values) == u - Share(values, i + 1);
      }
    }
  }

  // Next is the inverse of the cumulative distribution: it stops at entry i exactly when
  // the draw lies in the i-th share, and it always stops.
  lemma PickInvertsShares<V>(values: seq<(V, real)>, u: real, i: nat)
    requires Positive(values) && values != [] && 0.0 <= u < 1.0 && i < |values|
    ensures Total(values) > 0.0 && Pick(values, Total(values), 0, u).Some?
    ensures Pick(values, Total(values), 0, u) == Some(i) <==> Share(values, i) <= u < Share(values, i + 1)
  {
    TotalIsPositive(values);
    PickFrom(values, 0, u);
    assert u - Share(values, 0) == u;
    var p := Pick(values, Total(values), 0, u).value;
    if p < i {
      ShareGrows(values, p + 1, i);
    } else if i < p {
      ShareGrows(values, i + 1, p);
    }
  }

  lemma PickFromStart<V>(values: seq<(V, real)>, u: real)
    requires Positive(values) && values != [] && 0.0 <= u < 1.0
    ensures Total(values) > 0.0 && Pick(values, Total(values), 0, u).Some?
    ensures Pick(values, Total(values), 0, u).value < |values|
  {
    TotalIsPositive(values);
    PickFrom(values, 0, u);
    assert u - Share(values, 0) == u;
  }

  // ---- The operation mix -----------------------------------------------------------

  datatype Operation = INSERT | READ | UPDATE | DELETE | SCAN | READMODIFYWRITE

  // Proportions of the operations.
  type Mix = Operation -> real

  // The order in which Init considers the operations.
  const ORDER := [READ, UPDATE, DELETE, INSERT, SCAN, READMODIFYWRITE]

  // The entries Init adds for the operations of a list.
  function Entries(mix: Mix, ops: seq<Operation>): seq<(Operation, real)> {
    if ops == [] then [] else Entry(mix, ops[0]) + Entries(mix, ops[1..])
  }

  function Entry(mix: Mix, op: Operation): seq<(Operation, real)> {
    if mix(op) > 0.0 then [(op, mix(op))] else []
  }

  predicate DistinctOps(ops: seq<Operation>) {
    forall i, j | 0 <= i < j < |ops| :: ops[i] != ops[j]
  }

  // The table holds exactly the operations of the list with a positive proportion, each
  // once and with its own proportion.
  lemma {:induction false} EntriesAre(mix: Mix, ops: seq<Operation>)
    requires DistinctOps(ops)
    ensures Positive(Entries(mix, ops))
    ensures forall i | 0 <= i < |Entries(mix, ops)| ::
              Entries(mix, ops)[i].0 in ops && Entries(mix, ops)[i].1 == mix(Entries(mix, ops)[i].0)
    ensures forall i, j | 0 <= i < j < |Entries(mix, ops)| :: Entries(mix, ops)[i].0 != Entries(mix, ops)[j].0
    ensures forall op | op in ops && mix(op) > 0.0 :: (op, mix(op)) in Entries(mix, ops)
  {
    if ops != [] {
      var rest := Entries(mix, ops[1..]);
      EntriesAre(mix, ops[1..]);
      assert forall i | 0 <= i < |rest| :: rest[i].0 != ops[0];
      assert forall op | op in ops :: op == ops[0] || op in ops[1..];
    }
  }

  // A list of all the operations, each once.
  predicate Complete(ops: seq<Operation>) {
    DistinctOps(ops) && forall op: Operation :: op in ops
  }

  lemma OrderIsComplete()
    ensures Complete(ORDER)
  {
    forall op: Operation
      ensures op in ORDER
    {
      match op
      case READ => assert ORDER[0] == op;
      case UPDATE => assert ORDER[1] == op;
      case DELETE => assert ORDER[2] == op;
      case INSERT => assert ORDER[3] == op;
      case SCAN => assert ORDER[4] == op;
      case READMODIFYWRITE => assert ORDER[5] == op;
    }
  }

  method AddIfPositive(chooser: DiscreteGenerator<Operation>, op: Operation, proportion: real)
    requires chooser.Valid()
    modifies chooser
    ensures chooser.Valid()
    ensures chooser.values == old(chooser.values) + (if proportion > 0.0 then [(op, proportion)] else [])
  {
    if proportion > 0.0 {
      chooser.AddValue(op, proportion);
    }
  }

  method InitChooser(mix: Mix) returns (chooser: DiscreteGenerator<Operation>)
    ensures fresh(chooser) && chooser.Valid() && Positive(chooser.values)
    ensures chooser.values == Entries(mix, ORDER)
  {
    chooser := new DiscreteGenerator();
    AddIfPositive(chooser, READ, mix(READ));
    AddIfPositive(chooser, UPDATE, mix(UPDATE));
    AddIfPositive(chooser, DELETE, mix(DELETE));
    AddIfPositive(chooser, INSERT, mix(INSERT));
    AddIfPositive(chooser, SCAN, mix(SCAN));
    AddIfPositive(chooser, READMODIFYWRITE, mix(READMODIFYWRITE));
    EntriesInOrder(mix);
    OrderIsComplete();
    EntriesAre(mix, ORDER);
  }

  lemma EntriesInOrder(mix: Mix)
    ensures Entries(mix, ORDER)
            == [] + Entry(mix, READ) + Entry(mix, UPDATE) + Entry(mix, DELETE)
               + Entry(mix, INSERT) + Entry(mix, SCAN) + Entry(mix, READMODIFYWRITE)
  {
    assert ORDER == [READ, UPDATE] + [DELETE, INSERT, SCAN, READMODIFYWRITE];
    assert [DELETE, INSERT, SCAN, READMODIFYWRITE] == [DELETE, INSERT] + [SCAN, READMODIFYWRITE];
    assert [SCAN, READMODIFYWRITE] == [SCAN, READMODIFYWRITE] + [];
    EntriesOfPair(mix, READ, UPDATE, [DELETE, INSERT, SCAN, READMODIFYWRITE]);
    EntriesOfPair(mix, DELETE, INSERT, [SCAN, READMODIFYWRITE]);
    EntriesOfPair(mix, SCAN, READMODIFYWRITE, []);
  }

  lemma EntriesOfPair(mix: Mix, a: Operation, b: Operation, rest: seq<Operation>)
    ensures Entries(mix, [a, b] + rest) == Entry(mix, a) + Entry(mix, b) + Entries(mix, rest)
  {
    assert ([a, b] + rest)[1..] == [b] + rest;
    assert ([b] + rest)[1..] == rest;
    assert Entries(mix, [b] + rest) == Entry(mix, b) + Entries(mix, rest);
  }

  // The chosen operation has a positive proportion, and there is one unless no operation
  // has any: the assertion after the loop fails exactly for a mix without weight.
  lemma ChosenOperation(mix: Mix, ops: seq<Operation>, u: real)
    requires Complete(ops) && 0.0 <= u < 1.0
    ensures Entries(mix, ops) == [] || Total(Entries(mix, ops)) != 0.0
    ensures Choice(Entries(mix, ops), u).None? <==> forall op :: mix(op) <= 0.0
    ensures Choice(Entries(mix, ops), u).Some? ==> mix(Choice(Entries(mix, ops), u).value) > 0.0
  {
    var t := Entries(mix, ops);
    EntriesAre(mix, ops);
    if t == [] {
      assert forall op | op in ops :: mix(op) <= 0.0;
    } else {
      assert mix(t[0].0) > 0.0;
      PickFromStart(t, u);
      assert Choice(t, u) == Some(t[Pick(t, Total(t), 0, u).value].0);
    }
  }

  // An operation is chosen exactly on its own share of the draws, which is as long as its
  // proportion of the total.
  lemma OperationShare(mix: Mix, ops: seq<Operation>, u: real, i: nat)
    requires Complete(ops) && 0.0 <= u < 1.0 && i < |Entries(mix, ops)|
    ensures Total(Entries(mix, ops)) > 0.0
    ensures Choice(Entries(mix, ops), u) == Some(Entries(mix, ops)[i].0)
            <==> Share(Entries(mix, ops), i) <= u < Share(Entries(mix, ops), i + 1)
    ensures Share(Entries(mix, ops), i + 1) - Share(Entries(mix, ops), i)
            == mix(Entries(mix, ops)[i].0) / Total(Entries(mix, ops))
  {
    var t := Entries(mix, ops);
    EntriesAre(mix, ops);
    PickInvertsShares(t, u, i);
    PickFromStart(t, u);
    ShareStep(t, i);
  }

  // The weight of an operation in the table.
  function Part(mix: Mix, op: Operation): real {
    if mix(op) > 0.0 then mix(op) else 0.0
  }

  // The operation at x in a row of the operations' weights.
  function Walk(mix: Mix, ops: seq<Operation>, x: real): Option<Operation> {
    if ops == [] then None
    else if x < Part(mix, ops[0]) then Some(ops[0])
    else Walk(mix, ops[1..], x - Part(mix, ops[0]))
  }

  function Parts(mix: Mix, ops: seq<Operation>): real {
    if ops == [] then 0.0 else Part(mix, ops[0]) + Parts(mix, ops[1..])
  }

  // The loop of Next over the entries of operations walks that row.
  lemma {:induction false} PickWalks(mix: Mix, ops: seq<Operation>, values: seq<(Operation, real)>, k: nat,
                                     c: real, x: real)
    requires k <= |values| && values[k..] == Entries(mix, ops) && Total(values) > 0.0
    requires c >= 0.0 && x == c * Total(values)
    ensures Walk(mix, ops, x)
            == match Pick(values, Total(values), k, c) case None => None case Some(i) => Some(values[i].0)
    decreases |ops|
  {
    hide Total;
    if ops != [] {
      var rest := Entries(mix, ops[1..]);
      var t, p := Total(values), Part(mix, ops[0]);
      FirstShare(c, p, t);
      if mix(ops[0]) > 0.0 {
        assert values[k..] == [(ops[0], p)] + rest;
        assert values[k] == values[k..][0] == (ops[0], p);
        assert values[k + 1..] == values[k..][1..] == rest;
        if x >= p {
          PickWalks(mix, ops[1..], values, k + 1, c - p / t, x - p);
        }
      } else {
        assert values[k..] == rest;
        PickWalks(mix, ops[1..], values, k, c, x);
      }
    }
  }

  lemma FirstShare(c: real, p: real, t: real)
    requires t > 0.0 && c >= 0.0 && p >= 0.0
    ensures c < p / t <==> c * t < p
    ensures (c - p / t) * t == c * t - p
    ensures c * t >= 0.0
  {
    var d := p / t;
    assert d * t == p;
    CompareFactors(c, d, t, c * t, p);
    CompareFactors(d, c, t, p, c * t);
  }

  lemma {:induction false} TotalOfEntries(mix: Mix, ops: seq<Operation>)
    ensures Total(Entries(mix, ops)) == Parts(mix, ops)
  {
    if ops != [] {
      TotalOfEntries(mix, ops[1..]);
      if mix(ops[0]) > 0.0 {
        TotalOfFirst((ops[0], mix(ops[0])), Entries(mix, ops[1..]));
      } else {
        assert Entries(mix, ops) == Entries(mix, ops[1..]);
      }
    }
  }

  lemma TotalOfFirst<V>(entry: (V, real), values: seq<(V, real)>)
    ensures Total([entry] + values) == entry.1 + Total(values)
  {
    PrefixOfRest(entry, values, |values|);
  }

  lemma {:induction false} PrefixOfRest<V>(entry: (V, real), values: seq<(V, real)>, i: nat)
    requires i <= |values|
    ensures Prefix([entry] + values, i + 1) == entry.1 + Prefix(values, i)
  {
    if i > 0 {
      PrefixOfRest(entry, values, i - 1);
      assert ([entry] + values)[i] == values[i - 1];
    } else {
      assert Prefix([entry] + values, 0) == 0.0;
    }
  }

  lemma {:induction false} WalkEnds(mix: Mix, ops: seq<Operation>, x: real)
    requires 0.0 <= x < Parts(mix, ops)
    ensures Walk(mix, ops, x).Some?
  {
    if ops != [] && x >= Part(mix, ops[0]) {
      WalkEnds(mix, ops[1..], x - Part(mix, ops[0]));
    }
  }

  // The operation of every draw: the draws fall to reads, updates, deletes, inserts, scans and
  // read-modify-writes in this order, to each in proportion.
  lemma OperationOfDraw(mix: Mix, u: real)
    requires 0.0 <= u < 1.0 && exists op :: mix(op) > 0.0
    ensures var toRead := Part(mix, READ);
            var toUpdate := toRead + Part(mix, UPDATE);
            var toDelete := toUpdate + Part(mix, DELETE);
            var toInsert := toDelete + Part(mix, INSERT);
            var toScan := toInsert + Part(mix, SCAN);
            var all := toScan + Part(mix, READMODIFYWRITE);
            var t := Entries(mix, ORDER);
            && t != [] && Total(t) == all > 0.0
            && Choice(t, u) == Some(if u * all < toRead then READ
                                    else if u * all < toUpdate then UPDATE
                                    else if u * all < toDelete then DELETE
                                    else if u * all < toInsert then INSERT
                                    else if u * all < toScan then SCAN
                                    else READMODIFYWRITE)
  {
    hide Pick, Entries, Total, Walk, Parts, Part;
    var x := WalkOfDraw(mix, u);
    PartsInOrder(mix);
    WalkInOrder(mix, x);
  }

  lemma WalkOfDraw(mix: Mix, u: real) returns (x: real)
    requires 0.0 <= u < 1.0 && exists op :: mix(op) > 0.0
    ensures var t := Entries(mix, ORDER);
            && t != [] && Total(t) == Parts(mix, ORDER) > 0.0 && x == u * Total(t)
            && Choice(t, u) == Walk(mix, ORDER, x) && Walk(mix, ORDER, x).Some?
  {
    hide Pick, Choice, Entries, Total, Walk, Parts, Part, Positive, Complete;
    var t := Entries(mix, ORDER);
    SomeEntry(mix);
    TotalIsPositive(t);
    TotalOfEntries(mix, ORDER);
    assert t[0..] == t;
    x := u * Total(t);
    BelowAll(u, Total(t), x);
    PickWalks(mix, ORDER, t, 0, u, x);
    PickFromStart(t, u);
    ChoiceIsPick(t, u);
    WalkEnds(mix, ORDER, x);
  }

  lemma SomeEntry(mix: Mix)
    requires exists op :: mix(op) > 0.0
    ensures Entries(mix, ORDER) != [] && Positive(Entries(mix, ORDER))
  {
    hide Entries;
    OrderIsComplete();
    EntriesAre(mix, ORDER);
    var op :| mix(op) > 0.0;
    assert (op, mix(op)) in Entries(mix, ORDER);
  }

  lemma ChoiceIsPick<V>(values: seq<(V, real)>, u: real)
    requires values != [] && Total(values) != 0.0
    ensures Choice(values, u)
            == match Pick(values, Total(values), 0, u) case None => None case Some(i) => Some(values[i].0)
  {
  }

  lemma BelowAll(u: real, all: real, x: real)
    requires 0.0 <= u < 1.0 && all > 0.0 && x == u * all
    ensures 0.0 <= x < all
  {
    assert (1.0 - u) * all > 0.0;
  }

  lemma PartsInOrder(mix: Mix)
    ensures Parts(mix, ORDER)
            == Part(mix, READ) + Part(mix, UPDATE) + Part(mix, DELETE)
               + Part(mix, INSERT) + Part(mix, SCAN) + Part(mix, READMODIFYWRITE)
  {
    hide Part;
    assert ORDER[1..][1..] == [DELETE, INSERT, SCAN, READMODIFYWRITE];
    assert ORDER[1..][1..][1..][1..] == [SCAN, READMODIFYWRITE];
    assert ORDER[1..][1..][1..][1..][1..][1..] == [];
  }

  lemma WalkPast(mix: Mix, op: Operation, rest: seq<Operation>, x: real)
    ensures Walk(mix, [op] + rest, x)
            == if x < Part(mix, op) then Some(op) else Walk(mix, rest, x - Part(mix, op))
  {
    assert ([op] + rest)[1..] == rest;
  }

  lemma WalkInOrder(mix: Mix, x: real)
    requires Walk(mix, ORDER, x).Some?
    ensures var toRead := Part(mix, READ);
            var toUpdate := toRead + Part(mix, UPDATE);
            var toDelete := toUpdate + Part(mix, DELETE);
            var toInsert := toDelete + Part(mix, INSERT);
            var toScan := toInsert + Part(mix, SCAN);
            Walk(mix, ORDER, x) == Some(if x < toRead then READ
                                        else if x < toUpdate then UPDATE
                                        else if x < toDelete then DELETE
                                        else if x < toInsert then INSERT
                                        else if x < toScan then SCAN
                                        else READMODIFYWRITE)
  {
    hide Part, Walk;
    var x1 := x - Part(mix, READ);
    var x2 := x1 - Part(mix, UPDATE);
    var x3 := x2 - Part(mix, DELETE);
    var x4 := x3 - Part(mix, INSERT);
    var x5 := x4 - Part(mix, SCAN);
    assert ORDER == [READ] + [UPDATE, DELETE, INSERT, SCAN, READMODIFYWRITE];
    assert [UPDATE, DELETE, INSERT, SCAN, READMODIFYWRITE] == [UPDATE] + [DELETE, INSERT, SCAN, READMODIFYWRITE];
    assert [DELETE, INSERT, SCAN, READMODIFYWRITE] == [DELETE] + [INSERT, SCAN, READMODIFYWRITE];
    assert [INSERT, SCAN, READMODIFYWRITE] == [INSERT] + [SCAN, READMODIFYWRITE];
    assert [SCAN, READMODIFYWRITE] == [SCAN] + [READMODIFYWRITE];
    assert [READMODIFYWRITE] == [READMODIFYWRITE] + [];
    WalkPast(mix, READ, [UPDATE, DELETE, INSERT, SCAN, READMODIFYWRITE], x);
    WalkPast(mix, UPDATE, [DELETE, INSERT, SCAN, READMODIFYWRITE], x1);
    WalkPast(mix, DELETE, [INSERT, SCAN, READMODIFYWRITE], x2);
    WalkPast(mix, INSERT, [SCAN, READMODIFYWRITE], x3);
    WalkPast(mix, SCAN, [READMODIFYWRITE], x4);
    WalkPast(mix, READMODIFYWRITE, [], x5);
    WalkNowhere(mix, x5 - Part(mix, READMODIFYWRITE));
  }

  lemma WalkNowhere(mix: Mix, x: real)
    ensures Walk(mix, [], x) == None
  {
  }
}
