// The generators of key numbers: the atomic counter, the uniform generator, the scrambled
// Zipfian generator and the skewed-latest generator.

module Generators {
  import opened Words
  import opened Wrappers
  import opened RealFacts
  import Fnv
  import Z = Zipfian

  // core/counter_generator.h; each method is one atomic operation.
  class CounterGenerator {
    var counter: Word

    constructor (start: Word)
      ensures counter == start
    {
      counter := start;
    }

    method Next() returns (r: Word)
      modifies this
      ensures r == old(counter)
      ensures counter == (old(counter) + 1) % TWO_64
    {
      r := counter;
      counter := (counter + 1) % TWO_64;
    }

    function Last(): (r: Word)
      reads this
      ensures r == if counter == 0 then TWO_64 - 1 else counter - 1
    {
      (counter + TWO_64 - 1) % TWO_64
    }

    method Set(start: Word)
      modifies this
      ensures counter == start
    {
      counter := start;
    }
  }

  // The integer std::uniform_int_distribution makes of a draw u in [0, 1).
  function UniformOf(min: Word, max: Word, u: real): (r: Word)
    requires min <= max && 0.0 <= u < 1.0
    ensures min <= r <= max
  {
    FloorBelow(u, max as int - min as int + 1);
    min as int + (u * (max as int - min as int + 1) as real).Floor
  }

  // Every integer of the range has a draw.
  lemma UniformReachesAll(min: Word, max: Word, k: Word) returns (u: real)
    requires min <= k <= max
    ensures 0.0 <= u < 1.0 && UniformOf(min, max, u) == k
  {
    var n := max as int - min as int + 1;
    var i := k - min;
    u := i as real / n as real;
    assert u * n as real == i as real;
    CompareFactors(u, 1.0, n as real, i as real, n as real);
    CompareFactors(0.0, u, n as real, 0.0, i as real);
  }

  // And all have equal shares of the draws.
  lemma UniformShare(min: Word, max: Word, k: Word, u: real)
    requires min <= k <= max && 0.0 <= u < 1.0
    ensures var n := (max - min + 1) as real;
            UniformOf(min, max, u) == k <==> (k - min) as real / n <= u < (k - min + 1) as real / n
  {
    var n := (max as int - min as int + 1) as real;
    var i := (k - min) as real;
    var low, high := i / n, (i + 1.0) / n;
    assert low * n == i && high * n == i + 1.0;
    CompareFactors(u, low, n, u * n, i);
    CompareFactors(low, u, n, i, u * n);
    CompareFactors(u, high, n, u * n, i + 1.0);
    CompareFactors(high, u, n, i + 1.0, u * n);
  }

  // core/uniform_generator.h
  class UniformGenerator {
    const min: Word
    const max: Word
    var lastInt: Word

    constructor (min: Word, max: Word, u: real)
      requires min <= max && 0.0 <= u < 1.0
      ensures this.min == min && this.max == max
      ensures lastInt == UniformOf(min, max, u)
    {
      this.min, this.max := min, max;
      lastInt := UniformOf(min, max, u);
    }

    method Next(u: real) returns (r: Word)
      requires min <= max && 0.0 <= u < 1.0
      modifies this
      ensures r == lastInt == UniformOf(min, max, u)
    {
      lastInt := UniformOf(min, max, u);
      r := lastInt;
    }
  }

  // core/scrambled_zipfian_generator.h
  function Scramble(base: Word, numItems: nat, value: Word): Word
    requires numItems > 0
  {
    Offset(base, numItems, Fnv.Hash(value))
  }

  function Offset(base: Word, numItems: nat, hash: Word): Word
    requires numItems > 0
  {
    (base + hash % numItems) % TWO_64
  }

  lemma OffsetInRange(base: Word, numItems: nat, hash: Word)
    requires numItems > 0 && base + numItems <= TWO_64
    ensures base <= Offset(base, numItems, hash) < base + numItems
  {
  }

  lemma ScrambleInRange(base: Word, numItems: nat, value: Word)
    requires numItems > 0 && base + numItems <= TWO_64
    ensures base <= Scramble(base, numItems, value) < base + numItems
  {
    OffsetInRange(base, numItems, Fnv.Hash(value));
  }

  class ScrambledZipfianGenerator {
    const base: Word
    const numItems: nat
    const generator: Z.ZipfianGenerator

    ghost predicate Valid()
      reads generator
    {
      numItems == generator.numItems && generator.Valid()
    }

    constructor (ar: Z.Arithmetic, min: Word, max: Word, u: real)
      requires 2 <= max as int - min as int + 1 < Z.MAX_NUM_ITEMS
      requires 0.0 <= u < 1.0
      ensures Valid() && fresh(generator) && generator.ar == ar
      ensures base == min && numItems == max - min + 1
      ensures generator.Current() == Z.Initial(ar, min, numItems)
    {
      base, numItems := min, max - min + 1;
      generator := new Z.ZipfianGenerator(ar, min, max, u);
    }

    method Next(u: real) returns (r: Option<Word>)
      requires Valid() && 0.0 <= u < 1.0
      modifies generator
      ensures Valid()
      ensures generator.Current() == Z.Raised(generator.ar, old(generator.Current()), numItems)
      ensures r == ScrambledOf(generator.ar, base, generator.Current(), u)
    {
      var v := generator.Next(numItems, u);
      r := match v case None => None case Some(n) => Some(Scramble(base, numItems, n));
    }
  }

  // The scrambled key of a draw u.
  function ScrambledOf(ar: Z.Arithmetic, base: Word, s: Z.State, u: real): Option<Word>
    requires s.numItems > 0
  {
    match Z.Drawn(ar, s, s.numItems, u)
    case None => None
    case Some(n) => Some(Scramble(base, s.numItems, n))
  }

  // core/skewed_latest_generator.h: the newest key minus a Zipfian rank, in 64 bits.
  function LatestOf(ar: Z.Arithmetic, s: Z.State, max: Word, u: real): Option<Word>
    requires s.numItems > 0
  {
    match Z.Drawn(ar, Z.Raised(ar, s, max), max, u)
    case None => None
    case Some(n) => Some((max - n + TWO_64) % TWO_64)
  }

  class SkewedLatestGenerator {
    const basis: CounterGenerator
    const zipfian: Z.ZipfianGenerator
    var last: Option<Word>

    ghost predicate Valid()
      reads zipfian
    {
      zipfian.base == 0 && zipfian.Valid()
    }

    constructor (ar: Z.Arithmetic, counter: CounterGenerator, u: real, v: real)
      requires 2 <= counter.Last() < Z.MAX_NUM_ITEMS
      requires 0.0 <= u < 1.0 && 0.0 <= v < 1.0
      ensures Valid() && basis == counter && zipfian.ar == ar && fresh(zipfian)
      ensures zipfian.Current() == Z.Initial(ar, 0, counter.Last())
      ensures last == LatestOf(ar, zipfian.Current(), counter.Last(), v)
    {
      basis := counter;
      zipfian := new Z.ZipfianGenerator(ar, 0, counter.Last() - 1, u);
      last := None;
      new;
      var _ := Next(v);
    }

    method Next(u: real) returns (r: Option<Word>)
      requires Valid() && 0.0 <= u < 1.0
      requires 2 <= basis.Last() < Z.MAX_NUM_ITEMS
      modifies this, zipfian
      ensures Valid()
      ensures zipfian.Current() == Z.Raised(zipfian.ar, old(zipfian.Current()), basis.Last())
      ensures r == last == LatestOf(zipfian.ar, old(zipfian.Current()), basis.Last(), u)
    {
      var max := basis.Last();
      var n := zipfian.Next(max, u);
      last := match n case None => None case Some(k) => Some((max - k + TWO_64) % TWO_64);
      r := last;
    }
  }

  // The key drawn never exceeds the newest one, so the subtraction does not underflow; it
  // is 0 exactly when a generator created with two items has grown and draws from the
  // third branch.
  lemma LatestInRange(ar: Z.Arithmetic, s: Z.State, max: Word, u: real)
    requires Z.Exact(ar) && Z.Coherent(ar, s) && s.base == 0
    requires 2 <= max < Z.MAX_NUM_ITEMS && 0.0 <= u < 1.0
    ensures Z.Drawn(ar, Z.Raised(ar, s, max), max, u).Some?
    ensures Z.Drawn(ar, Z.Raised(ar, s, max), max, u).value <= max
    ensures LatestOf(ar, s, max, u) == Some(max - Z.Drawn(ar, Z.Raised(ar, s, max), max, u).value)
    ensures LatestOf(ar, s, max, u).value == 0 <==> s.numItems == 2 && Z.InTail(ar, Z.Raised(ar, s, max), u)
  {
    hide Z.Exact, Z.Drawn, Z.InTail;
    Z.RaisedIsCoherent(ar, s, max);
    Z.RankInRange(ar, Z.Raised(ar, s, max), max, u);
  }

  // The keys of a series of draws, each with the newest key at its time.
  function LatestRun(ar: Z.Arithmetic, s: Z.State, draws: seq<(Word, real)>): (r: seq<Option<Word>>)
    requires s.numItems > 0
    ensures |r| == |draws|
    decreases |draws|
  {
    if draws == [] then []
    else
      [LatestOf(ar, s, draws[0].0, draws[0].1)]
      + LatestRun(ar, Z.Raised(ar, s, draws[0].0), draws[1..])
  }

  predicate DrawsAllowed(draws: seq<(Word, real)>) {
    forall i | 0 <= i < |draws| :: 2 <= draws[i].0 < Z.MAX_NUM_ITEMS && 0.0 <= draws[i].1 < 1.0
  }

  // Created with three items or more, the generator stays in [1, newest key] over any
  // history of the counter: it never underflows and never draws key 0.
  lemma {:induction false} LatestHistory(ar: Z.Arithmetic, s: Z.State, draws: seq<(Word, real)>, i: nat)
    requires Z.Exact(ar) && Z.Coherent(ar, s) && s.base == 0 && s.numItems >= 3
    requires DrawsAllowed(draws) && i < |draws|
    ensures LatestRun(ar, s, draws)[i].Some?
    ensures 1 <= LatestRun(ar, s, draws)[i].value <= draws[i].0
    decreases |draws|
  {
    var max := draws[0].0;
    LatestInRange(ar, s, max, draws[0].1);
    if i > 0 {
      Z.RaisedIsCoherent(ar, s, max);
      LatestHistory(ar, Z.Raised(ar, s, max), draws[1..], i - 1);
    }
  }

  // With two items the same holds as long as the counter has not moved.
  lemma LatestOfTwo(ar: Z.Arithmetic, s: Z.State, u: real)
    requires Z.Exact(ar) && Z.Coherent(ar, s) && s.base == 0 && s.nForZeta == 2
    requires 0.0 <= u < 1.0
    ensures LatestOf(ar, s, 2, u).Some? && 1 <= LatestOf(ar, s, 2, u).value <= 2
  {
    Z.TwoItems(ar, s, 2, u);
  }
}
