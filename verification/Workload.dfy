// CoreWorkload: where the keys of the operations come from (core/core_workload.h,
// core/core_workload.cc).

module Workload {
  import opened Words
  import opened Wrappers
  import opened KeyName
  import opened Generators
  import opened Discrete
  import Fnv
  import Z = Zipfian

  // The generator behind key_chooser_.
  datatype KeyChooser =
    | Uniform(uniform: UniformGenerator)
    | Scrambled(scrambled: ScrambledZipfianGenerator)
    | Latest(latest: SkewedLatestGenerator)

  // The state of a key chooser, as a value.
  datatype View =
    | UniformView(min: Word, max: Word)
    | ScrambledView(ar: Z.Arithmetic, base: Word, s: Z.State)
    | LatestView(ar: Z.Arithmetic, s: Z.State)

  predicate Drawable(v: View, newest: Word) {
    match v
    case UniformView(min, max) => min <= max
    case ScrambledView(ar, base, s) => Z.Coherent(ar, s)
    case LatestView(ar, s) => Z.Coherent(ar, s) && s.base == 0 && 2 <= newest < Z.MAX_NUM_ITEMS
  }

  predicate Unit(u: real) {
    0.0 <= u < 1.0
  }

  // The key number a draw u yields; newest is the last number of the insert sequence.
  function DrawKey(v: View, newest: Word, u: real): Option<Word>
    requires Drawable(v, newest) && 0.0 <= u < 1.0
  {
    match v
    case UniformView(min, max) => Some(UniformOf(min, max, u))
    case ScrambledView(ar, base, s) => ScrambledOf(ar, base, Z.Raised(ar, s, s.numItems), u)
    case LatestView(ar, s) => LatestOf(ar, s, newest, u)
  }

  function Advance(v: View, newest: Word): View
    requires Drawable(v, newest)
  {
    match v
    case UniformView(_, _) => v
    case ScrambledView(ar, base, s) => ScrambledView(ar, base, Z.Raised(ar, s, s.numItems))
    case LatestView(ar, s) => LatestView(ar, Z.Raised(ar, s, newest))
  }

  predicate DrawsOk(us: seq<real>) {
    forall i | 0 <= i < |us| :: Unit(us[i])
  }

  function Footprint(c: KeyChooser): set<object> {
    match c
    case Uniform(g) => {g}
    case Scrambled(g) => {g, g.generator}
    case Latest(g) => {g, g.zipfian}
  }

  function ViewOf(c: KeyChooser): View
    reads Footprint(c)
  {
    match c
    case Uniform(g) => UniformView(g.min, g.max)
    case Scrambled(g) => ScrambledView(g.generator.ar, g.base, g.generator.Current())
    case Latest(g) => LatestView(g.zipfian.ar, g.zipfian.Current())
  }

  // One call of key_chooser_->Next(); newest is what a Latest chooser reads from its basis.
  method NextOf(c: KeyChooser, ghost newest: Word, u: real) returns (r: Option<Word>)
    requires c.Scrambled? ==> c.scrambled.numItems == c.scrambled.generator.numItems
    requires c.Latest? ==> newest == c.latest.basis.Last()
    requires Drawable(ViewOf(c), newest) && 0.0 <= u < 1.0
    modifies Footprint(c)
    ensures r == DrawKey(old(ViewOf(c)), newest, u)
    ensures ViewOf(c) == Advance(old(ViewOf(c)), newest)
  {
    match c
    case Uniform(g) =>
      var k := g.Next(u);
      r := Some(k);
    case Scrambled(g) =>
      r := g.Next(u);
    case Latest(g) =>
      r := g.Next(u);
  }

  predicate Wired(c: KeyChooser, sequence: CounterGenerator) {
    && (c.Scrambled? ==> c.scrambled.numItems == c.scrambled.generator.numItems)
    && (c.Latest? ==> c.latest.basis == sequence)
    && (sequence as object) !in Footprint(c)
  }

  // ---- The request distributions ---------------------------------------------------

  // The last number of the insert sequence, which Init sets to the record count. Without
  // records it is the greatest 64-bit number.
  function Newest(recordCount: Word): Word {
    (recordCount + TWO_64 - 1) % TWO_64
  }

  // The conversion of a double to int.
  function Truncate(x: real): int {
    if x >= 0.0 then x.Floor else -((-x).Floor)
  }

  // The spare keys of the Zipfian distribution: twice the inserts to expect.
  function NewKeys(operationCount: int, insertProportion: real): int {
    Truncate(operationCount as real * insertProportion * 2.0)
  }

  // The items of the Zipfian chooser, in 64 bits.
  function Items(recordCount: Word, newKeys: int): Word {
    (recordCount + newKeys) % TWO_64
  }

  // How Init sets up the key chooser for recordCount records and newKeys spare keys.
  predicate SetUp(v: View, recordCount: Word, newKeys: int) {
    match v
    case UniformView(min, max) => min == 0 && max == Newest(recordCount)
    case ScrambledView(ar, base, s) =>
      base == 0 && s.base == 0 && Z.Coherent(ar, s)
      && s.numItems == Items(recordCount, newKeys) == s.nForZeta
    case LatestView(ar, s) =>
      s.base == 0 && Z.Coherent(ar, s) && s.numItems == Newest(recordCount) == s.nForZeta
  }

  ghost predicate ExactView(v: View) {
    match v
    case UniformView(_, _) => true
    case ScrambledView(ar, _, _) => Z.Exact(ar)
    case LatestView(ar, _) => Z.Exact(ar)
  }

  // A rank whose hash is key number k among n.
  predicate RankOf(n: nat, k: Word, r: Word)
    requires n > 0
  {
    r < n && Fnv.Hash(r) % n == k
  }

  // The key numbers a chooser set up for the records can draw: for the Zipfian one, the
  // hashes of its ranks.
  ghost predicate Requestable(v: View, newest: Word, k: Word)
    requires Drawable(v, newest)
  {
    match v
    case UniformView(min, max) => min <= k <= max
    case ScrambledView(_, _, s) => exists r: Word :: RankOf(s.numItems, k, r)
    case LatestView(_, _) => 1 <= k <= newest
  }

  // Every draw yields a requestable number and leaves the chooser as it is.
  lemma DrawnKeyRange(v: View, recordCount: Word, newKeys: int, u: real)
    requires SetUp(v, recordCount, newKeys) && ExactView(v)
    requires 0.0 <= u < 1.0
    ensures Drawable(v, Newest(recordCount))
    ensures Advance(v, Newest(recordCount)) == v
    ensures DrawKey(v, Newest(recordCount), u).Some?
    ensures Requestable(v, Newest(recordCount), DrawKey(v, Newest(recordCount), u).value)
  {
    match v
    case UniformView(_, _) =>
    case ScrambledView(ar, base, s) =>
      var r := ScrambledDraw(ar, s, u);
    case LatestView(ar, s) =>
      if s.numItems >= 3 {
        LatestInRange(ar, s, Newest(recordCount), u);
      } else {
        LatestOfTwo(ar, s, u);
      }
  }

  lemma ScrambledDraw(ar: Z.Arithmetic, s: Z.State, u: real) returns (r: Word)
    requires Z.Exact(ar) && Z.Coherent(ar, s) && s.base == 0 && s.nForZeta == s.numItems
    requires 0.0 <= u < 1.0
    ensures Z.Drawn(ar, s, s.numItems, u) == Some(r) && r < s.numItems
    ensures ScrambledOf(ar, 0, s, u) == Some(Fnv.Hash(r) % s.numItems)
    ensures RankOf(s.numItems, Fnv.Hash(r) % s.numItems, r)
  {
    hide Fnv.Hash;
    if s.numItems == 2 {
      Z.TwoItems(ar, s, 2, u);
    } else {
      Z.Bands(ar, s, s.numItems, u);
    }
    r := Z.Drawn(ar, s, s.numItems, u).value;
  }

  lemma HashIsDrawn(ar: Z.Arithmetic, s: Z.State, k: Word, r: Word) returns (u: real)
    requires Z.Exact(ar) && Z.Coherent(ar, s) && s.base == 0 && s.nForZeta == s.numItems && RankOf(s.numItems, k, r)
    ensures Unit(u) && ScrambledOf(ar, 0, Z.Raised(ar, s, s.numItems), u) == Some(k)
  {
    hide Fnv.Hash, Z.Drawn, Z.Coherent, Z.Exact;
    Raise(ar, s);
    u := Z.EveryItemIsDrawn(ar, s, r);
  }

  lemma LatestIsDrawn(ar: Z.Arithmetic, s: Z.State, newest: Word, k: Word) returns (u: real)
    requires Z.Exact(ar) && Z.Coherent(ar, s) && s.base == 0 && s.nForZeta == s.numItems == newest
    requires 1 <= k <= newest
    ensures Unit(u) && LatestOf(ar, s, newest, u) == Some(k)
  {
    hide Z.Drawn, Z.Coherent, Z.Exact;
    Raise(ar, s);
    u := Z.EveryItemIsDrawn(ar, s, newest - k);
  }

  lemma Raise(ar: Z.Arithmetic, s: Z.State)
    requires Z.Coherent(ar, s) && s.nForZeta == s.numItems
    ensures s.numItems > 0 && Z.Raised(ar, s, s.numItems) == s
  {
  }

  // Every requestable number is drawn.
  lemma RequestableIsDrawn(v: View, recordCount: Word, newKeys: int, k: Word) returns (u: real)
    requires SetUp(v, recordCount, newKeys) && ExactView(v)
    requires Drawable(v, Newest(recordCount)) && Requestable(v, Newest(recordCount), k)
    ensures Unit(u) && DrawKey(v, Newest(recordCount), u) == Some(k)
  {
    hide Fnv.Hash, Z.Exact, Z.Raised, ScrambledOf, LatestOf, RankOf;
    match v
    case UniformView(min, max) =>
      u := UniformReachesAll(min, max, k);
    case ScrambledView(ar, base, s) =>
      var r: Word :| RankOf(s.numItems, k, r);
      u := HashIsDrawn(ar, s, k, r);
    case LatestView(ar, s) =>
      u := LatestIsDrawn(ar, s, Newest(recordCount), k);
  }

  // What the distributions draw: all numbers up to newest for uniform, all but 0 of them for
  // latest, and for Zipfian exactly the hashes of the ranks. A record whose number is not
  // among them is never requested.
  lemma DrawnKeys(v: View, recordCount: Word, newKeys: int, k: Word)
    requires SetUp(v, recordCount, newKeys) && ExactView(v)
    ensures Drawable(v, Newest(recordCount))
    ensures (exists u: real :: Unit(u) && DrawKey(v, Newest(recordCount), u) == Some(k))
            <==> Requestable(v, Newest(recordCount), k)
  {
    hide DrawKey, Requestable;
    DrawnKeyRange(v, recordCount, newKeys, 0.0);
    if Requestable(v, Newest(recordCount), k) {
      var u := RequestableIsDrawn(v, recordCount, newKeys, k);
    }
    if u: real :| Unit(u) && DrawKey(v, Newest(recordCount), u) == Some(k) {
      DrawnKeyRange(v, recordCount, newKeys, u);
    }
  }

  datatype Distribution = UNIFORM | ZIPFIAN | LATEST

  // A chooser draws k.
  ghost predicate Draws(v: View, newest: Word, k: Word)
    requires Drawable(v, newest)
  {
    exists u: real :: Unit(u) && DrawKey(v, newest, u) == Some(k)
  }

  // In numbers of the configuration: a uniform chooser draws the numbers of all the records,
  // a latest one all but number 0, and a Zipfian one the hashes of the ranks modulo the records
  // and the spare keys.
  lemma DrawnRecords(v: View, recordCount: Word, newKeys: int, k: Word)
    requires SetUp(v, recordCount, newKeys) && ExactView(v) && recordCount > 0
    ensures Drawable(v, Newest(recordCount))
    ensures v.UniformView? ==> (Draws(v, Newest(recordCount), k) <==> k < recordCount)
    ensures v.LatestView? ==> (Draws(v, Newest(recordCount), k) <==> 1 <= k < recordCount)
    ensures v.ScrambledView? ==>
              var n := (recordCount + newKeys) % TWO_64;
              n > 0 && (Draws(v, Newest(recordCount), k) <==> exists r: Word :: r < n && Fnv.Hash(r) % n == k)
  {
    hide DrawKey, Fnv.Hash;
    DrawnKeys(v, recordCount, newKeys, k);
    if v.ScrambledView? {
      assert forall r: Word :: RankOf(v.s.numItems, k, r) <==> r < v.s.numItems && Fnv.Hash(r) % v.s.numItems == k;
    }
  }

  // What a distribution requests of the records and the spare keys, number by number.
  ghost predicate RequestsRecords(dist: Distribution, v: View, recordCount: Word, newKeys: int) {
    && Drawable(v, Newest(recordCount))
    && match dist
       case UNIFORM => forall k: Word :: Draws(v, Newest(recordCount), k) <==> k < recordCount
       case LATEST => forall k: Word :: Draws(v, Newest(recordCount), k) <==> 1 <= k < recordCount
       case ZIPFIAN =>
         var n := (recordCount + newKeys) % TWO_64;
         n > 0 && forall k: Word ::
           Draws(v, Newest(recordCount), k) <==> exists r: Word :: r < n && Fnv.Hash(r) % n == k
  }

  predicate Fits(dist: Distribution, v: View) {
    match dist
    case UNIFORM => v.UniformView?
    case ZIPFIAN => v.ScrambledView?
    case LATEST => v.LatestView?
  }

  lemma AllDrawnRecords(dist: Distribution, v: View, recordCount: Word, newKeys: int)
    requires SetUp(v, recordCount, newKeys) && ExactView(v) && recordCount > 0 && Fits(dist, v)
    ensures RequestsRecords(dist, v, recordCount, newKeys)
  {
    hide Draws, Fnv.Hash, DrawKey, Drawable;
    DrawnRecords(v, recordCount, newKeys, 0);
    forall k: Word
      ensures v.UniformView? ==> (Draws(v, Newest(recordCount), k) <==> k < recordCount)
      ensures v.LatestView? ==> (Draws(v, Newest(recordCount), k) <==> 1 <= k < recordCount)
      ensures v.ScrambledView? ==>
                var n := (recordCount + newKeys) % TWO_64;
                n > 0 && (Draws(v, Newest(recordCount), k) <==> exists r: Word :: r < n && Fnv.Hash(r) % n == k)
    {
      DrawnRecords(v, recordCount, newKeys, k);
    }
  }

  // And the number of each draw: the draw scaled to the records; the newest number minus the
  // Zipfian rank; the hash of the rank.
  lemma KeyOfDraw(v: View, recordCount: Word, newKeys: int, u: real)
    requires SetUp(v, recordCount, newKeys) && ExactView(v) && recordCount > 0 && Unit(u)
    ensures Drawable(v, recordCount - 1) && DrawKey(v, recordCount - 1, u).Some?
    ensures var k := DrawKey(v, recordCount - 1, u).value;
            match v
            case UniformView(_, _) => k as real <= u * recordCount as real < (k + 1) as real
            case LatestView(ar, s) =>
              var rank := Z.Drawn(ar, s, recordCount - 1, u);
              rank.Some? && rank.value < recordCount && k == recordCount - 1 - rank.value
            case ScrambledView(ar, _, s) =>
              var n := (recordCount + newKeys) % TWO_64;
              var rank := Z.Drawn(ar, s, n, u);
              n > 0 && rank.Some? && rank.value < n && k == Fnv.Hash(rank.value) % n
  {
    hide Fnv.Hash, Z.Drawn, Z.Exact;
    assert Newest(recordCount) == recordCount - 1;
    match v
    case UniformView(_, _) =>
    case ScrambledView(ar, base, s) =>
      Raise(ar, s);
      var r := ScrambledDraw(ar, s, u);
    case LatestView(ar, s) =>
      Raise(ar, s);
      LatestInRange(ar, s, recordCount - 1, u);
  }

  // Twice the inserts to expect, without the fraction.
  predicate TwiceExpected(newKeys: int, operationCount: int, insertProportion: real) {
    var expected := 2.0 * operationCount as real * insertProportion;
    if expected >= 0.0 then newKeys as real <= expected < newKeys as real + 1.0
    else newKeys as real - 1.0 < expected <= newKeys as real
  }

  lemma SpareKeys(operationCount: int, insertProportion: real)
    ensures TwiceExpected(NewKeys(operationCount, insertProportion), operationCount, insertProportion)
    ensures operationCount >= 0 && insertProportion >= 0.0 ==>
              var newKeys := NewKeys(operationCount, insertProportion) as real;
              newKeys <= 2.0 * operationCount as real * insertProportion < newKeys + 1.0
  {
    var p := operationCount as real * insertProportion;
    assert 2.0 * operationCount as real * insertProportion == p * 2.0;
  }

  // ---- CoreWorkload ----------------------------------------------------------------

  // What the assertions of the generators demand of the record count.
  predicate Supported(dist: Distribution, recordCount: Word, newKeys: int) {
    match dist
    case UNIFORM => true
    case ZIPFIAN => 2 <= Items(recordCount, newKeys) < Z.MAX_NUM_ITEMS
    case LATEST => 2 <= Newest(recordCount) < Z.MAX_NUM_ITEMS
  }

  // In numbers, where nothing wraps around.
  lemma SupportedCounts(dist: Distribution, recordCount: Word, newKeys: nat)
    requires recordCount > 0 && recordCount + newKeys < TWO_64
    ensures Supported(dist, recordCount, newKeys)
            <==> match dist
                 case UNIFORM => true
                 case ZIPFIAN => 2 <= recordCount + newKeys < 1_099_511_627_775
                 case LATEST => 3 <= recordCount <= 1_099_511_627_775
  {
  }

  method MakeKeyChooser(dist: Distribution, sequence: CounterGenerator, recordCount: Word, newKeys: int,
                        ar: Z.Arithmetic, u: real, v: real)
    returns (chooser: KeyChooser)
    requires Supported(dist, recordCount, newKeys) && Z.Exact(ar)
    requires sequence.counter == recordCount
    requires 0.0 <= u < 1.0 && 0.0 <= v < 1.0
    ensures fresh(Footprint(chooser)) && Wired(chooser, sequence)
    ensures SetUp(ViewOf(chooser), recordCount, newKeys) && ExactView(ViewOf(chooser))
    ensures Fits(dist, ViewOf(chooser))
    ensures recordCount > 0 ==> RequestsRecords(dist, ViewOf(chooser), recordCount, newKeys)
  {
    hide Draws, Fnv.Hash, DrawKey, Z.Exact, Z.Coherent;
    match dist {
      case UNIFORM =>
        var g := new UniformGenerator(0, Newest(recordCount), u);
        chooser := Uniform(g);
      case ZIPFIAN =>
        var g := new ScrambledZipfianGenerator(ar, 0, Items(recordCount, newKeys) - 1, u);
        chooser := Scrambled(g);
      case LATEST =>
        var g := new SkewedLatestGenerator(ar, sequence, u, v);
        chooser := Latest(g);
    }
    if recordCount > 0 {
      AllDrawnRecords(dist, ViewOf(chooser), recordCount, newKeys);
    }
  }

  // The loop of NextTransactionKey keeps a key number up to newest.
  function Accepted(k: Option<Word>, newest: Word): Option<Word> {
    if k.Some? && k.value <= newest then k else None
  }

  // Drawing from v always yields a key and leaves v as it is.
  ghost predicate Stationary(v: View, newest: Word) {
    && Drawable(v, newest) && Advance(v, newest) == v
    && forall u: real | Unit(u) :: DrawKey(v, newest, u).Some?
  }

  lemma SetUpIsStationary(v: View, recordCount: Word, newKeys: int)
    requires SetUp(v, recordCount, newKeys) && ExactView(v)
    ensures Stationary(v, Newest(recordCount))
  {
    hide DrawKey, Requestable, Advance;
    DrawnKeyRange(v, recordCount, newKeys, 0.0);
    forall u: real | Unit(u)
      ensures DrawKey(v, Newest(recordCount), u).Some?
    {
      DrawnKeyRange(v, recordCount, newKeys, u);
    }
  }

  // One round of the rejection loop.
  method TryKey(c: KeyChooser, sequence: CounterGenerator, u: real) returns (k: Option<Word>)
    requires Wired(c, sequence) && Drawable(ViewOf(c), sequence.Last()) && 0.0 <= u < 1.0
    modifies Footprint(c)
    ensures k == Accepted(DrawKey(old(ViewOf(c)), sequence.Last(), u), sequence.Last())
    ensures ViewOf(c) == Advance(old(ViewOf(c)), sequence.Last())
  {
    var newest := sequence.Last();
    k := NextOf(c, newest, u);
    k := Accepted(k, sequence.Last());
  }

  // The first accepted key among the draws from position i on, with its position.
  function Search(v: View, newest: Word, us: seq<real>, i: nat): (r: Option<(Word, nat)>)
    requires Drawable(v, newest) && DrawsOk(us) && i <= |us|
    ensures r.Some? ==> i <= r.value.1 < |us|
    decreases |us| - i
  {
    if i == |us| then None
    else
      match Accepted(DrawKey(v, newest, us[i]), newest)
      case Some(k) => Some((k, i))
      case None => Search(v, newest, us, i + 1)
  }

  class CoreWorkload {
    const naming: Naming
    const recordCount: Word
    const keyGenerator: CounterGenerator
    const insertKeySequence: CounterGenerator
    const keyChooser: KeyChooser
    const opChooser: DiscreteGenerator<Operation>
    ghost const view: View

    // The insert sequence stays at the record count: no operation advances it.
    ghost predicate Valid()
      reads insertKeySequence, Footprint(keyChooser), opChooser
    {
      && insertKeySequence.counter == recordCount
      && keyGenerator != insertKeySequence && (keyGenerator as object) !in Footprint(keyChooser)
      && Wired(keyChooser, insertKeySequence)
      && ViewOf(keyChooser) == view && Stationary(view, Newest(recordCount))
      && opChooser.Valid() && Positive(opChooser.values) && (opChooser as object) !in Footprint(keyChooser)
    }

    constructor (naming: Naming, recordCount: Word, insertStart: Word, operationCount: int, dist: Distribution,
                 mix: Mix, ar: Z.Arithmetic, u: real, v: real)
      requires Supported(dist, recordCount, NewKeys(operationCount, mix(INSERT))) && Z.Exact(ar)
      requires 0.0 <= u < 1.0 && 0.0 <= v < 1.0
      ensures Valid()
      ensures this.naming == naming && this.recordCount == recordCount
      ensures SetUp(view, recordCount, NewKeys(operationCount, mix(INSERT))) && ExactView(view)
      ensures Fits(dist, view)
      ensures recordCount > 0 ==> RequestsRecords(dist, view, recordCount, NewKeys(operationCount, mix(INSERT)))
      ensures TwiceExpected(NewKeys(operationCount, mix(INSERT)), operationCount, mix(INSERT))
      ensures keyGenerator.counter == insertStart
      ensures opChooser.values == Entries(mix, ORDER)
    {
      hide RequestsRecords, DrawKey, NewKeys, SetUp, Advance, Drawable, TwiceExpected;
      this.naming, this.recordCount := naming, recordCount;
      var generator := new CounterGenerator(insertStart);
      var ops := InitChooser(mix);
      var sequence := new CounterGenerator(3);
      sequence.Set(recordCount);
      var newKeys := NewKeys(operationCount, mix(INSERT));
      var chooser := MakeKeyChooser(dist, sequence, recordCount, newKeys, ar, u, v);
      keyGenerator, opChooser, insertKeySequence, keyChooser := generator, ops, sequence, chooser;
      view := ViewOf(chooser);
      SetUpIsStationary(ViewOf(chooser), recordCount, newKeys);
      SpareKeys(operationCount, mix(INSERT));
    }

    method NextSequenceKey() returns (key: string)
      requires Valid()
      modifies keyGenerator
      ensures Valid()
      ensures key == BuildKeyName(naming, old(keyGenerator.counter))
      ensures keyGenerator.counter == (old(keyGenerator.counter) + 1) % TWO_64
    {
      hide DrawKey, Advance, BuildKeyName, Stationary;
      var keyNum := keyGenerator.Next();
      key := BuildKeyName(naming, keyNum);
    }

    // The rejection loop over the draws it is given; None when it has used them all up and
    // goes on.
    method NextTransactionKey(us: seq<real>) returns (key: Option<string>, used: nat)
      requires Valid() && DrawsOk(us)
      modifies Footprint(keyChooser)
      ensures Valid()
      ensures match Search(view, Newest(recordCount), us, 0)
              case None => key == None && used == |us|
              case Some(p) => key == Some(BuildKeyName(naming, p.0)) && used == p.1 + 1
    {
      hide DrawKey, Advance, BuildKeyName;
      used := 0;
      while used < |us|
        invariant used <= |us|
        invariant Valid()
        invariant Search(view, Newest(recordCount), us, 0) == Search(view, Newest(recordCount), us, used)
      {
        var keyNum := TryKey(keyChooser, insertKeySequence, us[used]);
        used := used + 1;
        if keyNum.Some? {
          return Some(BuildKeyName(naming, keyNum.value)), used;
        }
      }
      key := None;
    }

    method NextOperation(u: real) returns (op: Option<Operation>)
      requires Valid() && 0.0 <= u < 1.0
      modifies opChooser
      ensures Valid() && opChooser.values == old(opChooser.values)
      ensures opChooser.values == [] || Total(opChooser.values) != 0.0
      ensures op == Choice(opChooser.values, u)
    {
      hide DrawKey, Advance, Stationary;
      if opChooser.values != [] {
        TotalIsPositive(opChooser.values);
      }
      op := opChooser.Next(u);
    }
  }

  // ---- The rejection loop ------------------------------------------------------------

  // The loop returns the first draw up to newest, and no key number beyond it.
  lemma {:induction false} TransactionKey(v: View, newest: Word, us: seq<real>, i: nat)
    requires Stationary(v, newest) && DrawsOk(us) && i <= |us|
    ensures var r := Search(v, newest, us, i);
            var stop := if r.Some? then r.value.1 else |us|;
            && i <= stop <= |us|
            && (r.Some? ==> stop < |us| && r.value.0 <= newest && DrawKey(v, newest, us[stop]) == Some(r.value.0))
            && (forall j | i <= j < stop ::
                  DrawKey(v, newest, us[j]).Some? && DrawKey(v, newest, us[j]).value > newest)
    decreases |us| - i
  {
    hide DrawKey;
    if i < |us| {
      TransactionKey(v, newest, us, i + 1);
    }
  }

  // Which configurations have a number the loop accepts: all but those whose Zipfian chooser
  // hashes every rank beyond the records.
  ghost predicate Accepting(v: View, newest: Word) {
    v.ScrambledView? && v.s.numItems > 0 ==>
      exists r: Word :: r < v.s.numItems && Fnv.Hash(r) % v.s.numItems <= newest
  }

  // There are draws that end the loop exactly for those; for the others it goes on whatever
  // is drawn.
  lemma LoopCanEnd(v: View, recordCount: Word, newKeys: int)
    requires SetUp(v, recordCount, newKeys) && ExactView(v)
    ensures Stationary(v, Newest(recordCount))
    ensures (exists us | DrawsOk(us) :: Search(v, Newest(recordCount), us, 0).Some?)
            <==> Accepting(v, Newest(recordCount))
  {
    hide DrawKey, Fnv.Hash;
    var newest := Newest(recordCount);
    SetUpIsStationary(v, recordCount, newKeys);
    if us :| DrawsOk(us) && Search(v, newest, us, 0).Some? {
      TransactionKey(v, newest, us, 0);
      AcceptedIsHash(v, recordCount, newKeys, us[Search(v, newest, us, 0).value.1]);
    }
    if Accepting(v, newest) {
      var k := SomeAccepted(v, recordCount, newKeys);
      var u := RequestableIsDrawn(v, recordCount, newKeys, k);
      assert DrawsOk([u]) && Search(v, newest, [u], 0).Some?;
    }
  }

  lemma AcceptedIsHash(v: View, recordCount: Word, newKeys: int, u: real)
    requires SetUp(v, recordCount, newKeys) && ExactView(v) && Unit(u)
    requires Drawable(v, Newest(recordCount))
    requires Accepted(DrawKey(v, Newest(recordCount), u), Newest(recordCount)).Some?
    ensures Accepting(v, Newest(recordCount))
  {
    hide Fnv.Hash;
    DrawnKeyRange(v, recordCount, newKeys, u);
    if v.ScrambledView? {
      var k := DrawKey(v, Newest(recordCount), u).value;
      var r: Word :| RankOf(v.s.numItems, k, r);
    }
  }

  lemma SomeAccepted(v: View, recordCount: Word, newKeys: int) returns (k: Word)
    requires SetUp(v, recordCount, newKeys) && Accepting(v, Newest(recordCount))
    ensures Drawable(v, Newest(recordCount))
    ensures Requestable(v, Newest(recordCount), k) && k <= Newest(recordCount)
  {
    hide Fnv.Hash;
    match v
    case UniformView(_, _) =>
      k := 0;
    case ScrambledView(_, _, s) =>
      var r: Word :| r < s.numItems && Fnv.Hash(r) % s.numItems <= Newest(recordCount);
      k := Fnv.Hash(r) % s.numItems;
      assert RankOf(s.numItems, k, r);
    case LatestView(_, _) =>
      k := 1;
  }

  // Every draw ends the loop at once exactly if no rank hashes beyond the records.
  lemma FirstDrawIsAccepted(v: View, recordCount: Word, newKeys: int)
    requires SetUp(v, recordCount, newKeys) && ExactView(v)
    ensures Drawable(v, Newest(recordCount))
    ensures (forall u: real | Unit(u) :: Accepted(DrawKey(v, Newest(recordCount), u), Newest(recordCount)).Some?)
            <==> (v.ScrambledView? ==>
                    forall r: Word | r < v.s.numItems :: Fnv.Hash(r) % v.s.numItems <= Newest(recordCount))
  {
    hide DrawKey, Fnv.Hash;
    var newest := Newest(recordCount);
    DrawnKeyRange(v, recordCount, newKeys, 0.0);
    if v.ScrambledView? {
      if r: Word :| r < v.s.numItems && Fnv.Hash(r) % v.s.numItems > newest {
        assert RankOf(v.s.numItems, Fnv.Hash(r) % v.s.numItems, r);
        var u := RequestableIsDrawn(v, recordCount, newKeys, Fnv.Hash(r) % v.s.numItems);
        assert Unit(u) && Accepted(DrawKey(v, newest, u), newest).None?;
      }
    }
    forall u: real | Unit(u) &&
                     (v.ScrambledView? ==> forall r: Word | r < v.s.numItems :: Fnv.Hash(r) % v.s.numItems <= newest)
      ensures Accepted(DrawKey(v, newest, u), newest).Some?
    {
      DrawnKeyRange(v, recordCount, newKeys, u);
    }
  }

  // In particular for uniform, for latest, and for Zipfian without spare keys or records.
  lemma NoSpareKeys(v: View, recordCount: Word, newKeys: int, us: seq<real>)
    requires SetUp(v, recordCount, newKeys) && ExactView(v)
    requires us != [] && DrawsOk(us) && (v.ScrambledView? ==> newKeys == 0 || recordCount == 0)
    ensures Drawable(v, Newest(recordCount))
    ensures Search(v, Newest(recordCount), us, 0).Some? && Search(v, Newest(recordCount), us, 0).value.1 == 0
  {
    hide DrawKey, Fnv.Hash;
    FirstDrawIsAccepted(v, recordCount, newKeys);
  }

  // One record, six operations, half of them inserts: the chooser has seven ranks, none of
  // them hashes to the record, and the loop goes on for ever.
  lemma SpareKeysStarve(ar: Z.Arithmetic, s: Z.State, us: seq<real>)
    requires SetUp(ScrambledView(ar, 0, s), 1, NewKeys(6, 0.5)) && Z.Exact(ar) && DrawsOk(us)
    ensures Drawable(ScrambledView(ar, 0, s), 0)
    ensures Search(ScrambledView(ar, 0, s), 0, us, 0) == None
  {
    hide DrawKey, Fnv.Hash, Search;
    var v := ScrambledView(ar, 0, s);
    assert Newest(1) == 0 && NewKeys(6, 0.5) == 6 && s.numItems == 7;
    forall r: Word | r < 7
      ensures Fnv.Hash(r) % 7 > 0
    {
      Fnv.SevenHashes(r);
    }
    assert !Accepting(v, 0);
    LoopCanEnd(v, 1, NewKeys(6, 0.5));
  }

  // There is such a configuration.
  lemma StarvingConfiguration()
    ensures var ar := Z.ThetaZero();
            && Z.Exact(ar) && Supported(ZIPFIAN, 1, NewKeys(6, 0.5))
            && SetUp(ScrambledView(ar, 0, Z.Initial(ar, 0, 7)), 1, NewKeys(6, 0.5))
  {
    Z.ThetaZeroIsExact();
    assert NewKeys(6, 0.5) == 6;
  }
}
