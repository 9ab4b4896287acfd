// The Zipfian generator (core/zipfian_generator.h). Doubles are reals. A draw is the
// number u in [0, 1) that the random engine returned; the mutex makes a call one step.

module Zipfian {
  import opened Words
  import opened Wrappers
  import opened RealFacts

  // UINT64_MAX >> 24
  const MAX_NUM_ITEMS := 0xFF_FFFF_FFFF

  // The operations whose meaning depends on theta or on the machine: the addition of
  // doubles in the zeta loop, 1 / i^theta, 0.5^theta, x^(1 - theta), and y^alpha with
  // alpha = 1 / (1 - theta).
  datatype Arithmetic = Arithmetic(
    add: (real, real) -> real,
    weight: nat -> real,
    half: real,
    power: real -> real,
    root: real -> real
  )

  // What exact arithmetic guarantees of them for any theta below 1.
  ghost predicate Exact(ar: Arithmetic) {
    && (forall x: real, y: real :: ar.add(x, y) == x + y)
    && (forall i: nat | i >= 1 :: ar.weight(i) > 0.0)
    && ar.weight(1) == 1.0 && ar.weight(2) == ar.half
    && (forall x: real | 0.0 < x <= 1.0 :: ar.power(x) > 0.0)
    && (forall x: real, y: real | 0.0 < x < y <= 1.0 :: ar.power(x) < ar.power(y))
    && ar.power(1.0) == 1.0
    && (forall x: real, y: real | 0.0 <= x < y <= 1.0 :: ar.root(x) < ar.root(y))
    && (forall x: real | 0.0 < x <= 1.0 :: ar.root(ar.power(x)) == x)
  }

  // theta = 0 meets them.
  function ThetaZero(): Arithmetic {
    Arithmetic((x, y) => x + y, _ => 1.0, 1.0, x => x, x => x)
  }

  lemma ThetaZeroIsExact()
    ensures Exact(ThetaZero())
  {
  }

  // A division whose result is not a finite number has no value.
  function Divide(a: real, b: real): Option<real> {
    if b == 0.0 then None else Some(a / b)
  }

  // Conversion of a double to uint64_t; out of range it is undefined.
  function ToUint64(x: real): Option<Word> {
    if x <= -1.0 || x >= TWO_64 as real then None
    else if x < 0.0 then Some(0)
    else Some(x.Floor)
  }

  // zeta continued from last, where it is z, up to cur.
  function Zeta(ar: Arithmetic, last: nat, cur: nat, z: real): real
    decreases cur - last
  {
    if last >= cur then z else Zeta(ar, last + 1, cur, ar.add(z, ar.weight(last + 1)))
  }

  function EtaOf(ar: Arithmetic, numItems: nat, zeta2: real, zetaN: real): Option<real>
    requires numItems > 0
  {
    match Divide(zeta2, zetaN)
    case None => None
    case Some(r) => Divide(1.0 - ar.power(2.0 / numItems as real), 1.0 - r)
  }

  datatype State = State(
    numItems: nat,
    base: nat,
    zetaN: real,
    eta: Option<real>,
    zeta2: real,
    nForZeta: nat
  )

  // The cached values agree with values computed from scratch.
  predicate Coherent(ar: Arithmetic, s: State) {
    && 2 <= s.numItems < MAX_NUM_ITEMS
    && s.numItems <= s.nForZeta < MAX_NUM_ITEMS
    && s.zeta2 == Zeta(ar, 0, 2, 0.0)
    && s.zetaN == Zeta(ar, 0, s.nForZeta, 0.0)
    && s.eta == EtaOf(ar, s.numItems, s.zeta2, s.zetaN)
  }

  function Initial(ar: Arithmetic, min: nat, numItems: nat): (s: State)
    requires 2 <= numItems < MAX_NUM_ITEMS
    ensures Coherent(ar, s) && s.base == min && s.numItems == s.nForZeta == numItems
  {
    var zeta2 := Zeta(ar, 0, 2, 0.0);
    var zetaN := Zeta(ar, 0, numItems, 0.0);
    State(numItems, min, zetaN, EtaOf(ar, numItems, zeta2, zetaN), zeta2, numItems)
  }

  // The state after a request for num items.
  function Raised(ar: Arithmetic, s: State, num: nat): State
    requires s.numItems > 0
  {
    if num > s.nForZeta then
      var zetaN := Zeta(ar, s.nForZeta, num, s.zetaN);
      s.(zetaN := zetaN, nForZeta := num, eta := EtaOf(ar, s.numItems, s.zeta2, zetaN))
    else
      s
  }

  function Scale(u: real, zetaN: real): real {
    u * zetaN
  }

  function TailArgument(eta: real, u: real): real {
    eta * u - eta + 1.0
  }

  function Scaled(base: nat, num: nat, q: real): real {
    base as real + num as real * q
  }

  // What a draw u yields in state s.
  function Drawn(ar: Arithmetic, s: State, num: nat, u: real): Option<Word> {
    var uz := Scale(u, s.zetaN);
    if uz < 1.0 then Some(0)
    else if uz < 1.0 + ar.half then Some(1)
    else Tail(ar, s, num, u)
  }

  function Tail(ar: Arithmetic, s: State, num: nat, u: real): Option<Word> {
    match s.eta
    case None => None
    case Some(e) =>
      var arg := TailArgument(e, u);
      if arg < 0.0 then None else ToUint64(Scaled(s.base, num, ar.root(arg)))
  }

  class ZipfianGenerator {
    const ar: Arithmetic
    const numItems: nat
    const base: nat
    var zetaN: real
    var eta: Option<real>
    var zeta2: real
    var nForZeta: nat
    var lastValue: Option<Word>

    function Current(): State
      reads this
    {
      State(numItems, base, zetaN, eta, zeta2, nForZeta)
    }

    ghost predicate Valid()
      reads this
    {
      Coherent(ar, Current())
    }

    constructor (ar: Arithmetic, min: nat, max: nat, u: real)
      requires 2 <= max - min + 1 < MAX_NUM_ITEMS
      requires 0.0 <= u < 1.0
      ensures Valid() && this.ar == ar
      ensures Current() == Initial(ar, min, max - min + 1)
      ensures base == min && numItems == nForZeta == max - min + 1
      ensures lastValue == Drawn(ar, Current(), numItems, u)
    {
      this.ar := ar;
      numItems := max - min + 1;
      base := min;
      zetaN := 0.0;
      nForZeta := 0;
      eta := None;
      zeta2 := 0.0;
      lastValue := None;
      new;
      zeta2 := ZetaFrom(ar, 0, 2, 0.0);
      RaiseZeta(numItems);
      eta := Eta();
      var _ := Next(numItems, u);
    }

    method RaiseZeta(num: nat)
      requires num >= nForZeta  // the source asserts it
      modifies this`zetaN, this`nForZeta
      ensures nForZeta == num
      ensures zetaN == Zeta(ar, old(nForZeta), num, old(zetaN))
    {
      zetaN := ZetaFrom(ar, nForZeta, num, zetaN);
      nForZeta := num;
    }

    function Eta(): Option<real>
      requires numItems > 0
      reads this
    {
      EtaOf(ar, numItems, zeta2, zetaN)
    }

    method Next(num: nat, u: real) returns (r: Option<Word>)
      requires Valid()
      requires 2 <= num < MAX_NUM_ITEMS && 0.0 <= u < 1.0
      modifies this
      ensures Valid()
      ensures Current() == Raised(ar, old(Current()), num)
      ensures r == lastValue == Drawn(ar, Current(), num, u)
    {
      RaisedIsCoherent(ar, Current(), num);
      if num > nForZeta {
        RaiseZeta(num);
        eta := Eta();
      }
      ghost var s := Current();
      assert s == Raised(ar, old(Current()), num);
      var uz := Scale(u, zetaN);
      if uz < 1.0 {
        r := Some(0);
      } else if uz < 1.0 + ar.half {
        r := Some(1);
      } else {
        r := Tail(ar, Current(), num, u);
      }
      assert r == Drawn(ar, s, num, u);
      lastValue := r;
      assert Current() == s;
    }
  }

  method ZetaFrom(ar: Arithmetic, last: nat, cur: nat, lastZeta: real) returns (zeta: real)
    ensures zeta == Zeta(ar, last, cur, lastZeta)
    ensures last <= cur ==>
              zeta == FoldLeft(ar.add, lastZeta, seq(cur - last, i requires 0 <= i => ar.weight(last + i + 1)))
  {
    if last <= cur {
      ZetaIsFold(ar, last, cur, lastZeta);
    }
    zeta := lastZeta;
    var i := last + 1;
    while i <= cur
      invariant last < i
      invariant Zeta(ar, i - 1, cur, zeta) == Zeta(ar, last, cur, lastZeta)
    {
      zeta := ar.add(zeta, ar.weight(i));
      i := i + 1;
    }
  }

  // ---- The sum ---------------------------------------------------------------------

  // The sum of a list, from the left.
  function FoldLeft(add: (real, real) -> real, z: real, terms: seq<real>): real
    decreases |terms|
  {
    if terms == [] then z else FoldLeft(add, add(z, terms[0]), terms[1..])
  }

  // zeta adds the weights of the items one after another, each once, whatever addition does.
  lemma {:induction false} ZetaIsFold(ar: Arithmetic, last: nat, cur: nat, z: real)
    requires last <= cur
    ensures Zeta(ar, last, cur, z)
            == FoldLeft(ar.add, z, seq(cur - last, i requires 0 <= i => ar.weight(last + i + 1)))
    decreases cur - last
  {
    var terms := seq(cur - last, i requires 0 <= i => ar.weight(last + i + 1));
    if last < cur {
      ZetaIsFold(ar, last + 1, cur, ar.add(z, ar.weight(last + 1)));
      assert terms[0] == ar.weight(last + 1);
      assert terms[1..] == seq(cur - last - 1, i requires 0 <= i => ar.weight(last + 1 + i + 1));
    }
  }

  // weight(1) + .. + weight(n)
  function WeightSum(ar: Arithmetic, n: nat): real {
    if n == 0 then 0.0 else WeightSum(ar, n - 1) + ar.weight(n)
  }

  // With exact addition it is the sum of the weights of the items.
  lemma {:induction false} ZetaIsSum(ar: Arithmetic, n: nat)
    requires Exact(ar)
    ensures Zeta(ar, 0, n, 0.0) == WeightSum(ar, n)
  {
    if n > 0 {
      ZetaIsSum(ar, n - 1);
      ZetaSplits(ar, 0, n - 1, n, 0.0);
      assert Zeta(ar, n - 1, n, Zeta(ar, 0, n - 1, 0.0)) == ar.add(Zeta(ar, 0, n - 1, 0.0), ar.weight(n));
    }
  }

  // ---- The cache -------------------------------------------------------------------

  // Continuing a sum is computing it in one go, whatever addition does: both perform the
  // same additions in the same order.
  lemma {:induction false} ZetaSplits(ar: Arithmetic, last: nat, mid: nat, cur: nat, z: real)
    requires last <= mid <= cur
    ensures Zeta(ar, last, cur, z) == Zeta(ar, mid, cur, Zeta(ar, last, mid, z))
    decreases mid - last
  {
    if last < mid {
      ZetaSplits(ar, last + 1, mid, cur, ar.add(z, ar.weight(last + 1)));
    }
  }

  function AfterRequests(ar: Arithmetic, s: State, nums: seq<nat>): (s': State)
    requires s.numItems > 0
    ensures s'.numItems == s.numItems && s'.base == s.base && s'.zeta2 == s.zeta2
    decreases |nums|
  {
    if nums == [] then s else AfterRequests(ar, Raised(ar, s, nums[0]), nums[1..])
  }

  function Largest(n: nat, nums: seq<nat>): nat
    decreases |nums|
  {
    if nums == [] then n else Largest(if nums[0] > n then nums[0] else n, nums[1..])
  }

  lemma RaisedIsCoherent(ar: Arithmetic, s: State, num: nat)
    requires Coherent(ar, s) && num < MAX_NUM_ITEMS
    ensures Coherent(ar, Raised(ar, s, num))
  {
    if num > s.nForZeta {
      ZetaSplits(ar, 0, s.nForZeta, num, 0.0);
    }
  }

  // After any requests, growing or shrinking, the cached sum is the sum computed from
  // scratch for the largest count requested so far, and eta is the eta of that sum.
  lemma {:induction false} CacheAgrees(ar: Arithmetic, s: State, nums: seq<nat>)
    requires Coherent(ar, s) && forall n | n in nums :: n < MAX_NUM_ITEMS
    ensures var s' := AfterRequests(ar, s, nums);
            && s'.nForZeta == Largest(s.nForZeta, nums)
            && s'.zetaN == Zeta(ar, 0, Largest(s.nForZeta, nums), 0.0)
            && Coherent(ar, s')
    decreases |nums|
  {
    if nums != [] {
      assert nums[0] in nums;
      RaisedIsCoherent(ar, s, nums[0]);
      assert forall n | n in nums[1..] :: n in nums;
      CacheAgrees(ar, Raised(ar, s, nums[0]), nums[1..]);
    }
  }

  lemma {:induction false} LargestIsMaximum(n: nat, nums: seq<nat>)
    ensures Largest(n, nums) >= n && forall m | m in nums :: m <= Largest(n, nums)
    ensures Largest(n, nums) == n || Largest(n, nums) in nums
    decreases |nums|
  {
    if nums != [] {
      LargestIsMaximum(if nums[0] > n then nums[0] else n, nums[1..]);
      assert forall m | m in nums :: m == nums[0] || m in nums[1..];
    }
  }

  // ---- Bands of the draw -----------------------------------------------------------

  lemma {:induction false} ZetaGrows(ar: Arithmetic, last: nat, cur: nat, z: real)
    requires Exact(ar)
    ensures Zeta(ar, last, cur, z) >= z
    ensures last < cur ==> Zeta(ar, last, cur, z) > z
    decreases cur - last
  {
    if last < cur {
      ZetaGrows(ar, last + 1, cur, ar.add(z, ar.weight(last + 1)));
    }
  }

  lemma ZetaOfTwo(ar: Arithmetic)
    requires Exact(ar)
    ensures Zeta(ar, 0, 2, 0.0) == 1.0 + ar.half
  {
    assert Zeta(ar, 0, 2, 0.0) == Zeta(ar, 1, 2, ar.add(0.0, ar.weight(1)));
    assert Zeta(ar, 1, 2, 1.0) == ar.add(1.0, ar.weight(2));
  }

  // The sum over all items exceeds the sum over two exactly when there are more than two.
  lemma ZetaPastTwo(ar: Arithmetic, s: State)
    requires Exact(ar) && Coherent(ar, s)
    ensures s.zeta2 == 1.0 + ar.half && ar.half > 0.0
    ensures s.zetaN >= s.zeta2
    ensures s.nForZeta > 2 <==> s.zetaN > s.zeta2
  {
    ZetaOfTwo(ar);
    ZetaSplits(ar, 0, 2, s.nForZeta, 0.0);
    ZetaGrows(ar, 2, s.nForZeta, s.zeta2);
    assert ar.weight(2) > 0.0;
  }

  // Where the third branch of Next begins.
  predicate InTail(ar: Arithmetic, s: State, u: real) {
    Scale(u, s.zetaN) >= 1.0 + ar.half
  }

  // The argument of the root in the third branch: never below (2 / numItems)^(1 - theta),
  // and below 1.
  lemma TailArgumentBounds(ar: Arithmetic, s: State, u: real)
    requires Exact(ar) && Coherent(ar, s) && s.numItems >= 3
    requires 0.0 <= u < 1.0 && InTail(ar, s, u)
    ensures s.eta.Some?
    ensures 0.0 < ar.power(2.0 / s.numItems as real) <= TailArgument(s.eta.value, u) < 1.0
  {
    ZetaPastTwo(ar, s);
    var share := 2.0 / s.numItems as real;
    assert 0.0 < share < 1.0;
    QuotientBelow(s.zeta2, s.zetaN, u);
    ArgumentBounds(ar.power(share), s.zeta2 / s.zetaN, u);
  }

  lemma ArgumentBounds(p: real, r: real, u: real)
    requires 0.0 < p < 1.0 && 0.0 < r <= u < 1.0
    ensures p <= TailArgument((1.0 - p) / (1.0 - r), u) < 1.0
  {
    var e, a, b := (1.0 - p) / (1.0 - r), 1.0 - u, 1.0 - r;
    QuotientTimes(1.0 - p, b);
    ArgumentBelowOne(e, u);
    OneLessProduct(e, a, b, p, TailArgument(e, u));
  }

  lemma ArgumentBelowOne(e: real, u: real)
    ensures TailArgument(e, u) == 1.0 - e * (1.0 - u)
  {
  }

  // The third branch yields base + floor(2 num / numItems) at least, which is base + 2 or
  // more when as many items are asked for as there are, and it never reaches base + num.
  lemma TailBand(ar: Arithmetic, s: State, num: nat, u: real)
    requires Exact(ar) && Coherent(ar, s) && s.numItems >= 3
    requires num > 0 && s.base + num <= TWO_64
    requires 0.0 <= u < 1.0 && InTail(ar, s, u)
    ensures Tail(ar, s, num, u).Some?
    ensures s.base + 2 * num / s.numItems <= Tail(ar, s, num, u).value <= s.base + num - 1
    ensures num >= s.numItems ==> s.base + 2 <= Tail(ar, s, num, u).value
  {
    TailArgumentBounds(ar, s, u);
    AtLeastTwo(num, s.numItems);
    TailRoot(ar, s.numItems, TailArgument(s.eta.value, u));
    ScaledInRange(ar, s, num, u);
  }

  lemma AtLeastTwo(num: nat, items: nat)
    requires items > 0
    ensures num >= items ==> 2 * num / items >= 2
  {
    var k := 2 * num / items;
    assert 2 * num < items * (k + 1);
  }

  lemma ScaledInRange(ar: Arithmetic, s: State, num: nat, u: real)
    requires num > 0 && s.base + num <= TWO_64 && s.numItems > 0
    requires s.eta.Some? && TailArgument(s.eta.value, u) >= 0.0
    requires 2.0 / s.numItems as real <= ar.root(TailArgument(s.eta.value, u)) < 1.0
    ensures Tail(ar, s, num, u).Some?
    ensures s.base + 2 * num / s.numItems <= Tail(ar, s, num, u).value <= s.base + num - 1
  {
    var q := ar.root(TailArgument(s.eta.value, u));
    ScaledFloor(s.base, num, s.numItems, q);
    FloorFits(Scaled(s.base, num, q));
  }

  lemma TailRoot(ar: Arithmetic, items: nat, arg: real)
    requires Exact(ar) && items >= 3
    requires 0.0 < ar.power(2.0 / items as real) <= arg < 1.0
    ensures 2.0 / items as real <= ar.root(arg) < 1.0
  {
    var share := 2.0 / items as real;
    assert 0.0 < share <= 1.0;
    RootMonotone(ar, ar.power(share), arg);
    assert ar.root(ar.power(share)) == share;
    assert ar.root(ar.power(1.0)) == 1.0;
  }

  lemma FloorFits(x: real)
    requires x.Floor >= 0 && x.Floor < TWO_64
    ensures ToUint64(x) == Some(x.Floor)
  {
  }

  lemma RootMonotone(ar: Arithmetic, x: real, y: real)
    requires Exact(ar) && 0.0 <= x <= y <= 1.0
    ensures ar.root(x) <= ar.root(y)
  {
  }

  lemma ScaledFloor(base: nat, num: nat, items: nat, q: real)
    requires items > 0 && num > 0 && 2.0 / items as real <= q < 1.0
    ensures base + 2 * num / items <= Scaled(base, num, q).Floor <= base + num - 1
  {
    var x := num as real * q;
    MultipliesMonotone(num as real, 1.0 - q, 1.0 - q);
    assert x < num as real;
    ShareFloor(num, items);
    var share := 2.0 / items as real;
    assert num as real * share <= x by {
      assert num as real * (q - share) >= 0.0;
    }
    assert (2 * num / items) as real <= x;
  }

  lemma ShareFloor(num: nat, items: nat)
    requires items > 0
    ensures (2 * num / items) as real <= num as real * (2.0 / items as real)
  {
    var k := 2 * num / items;
    assert k * items <= 2 * num;
    var share := 2.0 / items as real;
    assert share * items as real == 2.0;
    assert (k * items) as real == k as real * items as real;
    assert (num as real * share) * items as real == num as real * (share * items as real);
    CompareFactors(k as real, num as real * share, items as real, (k * items) as real, (2 * num) as real);
  }

  // With two items and no growth the third branch is unreachable, so the eta that has no
  // value there (0 / 0) is never used.
  lemma TwoItems(ar: Arithmetic, s: State, num: nat, u: real)
    requires Exact(ar) && Coherent(ar, s) && s.nForZeta == 2
    requires 0.0 <= u < 1.0
    ensures s.eta == None
    ensures !InTail(ar, s, u)
    ensures Drawn(ar, s, num, u) == Some(if Scale(u, s.zetaN) < 1.0 then 0 else 1)
  {
    ZetaPastTwo(ar, s);
    BelowWhole(u, s.zetaN);
    assert s.zeta2 / s.zetaN == 1.0;
  }

  lemma BelowWhole(u: real, z: real)
    requires u < 1.0 && z > 0.0
    ensures Scale(u, z) < z
  {
    assert (1.0 - u) * z > 0.0;
  }

  // Two items that grew: eta is 0 and the third branch yields base + num, one past the end.
  lemma TwoItemsGrown(ar: Arithmetic, s: State, num: nat, u: real)
    requires Exact(ar) && Coherent(ar, s) && s.numItems == 2
    requires 0.0 <= u < 1.0 && InTail(ar, s, u)
    requires s.base + num < TWO_64
    ensures Tail(ar, s, num, u) == Some(s.base + num)
  {
    EtaOfTwoGrown(ar, s, u);
    RootOfOne(ar);
    WholeRange(s.base, num);
    assert TailArgument(0.0, u) == 1.0;
  }

  lemma EtaOfTwoGrown(ar: Arithmetic, s: State, u: real)
    requires Exact(ar) && Coherent(ar, s) && s.numItems == 2
    requires 0.0 <= u < 1.0 && InTail(ar, s, u)
    ensures s.eta == Some(0.0)
  {
    ZetaPastTwo(ar, s);
    BelowWhole(u, s.zetaN);
    var r := s.zeta2 / s.zetaN;
    CompareFactors(r, 1.0, s.zetaN, s.zeta2, s.zetaN);
    assert ar.power(2.0 / s.numItems as real) == 1.0;
    ZeroOver(1.0 - r);
  }

  lemma RootOfOne(ar: Arithmetic)
    requires Exact(ar)
    ensures ar.root(1.0) == 1.0
  {
    assert ar.root(ar.power(1.0)) == 1.0;
  }

  lemma WholeRange(base: nat, num: nat)
    requires base + num < TWO_64
    ensures ToUint64(Scaled(base, num, 1.0)) == Some(base + num)
  {
    assert Scaled(base, num, 1.0) == (base + num) as real;
    FloorFits(Scaled(base, num, 1.0));
  }

  // The third branch stays below base + num exactly when the generator was created with
  // more than two items.
  lemma TailStaysBelow(ar: Arithmetic, s: State, num: nat, u: real)
    requires Exact(ar) && Coherent(ar, s)
    requires num > 0 && s.base + num < TWO_64
    requires 0.0 <= u < 1.0 && InTail(ar, s, u)
    ensures Tail(ar, s, num, u).Some?
    ensures Tail(ar, s, num, u).value < s.base + num <==> s.numItems >= 3
  {
    if s.numItems >= 3 {
      TailBand(ar, s, num, u);
    } else {
      TwoItemsGrown(ar, s, num, u);
    }
  }

  // The least value of the third branch.
  function Floor2(s: State, num: nat): nat
    requires s.numItems > 0
  {
    s.base + 2 * num / s.numItems
  }

  // The three bands of u and what each yields; the thresholds are those of the items' weights.
  lemma Bands(ar: Arithmetic, s: State, num: nat, u: real)
    requires Exact(ar) && Coherent(ar, s) && s.numItems >= 3
    requires 2 <= num && s.base + num <= TWO_64 && 0.0 <= u < 1.0
    ensures s.zetaN == WeightSum(ar, s.nForZeta) > 0.0 && Drawn(ar, s, num, u).Some?
    ensures var v, sum := Drawn(ar, s, num, u).value, WeightSum(ar, s.nForZeta);
            if u < ar.weight(1) / sum then v == 0
            else if u < ar.weight(1) / sum + ar.weight(2) / sum then v == 1
            else Floor2(s, num) <= v <= s.base + num - 1
  {
    ZetaPastTwo(ar, s);
    ZetaIsSum(ar, s.nForZeta);
    Threshold(u, s.zetaN, 1.0);
    Threshold(u, s.zetaN, 1.0 + ar.half);
    DivideSum(1.0, ar.half, s.zetaN);
    if InTail(ar, s, u) {
      TailBand(ar, s, num, u);
    }
  }

  // Beyond the first two items, the draw yields base + j or more exactly on a share of the
  // draws that falls with the power of j / num as the power of 2 / numItems falls to the
  // whole of the branch.
  lemma TailThreshold(ar: Arithmetic, s: State, num: nat, u: real, j: nat)
    requires Exact(ar) && Coherent(ar, s) && s.numItems >= 3
    requires s.base + num <= TWO_64 && 0.0 <= u < 1.0 && 0 < j <= num
    requires u * WeightSum(ar, s.nForZeta) >= ar.weight(1) + ar.weight(2)
    ensures WeightSum(ar, s.nForZeta) > 0.0 && Drawn(ar, s, num, u).Some?
    ensures Drawn(ar, s, num, u).value >= s.base + j
            <==> (1.0 - u) * (1.0 - ar.power(2.0 / s.numItems as real))
                 <= (1.0 - ar.power(j as real / num as real))
                    * (1.0 - (ar.weight(1) + ar.weight(2)) / WeightSum(ar, s.nForZeta))
  {
    hide Coherent, Tail, WeightSum, TailArgument, Scaled;
    ZetaOfWeights(ar, s);
    BandsOf(ar, s, u);
    assert InTail(ar, s, u);
    hide Exact, InTail;
    TailReaches(ar, s, num, u, j);
    EtaReaches(ar, s, u, ar.power(j as real / num as real));
  }

  lemma ZetaOfWeights(ar: Arithmetic, s: State)
    requires Exact(ar) && Coherent(ar, s)
    ensures s.zeta2 == ar.weight(1) + ar.weight(2) && s.zetaN == WeightSum(ar, s.nForZeta) > 0.0
  {
    ZetaPastTwo(ar, s);
    ZetaIsSum(ar, s.nForZeta);
  }

  lemma TailReaches(ar: Arithmetic, s: State, num: nat, u: real, j: nat)
    requires Exact(ar) && Coherent(ar, s) && s.numItems >= 3
    requires s.base + num <= TWO_64 && 0.0 <= u < 1.0 && InTail(ar, s, u) && 0 < j <= num
    ensures s.eta.Some? && Tail(ar, s, num, u).Some?
    ensures Tail(ar, s, num, u).value >= s.base + j
            <==> TailArgument(s.eta.value, u) >= ar.power(j as real / num as real)
  {
    TailArgumentBounds(ar, s, u);
    TailBand(ar, s, num, u);
    hide Exact, Coherent, InTail, TailArgument, Scaled;
    var arg := TailArgument(s.eta.value, u);
    PowerIsPositive(ar, s.numItems);
    ShareIsPart(j, num);
    RootReaches(ar, arg, j as real / num as real);
    ScaledReaches(s.base, num, j, ar.root(arg));
    TailIsFloor(Scaled(s.base, num, ar.root(arg)));
  }

  lemma PowerIsPositive(ar: Arithmetic, items: nat)
    requires Exact(ar) && items >= 3
    ensures 0.0 < ar.power(2.0 / items as real) < 1.0
  {
    var share := 2.0 / items as real;
    assert 0.0 < share < 1.0;
  }

  lemma TailIsFloor(x: real)
    ensures ToUint64(x).Some? && x >= 0.0 ==> ToUint64(x).value == x.Floor
    ensures ToUint64(x).Some? ==> x > -1.0
    ensures ToUint64(x).Some? && x < 0.0 ==> ToUint64(x).value == 0
  {
  }

  // Where the argument of the power reaches a value.
  lemma EtaReaches(ar: Arithmetic, s: State, u: real, w: real)
    requires Exact(ar) && Coherent(ar, s) && s.numItems >= 3
    requires 0.0 <= u < 1.0 && InTail(ar, s, u)
    ensures s.zetaN > 0.0 && s.eta.Some?
    ensures TailArgument(s.eta.value, u) >= w
            <==> (1.0 - u) * (1.0 - ar.power(2.0 / s.numItems as real)) <= (1.0 - w) * (1.0 - s.zeta2 / s.zetaN)
  {
    ZetaPastTwo(ar, s);
    PowerIsPositive(ar, s.numItems);
    QuotientBelow(s.zeta2, s.zetaN, u);
    var e := s.eta.value;
    ArgumentReaches(ar.power(2.0 / s.numItems as real), s.zeta2 / s.zetaN, w, e, u, TailArgument(e, u));
  }

  lemma ShareIsPart(j: nat, num: nat)
    requires 0 < j <= num
    ensures 0.0 < j as real / num as real <= 1.0
  {
    var n := num as real;
    CompareFactors(j as real / n, 1.0, n, j as real, n);
  }

  lemma RootReaches(ar: Arithmetic, x: real, q: real)
    requires Exact(ar) && 0.0 < x < 1.0 && 0.0 < q <= 1.0
    ensures ar.root(x) >= q <==> x >= ar.power(q)
  {
    var w := ar.power(q);
    assert 0.0 < w <= 1.0 && ar.root(w) == q;
  }

  lemma ArgumentReaches(p: real, r: real, w: real, e: real, u: real, arg: real)
    requires r < 1.0 && p < 1.0 && e == (1.0 - p) / (1.0 - r) && arg == TailArgument(e, u)
    ensures arg >= w <==> (1.0 - u) * (1.0 - p) <= (1.0 - w) * (1.0 - r)
  {
    var a, b := 1.0 - u, 1.0 - r;
    QuotientTimes(1.0 - p, b);
    ArgumentBelowOne(e, u);
    assert e * b == 1.0 - p;
    assert (e * a) * b == a * (1.0 - p);
    CompareFactors(e * a, 1.0 - w, b, a * (1.0 - p), (1.0 - w) * b);
    CompareFactors(1.0 - w, e * a, b, (1.0 - w) * b, a * (1.0 - p));
  }

  lemma ScaledReaches(base: nat, num: nat, j: nat, q: real)
    requires num > 0
    ensures Scaled(base, num, q).Floor >= base + j <==> q >= j as real / num as real
  {
    var n := num as real;
    var share := j as real / n;
    assert share * n == j as real;
    assert q * n == n * q;
    CompareFactors(q, share, n, n * q, j as real);
    CompareFactors(share, q, n, j as real, n * q);
  }

  lemma Threshold(u: real, z: real, t: real)
    requires z > 0.0
    ensures Scale(u, z) < t <==> u < t / z
  {
    var d := t / z;
    assert d * z == t;
    CompareFactors(u, d, z, Scale(u, z), t);
    CompareFactors(d, u, z, t, Scale(u, z));
  }

  // The third branch grows with u.
  lemma TailGrows(ar: Arithmetic, s: State, num: nat, u: real, v: real)
    requires Exact(ar) && Coherent(ar, s) && s.numItems >= 3
    requires 2 <= num && s.base + num <= TWO_64 && 0.0 <= u <= v < 1.0 && InTail(ar, s, u) && InTail(ar, s, v)
    ensures Tail(ar, s, num, u).Some? && Tail(ar, s, num, v).Some?
    ensures Tail(ar, s, num, u).value <= Tail(ar, s, num, v).value
  {
    TailBand(ar, s, num, u);
    TailBand(ar, s, num, v);
    TailArgumentBounds(ar, s, u);
    TailArgumentBounds(ar, s, v);
    var e := s.eta.value;
    var x, y := TailArgument(e, u), TailArgument(e, v);
    ArgumentGrows(e, u, v);
    RootMonotone(ar, x, y);
    ScaledGrows(s.base, num, ar.root(x), ar.root(y));
  }

  lemma ArgumentGrows(e: real, u: real, v: real)
    requires u <= v < 1.0 && TailArgument(e, u) < 1.0
    ensures TailArgument(e, u) <= TailArgument(e, v)
  {
    EtaIsPositive(e, u, TailArgument(e, u));
    assert e * (v - u) >= 0.0;
    assert TailArgument(e, v) - TailArgument(e, u) == e * (v - u);
  }

  lemma EtaIsPositive(e: real, u: real, x: real)
    requires u < 1.0 && x == TailArgument(e, u) < 1.0
    ensures e > 0.0
  {
    assert e * (1.0 - u) == 1.0 - x;
    CompareFactors(0.0, e, 1.0 - u, 0.0, 1.0 - x);
  }

  lemma ScaledGrows(base: nat, num: nat, q: real, r: real)
    requires q <= r
    ensures Scaled(base, num, q).Floor <= Scaled(base, num, r).Floor
  {
    assert num as real * (r - q) >= 0.0;
  }

  // The draw whose power in the third branch is a given share of the range.
  lemma TailAt(ar: Arithmetic, s: State, num: nat, share: real) returns (u: real)
    requires Exact(ar) && Coherent(ar, s) && s.numItems >= 3
    requires 2.0 / s.numItems as real <= share < 1.0
    ensures s.zetaN > 0.0 && 0.0 <= 1.0 / s.zetaN < u < 1.0 && InTail(ar, s, u)
    ensures Tail(ar, s, num, u) == ToUint64(Scaled(s.base, num, share))
  {
    ZetaPastTwo(ar, s);
    var least := 2.0 / s.numItems as real;
    assert 0.0 < least < 1.0;
    var p, q, r := ar.power(least), ar.power(share), s.zeta2 / s.zetaN;
    assert p <= q < 1.0 && ar.root(q) == share;
    assert q > 0.0;
    StartPoint(s.zeta2, s.zetaN);
    u := PointOfArgument(p, q, r);
    assert s.eta == Some((1.0 - p) / (1.0 - r));
    ScaleGrows(r, u, s.zetaN);
  }

  lemma PointOfArgument(p: real, q: real, r: real) returns (u: real)
    requires p <= q < 1.0 && r < 1.0
    ensures r <= u < 1.0 && TailArgument((1.0 - p) / (1.0 - r), u) == q
  {
    var e := (1.0 - p) / (1.0 - r);
    QuotientTimes(1.0 - p, 1.0 - r);
    var rest := (1.0 - q) / e;
    QuotientTimes(1.0 - q, e);
    u := 1.0 - rest;
    assert e * rest == 1.0 - q;
    CompareFactors(rest, 1.0 - r, e, 1.0 - q, 1.0 - p);
    assert TailArgument(e, u) == 1.0 - e * rest;
  }

  // Where the third branch begins, it yields its least value.
  lemma TailStart(ar: Arithmetic, s: State, num: nat) returns (u: real)
    requires Exact(ar) && Coherent(ar, s) && s.numItems >= 3
    requires 2 <= num && s.base + num <= TWO_64
    ensures s.zetaN > 0.0 && 0.0 <= 1.0 / s.zetaN < u < 1.0 && InTail(ar, s, u)
    ensures Tail(ar, s, num, u) == Some(Floor2(s, num))
  {
    var share := 2.0 / s.numItems as real;
    assert share < 1.0;
    u := TailAt(ar, s, num, share);
    ShareFloorExact(s.base, num, s.numItems);
    ShareFits(num, s.numItems);
    FloorFits(Scaled(s.base, num, share));
  }

  // Asked for as many items as it has, a generator with base 0 draws every one of them and
  // no other number.
  lemma EveryItemIsDrawn(ar: Arithmetic, s: State, k: nat) returns (u: real)
    requires Exact(ar) && Coherent(ar, s) && s.base == 0 && s.nForZeta == s.numItems && k < s.numItems
    ensures 0.0 <= u < 1.0 && Drawn(ar, s, s.numItems, u) == Some(k)
  {
    ZetaPastTwo(ar, s);
    if k == 0 {
      u := 0.0;
    } else if k == 1 {
      u := 1.0 / s.zetaN;
      Threshold(u, s.zetaN, 1.0);
      Threshold(u, s.zetaN, 1.0 + ar.half);
      FirstPoint(s.zetaN, ar.half);
    } else {
      u := TailAt(ar, s, s.numItems, ShareOf(k, s.numItems));
      ItemOfShare(k, s.numItems);
      FloorFits(Scaled(0, s.numItems, ShareOf(k, s.numItems)));
    }
  }

  function ShareOf(k: nat, items: nat): (q: real)
    requires items > 0
    ensures 2 <= k < items ==> 2.0 / items as real <= q < 1.0
  {
    var n := items as real;
    CompareFactors(2.0 / n, k as real / n, n, 2.0, k as real);
    CompareFactors(k as real / n, 1.0, n, k as real, n);
    k as real / n
  }

  lemma ItemOfShare(k: nat, items: nat)
    requires items > 0
    ensures Scaled(0, items, ShareOf(k, items)).Floor == k
  {
    assert items as real * (k as real / items as real) == k as real;
  }

  lemma FirstPoint(z: real, half: real)
    requires 1.0 + half <= z && half > 0.0
    ensures 0.0 < 1.0 / z < 1.0 && 1.0 / z < (1.0 + half) / z
  {
    QuotientTimes(1.0, z);
    QuotientTimes(1.0 + half, z);
    CompareFactors(1.0 / z, (1.0 + half) / z, z, 1.0, 1.0 + half);
    CompareFactors(1.0 / z, 1.0, z, 1.0, z);
  }

  lemma StartPoint(zeta2: real, zetaN: real)
    requires 1.0 < zeta2 < zetaN
    ensures 0.0 < 1.0 / zetaN < zeta2 / zetaN < 1.0
    ensures Scale(zeta2 / zetaN, zetaN) == zeta2
  {
    QuotientBelow(zeta2, zetaN, zeta2 / zetaN);
    Threshold(1.0 / zetaN, zetaN, zeta2);
    QuotientTimes(1.0, zetaN);
  }

  lemma ShareFits(num: nat, items: nat)
    requires items >= 3 && num > 0
    ensures 2 * num / items < num
  {
    assert 3 * (2 * num / items) <= items * (2 * num / items) <= 2 * num;
  }

  lemma ShareFloorExact(base: nat, num: nat, items: nat)
    requires items > 0
    ensures Scaled(base, num, 2.0 / items as real).Floor == base + 2 * num / items
  {
    var k := 2 * num / items;
    var share := 2.0 / items as real;
    ShareFloor(num, items);
    var x := num as real * share;
    assert share * items as real == 2.0;
    assert x * items as real == num as real * (share * items as real) == (2 * num) as real;
    assert 2 * num < (k + 1) * items;
    assert ((k + 1) * items) as real == (k + 1) as real * items as real;
    CompareFactors(x, (k + 1) as real, items as real, (2 * num) as real, ((k + 1) * items) as real);
  }

  // What a generator of two items draws.
  lemma DrawOfTwo(ar: Arithmetic, s: State, num: nat, u: real)
    requires Exact(ar) && Coherent(ar, s) && s.numItems == 2
    requires 2 <= num && s.base + num <= TWO_64 && 0.0 <= u < 1.0
    ensures s.zetaN > 0.0 && (InTail(ar, s, u) ==> s.nForZeta > 2)
    ensures Drawn(ar, s, num, u)
            == if Scale(u, s.zetaN) < 1.0 then Some(0)
               else if !InTail(ar, s, u) then Some(1)
               else if s.base + num < TWO_64 then Some(s.base + num)
               else None
  {
    hide Exact, Coherent, Tail, Scale;
    AtLeastTwoItems(ar, s);
    ZetaPastTwo(ar, s);
    if s.nForZeta == 2 {
      TwoItems(ar, s, num, u);
    }
    if InTail(ar, s, u) {
      TailOfTwo(ar, s, num, u);
    }
  }

  lemma TailOfTwo(ar: Arithmetic, s: State, num: nat, u: real)
    requires Exact(ar) && Coherent(ar, s) && s.numItems == 2 && s.base + num <= TWO_64
    requires 0.0 <= u < 1.0 && InTail(ar, s, u)
    ensures Tail(ar, s, num, u) == if s.base + num < TWO_64 then Some(s.base + num) else None
  {
    if s.base + num < TWO_64 {
      TwoItemsGrown(ar, s, num, u);
    } else {
      EtaOfTwoGrown(ar, s, u);
      RootOfOne(ar);
      assert TailArgument(0.0, u) == 1.0;
      assert Scaled(s.base, num, 1.0) == TWO_64 as real;
    }
  }

  // Two items that grew do have draws in the third branch.
  lemma TailOfTwoStarts(ar: Arithmetic, s: State) returns (u: real)
    requires Exact(ar) && Coherent(ar, s) && s.nForZeta > 2
    ensures 0.0 <= u < 1.0 && InTail(ar, s, u)
  {
    ZetaPastTwo(ar, s);
    StartPoint(s.zeta2, s.zetaN);
    u := s.zeta2 / s.zetaN;
  }

  // Every draw has a value, unless two items grew to fill the 64-bit range.
  lemma DrawsAreDefined(ar: Arithmetic, s: State, num: nat)
    requires Exact(ar) && Coherent(ar, s)
    requires 2 <= num && s.base + num <= TWO_64
    ensures (forall u: real | 0.0 <= u < 1.0 :: Drawn(ar, s, num, u).Some?)
            <==> s.numItems >= 3 || s.nForZeta == 2 || s.base + num < TWO_64
  {
    hide Exact, Coherent, Drawn, Tail, InTail;
    if s.numItems >= 3 {
      forall u: real | 0.0 <= u < 1.0
        ensures Drawn(ar, s, num, u).Some?
      {
        Bands(ar, s, num, u);
      }
    } else {
      AtLeastTwoItems(ar, s);
      forall u: real | 0.0 <= u < 1.0
        ensures Drawn(ar, s, num, u).Some? <==> !InTail(ar, s, u) || s.base + num < TWO_64
        ensures InTail(ar, s, u) ==> s.nForZeta > 2
      {
        DrawOfTwo(ar, s, num, u);
        BandsOf(ar, s, u);
      }
      if s.nForZeta > 2 {
        var u := TailOfTwoStarts(ar, s);
        assert Drawn(ar, s, num, u).Some? <==> s.base + num < TWO_64;
      }
    }
  }

  lemma AtLeastTwoItems(ar: Arithmetic, s: State)
    requires Coherent(ar, s)
    ensures 2 <= s.numItems <= s.nForZeta
  {
  }

  // The third branch lies above the other two.
  lemma BandsOf(ar: Arithmetic, s: State, u: real)
    requires Exact(ar)
    ensures InTail(ar, s, u) ==> Scale(u, s.zetaN) >= 1.0
  {
    assert ar.weight(2) > 0.0;
  }

  // With base 0 a draw is below num, except for the third branch of two items that grew.
  lemma RankInRange(ar: Arithmetic, s: State, num: nat, u: real)
    requires Exact(ar) && Coherent(ar, s) && s.base == 0
    requires 2 <= num < TWO_64 && 0.0 <= u < 1.0
    ensures Drawn(ar, s, num, u).Some? && Drawn(ar, s, num, u).value <= num
    ensures Drawn(ar, s, num, u).value == num <==> s.numItems == 2 && InTail(ar, s, u)
  {
    hide Exact, Coherent, Drawn, InTail;
    AtLeastTwoItems(ar, s);
    if s.numItems >= 3 {
      Bands(ar, s, num, u);
    } else {
      DrawOfTwo(ar, s, num, u);
      BandsOf(ar, s, u);
    }
  }

  // Next grows with u exactly when the third branch cannot yield 0.
  lemma DrawIsMonotone(ar: Arithmetic, s: State, num: nat)
    requires Exact(ar) && Coherent(ar, s)
    requires 2 <= num && s.base + num <= TWO_64
    ensures (forall u: real, v: real |
               0.0 <= u <= v < 1.0 && Drawn(ar, s, num, u).Some? && Drawn(ar, s, num, v).Some? ::
               Drawn(ar, s, num, u).value <= Drawn(ar, s, num, v).value)
            <==> Floor2(s, num) >= 1
  {
    hide Exact, Coherent, Drawn, Floor2;
    AtLeastTwoItems(ar, s);
    if Floor2(s, num) >= 1 {
      forall u: real, v: real |
        0.0 <= u <= v < 1.0 && Drawn(ar, s, num, u).Some? && Drawn(ar, s, num, v).Some?
        ensures Drawn(ar, s, num, u).value <= Drawn(ar, s, num, v).value
      {
        if s.numItems >= 3 {
          DrawGrows(ar, s, num, u, v);
        } else {
          DrawOfTwoGrows(ar, s, num, u, v);
        }
      }
    } else {
      FloorOfTwo(ar, s, num);
      var u, v := DrawFalls(ar, s, num);
    }
  }

  lemma FloorOfTwo(ar: Arithmetic, s: State, num: nat)
    requires Coherent(ar, s) && 2 <= num
    ensures Floor2(s, num) == 0 ==> s.numItems >= 3
  {
  }

  lemma DrawOfTwoGrows(ar: Arithmetic, s: State, num: nat, u: real, v: real)
    requires Exact(ar) && Coherent(ar, s) && s.numItems < 3
    requires 2 <= num && s.base + num <= TWO_64 && 0.0 <= u <= v < 1.0
    requires Drawn(ar, s, num, u).Some? && Drawn(ar, s, num, v).Some?
    ensures Drawn(ar, s, num, u).value <= Drawn(ar, s, num, v).value
  {
    hide Exact, Coherent, Drawn;
    AtLeastTwoItems(ar, s);
    DrawOfTwo(ar, s, num, u);
    DrawOfTwo(ar, s, num, v);
    ScaleGrows(u, v, s.zetaN);
  }

  // A third branch that starts at 0 comes after draws of 1.
  lemma DrawFalls(ar: Arithmetic, s: State, num: nat) returns (u: real, v: real)
    requires Exact(ar) && Coherent(ar, s) && s.numItems >= 3
    requires 2 <= num && s.base + num <= TWO_64 && Floor2(s, num) == 0
    ensures 0.0 <= u <= v < 1.0 && Drawn(ar, s, num, u) == Some(1) && Drawn(ar, s, num, v) == Some(0)
  {
    v := TailStart(ar, s, num);
    u := 1.0 / s.zetaN;
    Bands(ar, s, num, u);
    ZetaPastTwo(ar, s);
    QuotientTimes(ar.half, s.zetaN);
  }

  lemma DrawGrows(ar: Arithmetic, s: State, num: nat, u: real, v: real)
    requires Exact(ar) && Coherent(ar, s) && s.numItems >= 3
    requires 2 <= num && s.base + num <= TWO_64 && 0.0 <= u <= v < 1.0
    requires Floor2(s, num) >= 1
    ensures Drawn(ar, s, num, u).Some? && Drawn(ar, s, num, v).Some?
    ensures Drawn(ar, s, num, u).value <= Drawn(ar, s, num, v).value
  {
    Bands(ar, s, num, u);
    Bands(ar, s, num, v);
    ZetaPastTwo(ar, s);
    ScaleGrows(u, v, s.zetaN);
    if InTail(ar, s, u) {
      TailGrows(ar, s, num, u, v);
    } else if InTail(ar, s, v) {
      TailBand(ar, s, num, v);
    }
  }

  lemma ScaleGrows(u: real, v: real, z: real)
    requires u <= v && z > 0.0
    ensures Scale(u, z) <= Scale(v, z)
  {
    assert (v - u) * z >= 0.0;
  }

  // Every draw lies in [base, base + num) exactly when base is 0, since the first two branches
  // do not add it, and the generator was not created with two items and asked for more.
  lemma DrawIsInRange(ar: Arithmetic, s: State, num: nat)
    requires Exact(ar) && Coherent(ar, s)
    requires 2 <= num && s.base + num <= TWO_64
    ensures (forall u: real | 0.0 <= u < 1.0 ::
               Drawn(ar, s, num, u).Some? && s.base <= Drawn(ar, s, num, u).value <= s.base + num - 1)
            <==> s.base == 0 && (s.numItems >= 3 || s.nForZeta == 2)
  {
    hide Exact, Coherent, Drawn, InTail;
    AtLeastTwoItems(ar, s);
    FirstDraw(ar, s, num);
    if s.numItems >= 3 {
      forall u: real | 0.0 <= u < 1.0
        ensures Drawn(ar, s, num, u).Some?
        ensures s.base == 0 ==> Drawn(ar, s, num, u).value <= num - 1
      {
        Bands(ar, s, num, u);
      }
    } else {
      forall u: real | 0.0 <= u < 1.0
        ensures s.nForZeta == 2 ==> Drawn(ar, s, num, u).Some? && Drawn(ar, s, num, u).value <= 1
      {
        DrawOfTwo(ar, s, num, u);
      }
      if s.nForZeta > 2 {
        var u := TailOfTwoStarts(ar, s);
        BandsOf(ar, s, u);
        DrawOfTwo(ar, s, num, u);
      }
    }
  }

  lemma FirstDraw(ar: Arithmetic, s: State, num: nat)
    ensures Drawn(ar, s, num, 0.0) == Some(0)
  {
    assert Scale(0.0, s.zetaN) == 0.0;
  }
}
