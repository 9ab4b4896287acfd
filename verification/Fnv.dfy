// 64-bit FNV-1a as the workload uses it: the eight octets of a key number, least
// significant first, are folded into a 64-bit state (core/utils.h).

module Fnv {
  import opened Words

  const OFFSET_BASIS: Word := 0xCBF2_9CE4_8422_2325
  const PRIME := 1099511628211

  // The inverse of PRIME modulo 2^64.
  const PRIME_INVERSE := 0xCE96_5057_AFF6_957B

  type Octet = x: int | 0 <= x < 256

  // Bitwise exclusive or, bit by bit, of naturals of any width.
  function Xor(a: nat, b: nat): nat {
    if a == 0 && b == 0 then 0 else 2 * Xor(a / 2, b / 2) + XorBit(a % 2, b % 2)
  }

  function XorBit(s: nat, t: nat): nat {
    if s == t then 0 else 1
  }

  lemma XorStep(x: nat, s: nat, y: nat, t: nat)
    requires s < 2 && t < 2
    ensures Xor(2 * x + s, 2 * y + t) == 2 * Xor(x, y) + XorBit(s, t)
  {
    assert (2 * x + s) / 2 == x && (2 * y + t) / 2 == y;
  }

  lemma {:induction false} XorUndoes(a: nat, b: nat)
    ensures Xor(a, Xor(a, b)) == b
    decreases a + b
  {
    if a != 0 || b != 0 {
      var x, s, y, t := a / 2, a % 2, b / 2, b % 2;
      var z, u := Xor(x, y), XorBit(s, t);
      XorUndoes(x, y);
      assert a == 2 * x + s && b == 2 * y + t;
      XorStep(x, s, y, t);
      XorStep(x, s, z, u);
    }
  }

  lemma {:induction false} XorCommutes(a: nat, b: nat)
    ensures Xor(a, b) == Xor(b, a)
    decreases a + b
  {
    if a != 0 || b != 0 {
      XorCommutes(a / 2, b / 2);
    }
  }

  // a shifted left by n bits.
  ghost function Shift(a: nat, n: nat): nat {
    if n == 0 then a else 2 * Shift(a, n - 1)
  }

  // The high and the low bits have exclusive ors of their own.
  lemma {:induction false} XorSplits(p: nat, q: nat, r: nat, s: nat, n: nat)
    requires q < Shift(1, n) && s < Shift(1, n)
    ensures Xor(q, s) < Shift(1, n)
    ensures Xor(Shift(p, n) + q, Shift(r, n) + s) == Shift(Xor(p, r), n) + Xor(q, s)
    decreases n
  {
    hide Xor;
    if n == 0 {
      XorZero(0);
    } else {
      XorSplits(p, q / 2, r, s / 2, n - 1);
      XorCarriesUp(Shift(p, n - 1), q, Shift(r, n - 1), s, Shift(Xor(p, r), n - 1));
    }
  }

  lemma XorCarriesUp(m: nat, a: nat, l: nat, b: nat, k: nat)
    requires Xor(m + a / 2, l + b / 2) == k + Xor(a / 2, b / 2)
    ensures Xor(2 * m + a, 2 * l + b) == 2 * k + Xor(a, b)
    ensures Xor(a, b) <= 2 * Xor(a / 2, b / 2) + 1
  {
    hide Xor;
    var x, s, y, t := a / 2, a % 2, b / 2, b % 2;
    assert a == 2 * x + s && b == 2 * y + t;
    XorStep(x, s, y, t);
    XorStep(m + x, s, l + y, t);
    assert 2 * m + a == 2 * (m + x) + s && 2 * l + b == 2 * (l + y) + t;
  }

  lemma {:induction false} ShiftZero(n: nat)
    ensures Shift(0, n) == 0
  {
    if n > 0 {
      ShiftZero(n - 1);
    }
  }

  lemma {:induction false} XorZero(a: nat)
    ensures Xor(a, 0) == a
  {
    if a != 0 {
      XorZero(a / 2);
    }
  }

  // Folding an octet into a state changes only the low octet of the state.
  lemma XorOctet(h: Word, o: Octet)
    ensures Xor(h % 256, o) < 256
    ensures Xor(h, o) == 256 * (h / 256) + Xor(h % 256, o) < TWO_64
  {
    hide Xor, Shift;
    ShiftOctet(1);
    ShiftOctet(h / 256);
    ShiftZero(8);
    XorZero(h / 256);
    XorSplits(h / 256, h % 256, 0, o, 8);
  }

  lemma ShiftOctet(a: nat)
    ensures Shift(a, 8) == 256 * a
  {
    assert Shift(a, 1) == 2 * a;
    assert Shift(a, 3) == 8 * a;
    assert Shift(a, 5) == 32 * a;
    assert Shift(a, 7) == 128 * a;
  }

  // One iteration of the hash loop.
  function Round(h: Word, o: Octet): (r: Word) {
    Xor(h, o) * PRIME % TWO_64
  }

  function Fold(h: Word, octets: seq<Octet>): Word
    decreases |octets|
  {
    if octets == [] then h else Fold(Round(h, octets[0]), octets[1..])
  }

  // The n low octets of v, least significant first.
  function Octets(v: nat, n: nat): (s: seq<Octet>)
    ensures |s| == n
    decreases n, v
  {
    if n == 0 then [] else [v % 256] + Octets(v / 256, n - 1)
  }

  function Hash(v: Word): Word {
    Fold(OFFSET_BASIS, Octets(v, 8))
  }

  method FNVHash64(v: Word) returns (hash: Word)
    ensures hash == Hash(v)
  {
    hash := OFFSET_BASIS;
    var val := v;
    for i := 0 to 8
      invariant 0 <= val
      invariant Fold(hash, Octets(val, 8 - i)) == Hash(v)
    {
      var octet := val % 256;
      val := val / 256;
      XorOctet(hash, octet);
      hash := Xor(hash, octet) * PRIME % TWO_64;
    }
  }

  // ---- One round -------------------------------------------------------------------

  lemma CongruentWord(n: int, x: Word, k: int)
    requires n == x + TWO_64 * k
    ensures n % TWO_64 == x
  {
  }

  lemma MultiplyUndone(x: Word)
    ensures x * PRIME % TWO_64 * PRIME_INVERSE % TWO_64 == x
  {
    var q := x * PRIME / TWO_64;
    var y := x * PRIME - TWO_64 * q;
    assert y * PRIME_INVERSE == x + TWO_64 * (887285111055 * x - q * PRIME_INVERSE);
    CongruentWord(y * PRIME_INVERSE, x, 887285111055 * x - q * PRIME_INVERSE);
  }

  // The state a round started from, recovered from its result.
  function Unround(r: Word, o: Octet): (h: nat) {
    Xor(r * PRIME_INVERSE % TWO_64, o)
  }

  // For a fixed octet, a round is a bijection of the 64-bit states.
  lemma RoundIsBijection(h: Word, o: Octet)
    ensures Unround(Round(h, o), o) == h
    ensures Unround(h, o) < TWO_64 && Round(Unround(h, o), o) == h
  {
    XorOctet(h, o);
    MultiplyUndone(Xor(h, o));
    XorUndoesRight(h, o);
    var y := h * PRIME_INVERSE % TWO_64;
    XorOctet(y, o);
    XorUndoesRight(y, o);
    InverseMultiplyUndone(h);
  }

  lemma InverseMultiplyUndone(x: Word)
    ensures x * PRIME_INVERSE % TWO_64 * PRIME % TWO_64 == x
  {
    var q := x * PRIME_INVERSE / TWO_64;
    var y := x * PRIME_INVERSE - TWO_64 * q;
    assert y * PRIME == x + TWO_64 * (887285111055 * x - q * PRIME);
    CongruentWord(y * PRIME, x, 887285111055 * x - q * PRIME);
  }

  lemma XorUndoesRight(a: nat, b: nat)
    ensures Xor(Xor(a, b), b) == a
  {
    XorCommutes(a, b);
    XorCommutes(Xor(b, a), b);
    XorUndoes(b, a);
  }

  // Equal results of two rounds come from equal values under the multiplication.
  lemma RoundsMeet(h: Word, o: Octet, h': Word, o': Octet)
    requires Round(h, o) == Round(h', o')
    ensures Xor(h, o) == Xor(h', o')
  {
    XorOctet(h, o);
    XorOctet(h', o');
    MultiplyUndone(Xor(h, o));
    MultiplyUndone(Xor(h', o'));
  }

  function Difference(h: Word, h': Word): int {
    h as int - h' as int
  }

  // A difference of states, after a round whose octets add f to it.
  ghost predicate Moves(before: int, f: int, after: int, q: int) {
    after == PRIME * (before + f) - TWO_64 * q
  }

  // How the difference of two states moves through a round: f is what the two octets
  // add to it, and the multiplication is exact up to a multiple of 2^64.
  lemma RoundDifference(h: Word, o: Octet, h': Word, o': Octet) returns (f: int, q: int)
    ensures -510 <= f <= 510 && (h == h' ==> -255 <= f <= 255)
    ensures Moves(Difference(h, h'), f, Difference(Round(h, o), Round(h', o')), q)
    ensures h == h' && f == 0 ==> o == o'
    ensures f == (Xor(h % 256, o) - h % 256) - (Xor(h' % 256, o') - h' % 256)
  {
    XorOctet(h, o);
    XorOctet(h', o');
    f := (Xor(h, o) - h) - (Xor(h', o') - h');
    q := Xor(h, o) * PRIME / TWO_64 - Xor(h', o') * PRIME / TWO_64;
    if h == h' && f == 0 {
      XorUndoes(h, o);
      XorUndoes(h', o');
    }
  }

  // ---- Six octets ------------------------------------------------------------------

  // PRIME^2 .. PRIME^5 modulo 2^64.
  const PRIME_2 := 956575116354345
  const PRIME_3 := 624165263380053675
  const PRIME_4 := 11527715348014283921
  const PRIME_5 := 913917546033277539

  // What six octets add to the difference of two states: x5 comes from the first octet,
  // x1 from the fifth, and x0 is what is left for the sixth.
  datatype Deltas = Deltas(x0: int, x1: int, x2: int, x3: int, x4: int, x5: int) {
    predicate Small() {
      && -255 <= x0 <= 255 && -510 <= x1 <= 510 && -510 <= x2 <= 510
      && -510 <= x3 <= 510 && -510 <= x4 <= 510 && -255 <= x5 <= 255
    }

    function Relation(): int {
      x0 + PRIME * x1 + PRIME_2 * x2 + PRIME_3 * x3 + PRIME_4 * x4 + PRIME_5 * x5
    }

    // Six multiples of the relation, reduced modulo 2^64. The coefficients are small
    // enough to keep each of them below 2^64 on small deltas.
    function Dual0(): int {
      -2518874921680656 * x0 + 3431600937981904 * x1 + 4253954618046064 * x2 -
      7704392091402160 * x3 - 644476066068496 * x4 + 10117495039556816 * x5
    }

    function Dual1(): int {
      -8671412534092605 * x0 + 1040540266766169 * x1 - 6915764390345669 * x2 +
      1237812376006721 * x3 - 6415703093100941 * x4 + 964417354571113 * x5
    }

    function Dual2(): int {
      2434785518635867 * x0 - 521531150890079 * x1 - 7420022407511405 * x2 -
      2407835907481655 * x3 + 6373219910648459 * x4 - 1150927258463695 * x5
    }

    function Dual3(): int {
      -4410605614494224 * x0 - 5164142811992368 * x1 + 559839306353520 * x2 -
      5452110822838448 * x3 + 1535281643037936 * x4 - 6302646686563376 * x5
    }

    function Dual4(): int {
      -5046382459189116 * x0 + 4977183758088268 * x1 + 1178876700584228 * x2 +
      1973864442898476 * x3 + 5247281785750212 * x4 - 4482579670404340 * x5
    }

    function Dual5(): int {
      -8107455562062582 * x0 - 3509890893664258 * x1 - 84464088609638 * x2 +
      2833942984976814 * x3 + 1503490379027114 * x4 + 10753435092956894 * x5
    }
  }

  lemma DualsAreMultiples(d: Deltas, k: int) returns (n0: int, n1: int, n2: int, n3: int, n4: int, n5: int)
    requires d.Relation() == TWO_64 * k
    ensures d.Dual0() == TWO_64 * n0
    ensures d.Dual1() == TWO_64 * n1
    ensures d.Dual2() == TWO_64 * n2
    ensures d.Dual3() == TWO_64 * n3
    ensures d.Dual4() == TWO_64 * n4
    ensures d.Dual5() == TWO_64 * n5
  {
    n0 := -2518874921680656 * k + 150136645 * d.x1 + 130618881124 * d.x2 +
          85228819927790 * d.x3 + 1574092044555980 * d.x4 + 124794054603275 * d.x5;
    n1 := -8671412534092605 * k + 516856464 * d.x1 + 449665123591 * d.x2 +
          293406493123781 * d.x3 + 5418927858422929 * d.x4 + 429612729061213 * d.x5;
    n2 := 2434785518635867 * k - 145124526 * d.x1 - 126258337595 * d.x2 -
          82383565275305 * d.x3 - 1521543004020078 * d.x4 - 120627965424013 * d.x5;
    n3 := -4410605614494224 * k + 262892581 * d.x1 + 228716545425 * d.x2 +
          149237545879972 * d.x3 + 2756269932139765 * d.x4 + 218517145552210 * d.x5;
    n4 := -5046382459189116 * k + 300787834 * d.x1 + 261685415528 * d.x2 +
          170749733620761 * d.x3 + 3153578772183078 * d.x4 + 250015799808299 * d.x5;
    n5 := -8107455562062582 * k + 483242009 * d.x1 + 420420547747 * d.x2 +
          274324407386829 * d.x3 + 5066500599926096 * d.x4 + 401672287653962 * d.x5;
  }

  lemma Dual0Vanishes(d: Deltas, n: int)
    requires d.Small() && d.Dual0() == TWO_64 * n
    ensures d.Dual0() == 0
  {
  }

  lemma Dual1Vanishes(d: Deltas, n: int)
    requires d.Small() && d.Dual1() == TWO_64 * n
    ensures d.Dual1() == 0
  {
  }

  lemma Dual2Vanishes(d: Deltas, n: int)
    requires d.Small() && d.Dual2() == TWO_64 * n
    ensures d.Dual2() == 0
  {
  }

  lemma Dual3Vanishes(d: Deltas, n: int)
    requires d.Small() && d.Dual3() == TWO_64 * n
    ensures d.Dual3() == 0
  {
  }

  lemma Dual4Vanishes(d: Deltas, n: int)
    requires d.Small() && d.Dual4() == TWO_64 * n
    ensures d.Dual4() == 0
  {
  }

  lemma Dual5Vanishes(d: Deltas, n: int)
    requires d.Small() && d.Dual5() == TWO_64 * n
    ensures d.Dual5() == 0
  {
  }

  lemma DualsDetermine(d: Deltas)
    ensures TWO_64 * d.x0 ==
              -132 * d.Dual0() - 638 * d.Dual1() + 338 * d.Dual2() - 697 * d.Dual3() - 847 * d.Dual4() - 544 * d.Dual5()
    ensures TWO_64 * d.x1 ==
              811 * d.Dual0() + 527 * d.Dual1() + 95 * d.Dual2() - 1115 * d.Dual3() + 1225 * d.Dual4() - 943 * d.Dual5()
    ensures TWO_64 * d.x2 ==
              181 * d.Dual0() - 970 * d.Dual1() - 1392 * d.Dual2() + 348 * d.Dual3() + 387 * d.Dual4() + 133 * d.Dual5()
    ensures TWO_64 * d.x3 ==
              -1232 * d.Dual0() - 191 * d.Dual1() - 551 * d.Dual2()
              - 943 * d.Dual3() + 356 * d.Dual4() + 713 * d.Dual5()
    ensures TWO_64 * d.x4 ==
              -48 * d.Dual0() - 939 * d.Dual1() + 995 * d.Dual2() + 106 * d.Dual3() + 926 * d.Dual4() + 684 * d.Dual5()
    ensures TWO_64 * d.x5 ==
              498 * d.Dual0() - 135 * d.Dual1() + 281 * d.Dual2() - 653 * d.Dual3() - 459 * d.Dual4() + 715 * d.Dual5()
  {
  }

  // The only small integer relation between 1 and the powers of PRIME modulo 2^64 is the
  // trivial one: each dual is a multiple of 2^64 and smaller than 2^64, so it is zero, and
  // the six of them determine the six unknowns.
  lemma NoSmallRelation(d: Deltas, k: int)
    requires d.Small() && d.Relation() == TWO_64 * k
    ensures d == Deltas(0, 0, 0, 0, 0, 0)
  {
    var n0, n1, n2, n3, n4, n5 := DualsAreMultiples(d, k);
    Dual0Vanishes(d, n0);
    Dual1Vanishes(d, n1);
    Dual2Vanishes(d, n2);
    Dual3Vanishes(d, n3);
    Dual4Vanishes(d, n4);
    Dual5Vanishes(d, n5);
    DualsDetermine(d);
  }

  // Two runs of six octets that meet, as deltas in a relation; zero deltas come from
  // equal octets only.
  lemma MeetingRuns(h: Word, a: seq<Octet>, b: seq<Octet>) returns (d: Deltas, k: int)
    requires |a| == |b| == 6
    requires Fold(h, a) == Fold(h, b)
    ensures d.Small() && d.Relation() == TWO_64 * k
    ensures d == Deltas(0, 0, 0, 0, 0, 0) ==> forall i | 0 <= i < 6 :: a[i] == b[i]
  {
    var s1, t1 := Round(h, a[0]), Round(h, b[0]);
    var s2, t2 := Round(s1, a[1]), Round(t1, b[1]);
    var s3, t3 := Round(s2, a[2]), Round(t2, b[2]);
    var s4, t4 := Round(s3, a[3]), Round(t3, b[3]);
    var s5, t5 := Round(s4, a[4]), Round(t4, b[4]);
    SixRounds(h, a);
    SixRounds(h, b);
    LastRound(s5, a[5], t5, b[5]);
    var x5, q1 := RoundDifference(h, a[0], h, b[0]);
    var x4, q2 := RoundDifference(s1, a[1], t1, b[1]);
    var x3, q3 := RoundDifference(s2, a[2], t2, b[2]);
    var x2, q4 := RoundDifference(s3, a[3], t3, b[3]);
    var x1, q5 := RoundDifference(s4, a[4], t4, b[4]);
    d := Deltas(Difference(t5, s5), x1, x2, x3, x4, x5);
    k := Unroll(d, Difference(s1, t1), Difference(s2, t2), Difference(s3, t3), Difference(s4, t4), q1, q2, q3, q4, q5);
  }

  // Two runs of six octets from one state meet only if the octets are the same.
  lemma SixOctets(h: Word, a: seq<Octet>, b: seq<Octet>)
    requires |a| == |b| == 6
    requires Fold(h, a) == Fold(h, b)
    ensures a == b
  {
    var d, k := MeetingRuns(h, a, b);
    NoSmallRelation(d, k);
  }

  lemma LastRound(h: Word, o: Octet, h': Word, o': Octet)
    requires Round(h, o) == Round(h', o')
    ensures -255 <= h - h' <= 255
    ensures h == h' ==> o == o'
  {
    RoundsMeet(h, o, h', o');
    XorOctet(h, o);
    XorOctet(h', o');
    assert h / 256 == h' / 256;
    XorUndoes(h, o);
    XorUndoes(h', o');
  }

  lemma SixRounds(h: Word, a: seq<Octet>)
    requires |a| == 6
    ensures Fold(h, a) == Round(Round(Round(Round(Round(Round(h, a[0]), a[1]), a[2]), a[3]), a[4]), a[5])
  {
    FirstRound(h, a);
    FirstRound(Round(h, a[0]), a[1..]);
    var s2 := Round(Round(h, a[0]), a[1]);
    FirstRound(s2, a[2..]);
    FirstRound(Round(s2, a[2]), a[3..]);
    var s4 := Round(Round(s2, a[2]), a[3]);
    FirstRound(s4, a[4..]);
    FirstRound(Round(s4, a[4]), a[5..]);
  }

  lemma FirstRound(h: Word, a: seq<Octet>)
    requires a != []
    ensures Fold(h, a) == Fold(Round(h, a[0]), a[1..])
    ensures |a| == 1 ==> Fold(h, a) == Round(h, a[0])
  {
  }

  // Unrolls five rounds of differences into one relation between the deltas.
  lemma Unroll(d: Deltas, d1: int, d2: int, d3: int, d4: int, q1: int, q2: int, q3: int, q4: int, q5: int)
    returns (k: int)
    requires Moves(0, d.x5, d1, q1) && Moves(d1, d.x4, d2, q2) && Moves(d2, d.x3, d3, q3)
    requires Moves(d3, d.x2, d4, q4) && Moves(d4, d.x1, -d.x0, q5)
    ensures d.Relation() == TWO_64 * k
  {
    assert d1 == PRIME * d.x5 - TWO_64 * q1;
    var r2 := PRIME * q1 - 65536 * d.x5 + q2;
    assert d2 == PRIME_2 * d.x5 + PRIME * d.x4 - TWO_64 * r2;
    var r3 := PRIME * r2 - 57016320 * d.x5 - 65536 * d.x4 + q3;
    assert d3 == PRIME_3 * d.x5 + PRIME_2 * d.x4 + PRIME * d.x3 - TWO_64 * r3;
    var r4 := PRIME * r3 - 37203148819 * d.x5 - 57016320 * d.x4 - 65536 * d.x3 + q4;
    assert d4 == PRIME_4 * d.x5 + PRIME_3 * d.x4 + PRIME_2 * d.x3 + PRIME * d.x2 - TWO_64 * r4;
    k := PRIME * r4 - 687105378662 * d.x5 - 37203148819 * d.x4 - 57016320 * d.x3 - 65536 * d.x2 + q5;
  }

  // ---- Hashes of key numbers -------------------------------------------------------

  lemma {:induction false} FoldConcat(h: Word, a: seq<Octet>, b: seq<Octet>)
    ensures Fold(h, a + b) == Fold(Fold(h, a), b)
    decreases |a|
  {
    if a == [] {
      assert a + b == b;
    } else {
      FoldConcat(Round(h, a[0]), a[1..], b);
      assert (a + b)[1..] == a[1..] + b;
    }
  }

  // Equal octets keep different states apart.
  lemma {:induction false} FoldIsInjective(h: Word, h': Word, a: seq<Octet>)
    requires Fold(h, a) == Fold(h', a)
    ensures h == h'
    decreases |a|
  {
    if a != [] {
      FoldIsInjective(Round(h, a[0]), Round(h', a[0]), a[1..]);
      RoundIsBijection(h, a[0]);
      RoundIsBijection(h', a[0]);
    }
  }

  ghost function Value(octets: seq<Octet>): nat {
    if octets == [] then 0 else octets[0] + 256 * Value(octets[1..])
  }

  ghost function Pow256(n: nat): nat {
    if n == 0 then 1 else 256 * Pow256(n - 1)
  }

  lemma {:induction false} OctetsRoundTrip(v: nat, n: nat)
    requires v < Pow256(n)
    ensures Value(Octets(v, n)) == v
  {
    if n > 0 {
      OctetsRoundTrip(v / 256, n - 1);
    }
  }

  // Octet j of v is v / 256^j modulo 256.
  lemma {:induction false} HighOctetsAreZero(v: nat, n: nat, m: nat)
    requires v < Pow256(m)
    ensures forall j | m <= j < n :: Octets(v, n)[j] == 0
  {
    if n > 0 {
      HighOctetsAreZero(v / 256, n - 1, if m == 0 then 0 else m - 1);
      assert forall j | 0 < j < n :: Octets(v, n)[j] == Octets(v / 256, n - 1)[j - 1];
    }
  }

  lemma InThree(a: seq<Octet>, start: nat, end: nat)
    requires start <= end <= |a|
    ensures a == a[..start] + (a[start..end] + a[end..])
  {
  }

  // Two key numbers that differ only inside a window of six consecutive octets have
  // different hashes, over the whole 64-bit range.
  lemma WindowOfSixOctets(v: Word, w: Word, start: nat)
    requires start <= 2
    requires forall j | 0 <= j < start || start + 6 <= j < 8 :: Octets(v, 8)[j] == Octets(w, 8)[j]
    ensures Hash(v) == Hash(w) <==> v == w
  {
    hide Fold, Octets, Value;
    if Hash(v) == Hash(w) {
      var a, b := Octets(v, 8), Octets(w, 8);
      var end := start + 6;
      InThree(a, start, end);
      InThree(b, start, end);
      assert a[..start] == b[..start] && a[end..] == b[end..];
      MeetInside(OFFSET_BASIS, a[..start], a[start..end], b[start..end], a[end..]);
      SixOctets(Fold(OFFSET_BASIS, a[..start]), a[start..end], b[start..end]);
      WordOfOctets(v);
      WordOfOctets(w);
    }
  }

  // Runs that share what comes before and after meet in the middle.
  lemma MeetInside(h: Word, pre: seq<Octet>, a: seq<Octet>, b: seq<Octet>, post: seq<Octet>)
    requires Fold(h, pre + (a + post)) == Fold(h, pre + (b + post))
    ensures Fold(Fold(h, pre), a) == Fold(Fold(h, pre), b)
  {
    FoldConcat(h, pre, a + post);
    FoldConcat(h, pre, b + post);
    var g := Fold(h, pre);
    FoldConcat(g, a, post);
    FoldConcat(g, b, post);
    FoldIsInjective(Fold(g, a), Fold(g, b), post);
  }

  lemma WordOfOctets(v: Word)
    ensures Value(Octets(v, 8)) == v
  {
    assert Pow256(8) == TWO_64;
    OctetsRoundTrip(v, 8);
  }

  // Changing one octet of a 64-bit number always changes its hash.
  lemma OneOctet(v: Word, w: Word, k: nat)
    requires k < 8
    requires Octets(v, 8)[k] != Octets(w, 8)[k]
    requires forall j | 0 <= j < 8 && j != k :: Octets(v, 8)[j] == Octets(w, 8)[j]
    ensures Hash(v) != Hash(w)
  {
    WindowOfSixOctets(v, w, if k < 6 then 0 else 2);
  }

  // c has the bits of the exclusive or of a and b.
  predicate IsXor(a: nat, b: nat, c: nat) {
    if a == 0 && b == 0 then c == 0 else c % 2 == XorBit(a % 2, b % 2) && IsXor(a / 2, b / 2, c / 2)
  }

  lemma {:induction false} XorIs(a: nat, b: nat, c: nat)
    requires IsXor(a, b, c)
    ensures Xor(a, b) == c
  {
    if a != 0 || b != 0 {
      XorIs(a / 2, b / 2, c / 2);
    }
  }

  // The exclusive or of two octets, hexadecimal digit by digit.
  lemma XorDigits(p: nat, q: nat, r: nat, s: nat, t: nat, u: nat)
    requires q < 16 && s < 16 && IsXor(p, r, t) && IsXor(q, s, u)
    ensures Xor(16 * p + q, 16 * r + s) == 16 * t + u
  {
    hide Xor, Shift, IsXor;
    XorIs(p, r, t);
    XorIs(q, s, u);
    ShiftDigit(1);
    XorSplits(p, q, r, s, 4);
    ShiftDigit(p);
    ShiftDigit(r);
    ShiftDigit(t);
  }

  lemma ShiftDigit(a: nat)
    ensures Shift(a, 4) == 16 * a
  {
    assert Shift(a, 1) == 2 * a;
    assert Shift(a, 3) == 8 * a;
  }

  // A round worked out: h ends in the digits p and q, the octet is r and s, and their
  // exclusive or t and u.
  lemma RoundIs(h: Word, o: Octet, high: nat, p: nat, q: nat, r: nat, s: nat, t: nat, u: nat, k: nat, h': Word)
    requires h == 256 * high + 16 * p + q && 16 * p + q < 256 && o == 16 * r + s
    requires q < 16 && s < 16 && IsXor(p, r, t) && IsXor(q, s, u)
    requires (256 * high + 16 * t + u) * PRIME == k * TWO_64 + h'
    ensures Round(h, o) == h'
  {
    hide Xor, IsXor;
    assert h / 256 == high && h % 256 == 16 * p + q;
    XorDigits(p, q, r, s, t, u);
    XorOctet(h, o);
    CongruentWord((256 * high + 16 * t + u) * PRIME, h', k);
  }

  lemma {:induction false} FoldThrough(states: seq<Word>, octets: seq<Octet>)
    requires |states| == |octets| + 1
    requires forall j | 0 <= j < |octets| :: Round(states[j], octets[j]) == states[j + 1]
    ensures Fold(states[0], octets) == states[|octets|]
    decreases |octets|
  {
    if octets != [] {
      FoldThrough(states[1..], octets[1..]);
    }
  }

  // ---- Small key numbers -------------------------------------------------------------

  // PRIME^n modulo 2^64.
  function PrimePower(n: nat): Word {
    if n == 0 then 1 else PrimePower(n - 1) * PRIME % TWO_64
  }

  lemma ProductsReduce(x: nat, a: Word, b: nat)
    ensures x * a % TWO_64 * b % TWO_64 == x * (a * b % TWO_64) % TWO_64
  {
    var q1, r1 := x * a / TWO_64, x * a % TWO_64;
    var q2, r2 := a * b / TWO_64, a * b % TWO_64;
    assert r1 * b == (x * a - TWO_64 * q1) * b;
    assert x * r2 == x * (a * b - TWO_64 * q2);
    assert x * a * b == x * (a * b);
    SameRemainder(r1 * b, x * r2, x * q2 - q1 * b);
  }

  lemma SameRemainder(m: int, n: int, k: int)
    requires m == n + TWO_64 * k
    ensures m % TWO_64 == n % TWO_64
  {
  }

  lemma {:induction false} ZerosMultiply(h: Word, n: nat)
    ensures Fold(h, Octets(0, n)) == h * PrimePower(n) % TWO_64
    decreases n
  {
    hide Xor, Round, PrimePower;
    if n == 0 {
      assert PrimePower(0) == 1 by {
        PowerZero();
      }
    } else {
      RoundOfZero(h);
      ZerosMultiply(Round(h, 0), n - 1);
      assert Octets(0, n)[1..] == Octets(0, n - 1);
      ProductsReduce(h, PRIME, PrimePower(n - 1));
      PowerStep(n - 1);
    }
  }

  lemma RoundOfZero(h: Word)
    ensures Round(h, 0) == h * PRIME % TWO_64
  {
    XorZero(h);
  }

  lemma PowerZero()
    ensures PrimePower(0) == 1
  {
  }

  // The hash of a number below 256 is one exclusive or and one multiplication.
  lemma HashOfOctet(o: Octet)
    ensures Xor(OFFSET_BASIS, o) < TWO_64
    ensures Hash(o) == Xor(OFFSET_BASIS, o) * PrimePower(8) % TWO_64
  {
    hide Xor, Fold, PrimePower;
    XorOctet(OFFSET_BASIS, o);
    assert Octets(o, 8) == [o] + Octets(0, 7);
    FirstRound(OFFSET_BASIS, Octets(o, 8));
    assert Octets(o, 8)[1..] == Octets(0, 7);
    ZerosMultiply(Round(OFFSET_BASIS, o), 7);
    ProductsReduce(Xor(OFFSET_BASIS, o), PRIME, PrimePower(7));
    PowerStep(7);
  }

  lemma PowerStep(n: nat)
    ensures PrimePower(n + 1) == PRIME * PrimePower(n) % TWO_64
  {
  }

  lemma EighthPower()
    ensures PrimePower(8) == 2232315406967589409
  {
    hide PrimePower;
    FirstPower();
    PowerStep(1);
    CongruentWord(PRIME * PRIME, PRIME_2, 65536);
    PowerStep(2);
    CongruentWord(PRIME * PRIME_2, PRIME_3, 57016320);
    PowerStep(3);
    CongruentWord(PRIME * PRIME_3, PRIME_4, 37203148819);
    PowerStep(4);
    CongruentWord(PRIME * PRIME_4, PRIME_5, 687105378662);
    PowerStep(5);
    CongruentWord(PRIME * PRIME_5, 15895002104753931833, 54473730706);
    PowerStep(6);
    CongruentWord(PRIME * 15895002104753931833, 14218562807570617051, 947415954532);
    PowerStep(7);
    CongruentWord(PRIME * 14218562807570617051, 2232315406967589409, 847492385697);
  }

  lemma FirstPower()
    ensures PrimePower(1) == PRIME
  {
    assert PrimePower(0) == 1;
  }

  lemma DigitTwo()
    ensures IsXor(2, 0, 2)
  {
  }

  lemma SmallHash(o: Octet, u: nat, h: Word)
    requires o < 16 && IsXor(5, o, u) && u < 16
    requires (14695981039346656032 + u) * 2232315406967589409 == 1778420341473299683 * TWO_64 + h
    ensures Hash(o) == h
  {
    hide Xor, IsXor, Hash, PrimePower;
    HashOfOctet(o);
    EighthPower();
    XorOctet(OFFSET_BASIS, o);
    DigitTwo();
    XorDigits(2, 5, 0, o, 2, u);
    CongruentWord((14695981039346656032 + u) * 2232315406967589409, h, 1778420341473299683);
  }

  lemma SevenDigits()
    ensures IsXor(5, 0, 5) && IsXor(5, 1, 4) && IsXor(5, 2, 7) && IsXor(5, 3, 6)
    ensures IsXor(5, 4, 1) && IsXor(5, 5, 0) && IsXor(5, 6, 3)
  {
  }

  // None of the first seven numbers hashes to a multiple of 7.
  lemma SevenHashes(r: Word)
    requires r < 7
    ensures Hash(r) % 7 != 0
  {
    hide Hash, IsXor;
    SevenDigits();
    if r == 0 {
      SmallHash(0, 5, 12161962213042174405);
    } else if r == 1 {
      SmallHash(1, 4, 9929646806074584996);
    } else if r == 2 {
      SmallHash(2, 7, 16626593026977353223);
    } else if r == 3 {
      SmallHash(3, 6, 14394277620009763814);
    } else if r == 4 {
      SmallHash(4, 1, 3232700585171816769);
    } else if r == 5 {
      SmallHash(5, 0, 1000385178204227360);
    } else if r == 6 {
      SmallHash(6, 3, 7697331399106995587);
    }
  }
}
