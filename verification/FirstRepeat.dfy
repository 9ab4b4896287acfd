// Which key numbers the hash tells apart: all those below 2^55 + 2343, which is the first
// number that has the hash of a smaller one (core/utils.h).

module FirstRepeat {
  import opened Words
  import opened Fnv
  import opened SevenOctetRuns

  // The first number that has the hash of a smaller one: 2^55 + 2343.
  const FIRST_REPEAT: Word := 36028797018966311

  // ---- Key numbers that differ in seven octets ------------------------------------------

  // Octets that agree in their highest bit do not change how far apart two low octets are by
  // as much as the bit.
  lemma CloseLast(l: Octet, o: Octet, l': Octet, o': Octet)
    requires Mix(l, o) == Mix(l', o') && o / 128 == o' / 128
    ensures -127 <= l as int - l' as int <= 127
  {
    hide Xor, Shift;
    var m := Mix(l, o);
    assert m == Xor(l, o) == Xor(l', o');
    XorUndoesRight(l, o);
    XorUndoesRight(l', o');
    HighBitSplits(m, o);
    HighBitSplits(m, o');
  }

  lemma HighBitSplits(m: Octet, o: Octet)
    ensures Xor(m, o) / 128 == Xor(m / 128, o / 128)
  {
    hide Xor, Shift;
    ShiftSeven(1);
    ShiftSeven(m / 128);
    ShiftSeven(o / 128);
    ShiftSeven(Xor(m / 128, o / 128));
    XorSplits(m / 128, m % 128, o / 128, o % 128, 7);
  }

  lemma ShiftSeven(a: nat)
    ensures Shift(a, 7) == 128 * a
  {
    ShiftOctet(a);
  }

  // The exceptional relations need seventh octets that differ in the highest bit.
  lemma ExceptionalLast(l: Octet, a: seq<Octet>, b: seq<Octet>, p: seq<Octet>, q: seq<Octet>)
    requires Path(l, a, p) && Path(l, b, q) && p[6] == q[6] && Exceptional(Added(p, q))
    ensures a[6] / 128 != b[6] / 128
  {
    hide Mix, Next;
    if a[6] / 128 == b[6] / 128 {
      CloseLast(Next(p[5]), a[6], Next(q[5]), b[6]);
    }
  }

  // Seven iterations of the hash loop, from any state, are injective in octets of which the
  // seventh has a known highest bit.
  lemma SevenOctetsOneHighBit(h: Word, a: seq<Octet>, b: seq<Octet>)
    requires |a| == |b| == 7 && a[6] / 128 == b[6] / 128
    ensures Fold(h, a) == Fold(h, b) <==> a == b
  {
    hide Fold, Path, Exceptional, Added;
    if Fold(h, a) == Fold(h, b) {
      var p, q := SevenOctets(h, a, b);
      if a != b {
        ExceptionalLast(h % 256, a, b, p, q);
      }
    }
  }

  // Two key numbers that differ only inside a window of seven consecutive octets, and there
  // not in the highest bit, have different hashes, over the whole 64-bit range.
  lemma WindowOfSevenOctets(v: Word, w: Word, start: nat)
    requires start <= 1
    requires forall j | 0 <= j < start || start + 7 <= j < 8 :: Octets(v, 8)[j] == Octets(w, 8)[j]
    requires Octets(v, 8)[start + 6] / 128 == Octets(w, 8)[start + 6] / 128
    ensures Hash(v) == Hash(w) <==> v == w
  {
    hide Fold, Octets, Value;
    if Hash(v) == Hash(w) {
      var a, b := Octets(v, 8), Octets(w, 8);
      var end := start + 7;
      InThree(a, start, end);
      InThree(b, start, end);
      assert a[..start] == b[..start] && a[end..] == b[end..];
      MeetInside(OFFSET_BASIS, a[..start], a[start..end], b[start..end], a[end..]);
      assert a[start..end][6] == a[start + 6] && b[start..end][6] == b[start + 6];
      SevenOctetsOneHighBit(Fold(OFFSET_BASIS, a[..start]), a[start..end], b[start..end]);
      WordOfOctets(v);
      WordOfOctets(w);
    }
  }

  lemma {:induction false} OctetIsBelow(v: nat, n: nat, m: nat, bound: nat)
    requires m < n && v < bound * Pow256(m)
    ensures Octets(v, n)[m] < bound
  {
    if m > 0 {
      assert v / 256 < bound * Pow256(m - 1) by {
        assert v < 256 * (bound * Pow256(m - 1));
      }
      OctetIsBelow(v / 256, n - 1, m - 1, bound);
      assert Octets(v, n)[m] == Octets(v / 256, n - 1)[m - 1];
    }
  }

  // 2^55
  const TWO_55 := 0x80_0000_0000_0000

  // The octets of the numbers below the first repeat.
  lemma OctetsBelow(v: Word)
    requires v < TWO_55
    ensures Octets(v, 8)[6] < 128 && Octets(v, 8)[7] == 0
  {
    hide Octets;
    assert Pow256(6) == 0x1_0000_0000_0000;
    assert Pow256(7) == 256 * Pow256(6);
    HighOctetsAreZero(v, 8, 7);
    OctetIsBelow(v, 8, 6, 128);
  }

  lemma OctetsAbove(v: Word)
    requires TWO_55 <= v < TWO_55 + 2560
    ensures var r := v - TWO_55; r < 2560 && Octets(v, 8) == [r % 256, r / 256, 0, 0, 0, 0, 128, 0]
  {
    var r := v - TWO_55;
    assert v % 256 == r % 256 && v / 256 == 0x8000_0000_0000 + r / 256;
    assert v / 256 % 256 == r / 256 && v / 256 / 256 == 0x80_0000_0000;
    assert Octets(v, 8) == [v % 256] + Octets(v / 256, 7);
    assert Octets(v / 256, 7) == [r / 256] + Octets(0x80_0000_0000, 6);
    assert Octets(0x80_0000_0000, 6) == [0, 0, 0, 0, 128, 0];
  }

  // ---- Runs that end in zeros ------------------------------------------------------------

  // The octet before is determined by the low octet after the multiplication.
  lemma StepBack(x: Octet, y: int) returns (t: int)
    requires Next(x) as int == y
    ensures x == 123 * y - 256 * t
  {
    t := 86 * x - 123 * (179 * x / 256);
  }

  lemma MinusFirst(m: int, q5: Octet, q4: Octet)
    requires 0 <= m <= 25 && Next(q5) as int == m && Next(q4) as int == q5 - 6
    requires 0 <= q4 - 156 < 256
    ensures q4 == 174 || q4 == 180 || q4 == 199 || q4 == 205 || q4 == 224 || q4 == 230 || q4 == 249 || q4 == 255
  {
    var s := StepBack(q5, m);
    var t := StepBack(q4, q5 - 6);
    var u := t + 123 * s - 59 * m + 3;
    assert q4 == 25 * m + 30 - 256 * u;
    assert u == 0 || u == 1 || u == 2;
  }

  lemma MinusSecond(q4: Octet, q3: Octet)
    requires q4 == 174 || q4 == 180 || q4 == 199 || q4 == 205 || q4 == 224 || q4 == 230 || q4 == 249 || q4 == 255
    requires Next(q3) as int == q4 - 156
    requires 0 <= q3 + 49 < 256
    ensures q3 == 136 || q3 == 139 || q3 == 142 || q3 == 145 || q3 == 166 || q3 == 169 || q3 == 172 || q3 == 175
  {
    var t := StepBack(q3, q4 - 156);
  }

  lemma MinusThird(q3: Octet, q2: Octet)
    requires q3 == 136 || q3 == 139 || q3 == 142 || q3 == 145 || q3 == 166 || q3 == 169 || q3 == 172 || q3 == 175
    requires Next(q2) as int == q3 + 49
    requires 0 <= q2 + 32 < 256
    ensures q2 == 47 || q2 == 54 || q2 == 77 || q2 == 84 || q2 == 160 || q2 == 190 || q2 == 197
  {
    var t := StepBack(q2, q3 + 49);
  }

  lemma MinusFourth(q2: Octet, q1: Octet)
    requires q2 == 47 || q2 == 54 || q2 == 77 || q2 == 84 || q2 == 160 || q2 == 190 || q2 == 197
    requires Next(q1) as int == q2 + 32
    ensures q1 == 7 || q1 == 64 || q1 == 82 || q1 == 95 || q1 == 170 || q1 == 188 || q1 == 245
  {
    var t := StepBack(q1, q2 + 32);
  }

  lemma PlusFirst(m: int, q5: Octet, q4: Octet)
    requires 230 <= m <= 255 && Next(q5) as int == m && Next(q4) as int == q5 + 6
    requires 0 <= q4 + 156 < 256
    ensures q4 == 1 || q4 == 7 || q4 == 26 || q4 == 32 || q4 == 51 || q4 == 57 || q4 == 76 || q4 == 82 || q4 == 88
  {
    var s := StepBack(q5, m);
    var t := StepBack(q4, q5 + 6);
    var u := t + 123 * s - 59 * m - 3;
    assert q4 == 25 * m - 30 - 256 * u;
    assert u == 22 || u == 23 || u == 24;
  }

  lemma PlusSecond(q4: Octet, q3: Octet)
    requires q4 == 1 || q4 == 7 || q4 == 26 || q4 == 32 || q4 == 51 || q4 == 57 || q4 == 76 || q4 == 82 || q4 == 88
    requires Next(q3) as int == q4 + 156
    requires 0 <= q3 - 49 < 256
    ensures q3 == 60 || q3 == 81 || q3 == 84 || q3 == 87 || q3 == 90 || q3 == 111 || q3 == 114 || q3 == 117 ||
            q3 == 120
  {
    var t := StepBack(q3, q4 + 156);
  }

  lemma PlusThird(q3: Octet, q2: Octet)
    requires q3 == 60 || q3 == 81 || q3 == 84 || q3 == 87 || q3 == 90 || q3 == 111 || q3 == 114 || q3 == 117 ||
            q3 == 120
    requires Next(q2) as int == q3 - 49
    requires 0 <= q2 - 32 < 256
    ensures q2 == 59 || q2 == 66 || q2 == 73 || q2 == 96 || q2 == 172 || q2 == 179 || q2 == 202 || q2 == 209
  {
    var t := StepBack(q2, q3 - 49);
  }

  lemma PlusFourth(q2: Octet, q1: Octet)
    requires q2 == 59 || q2 == 66 || q2 == 73 || q2 == 96 || q2 == 172 || q2 == 179 || q2 == 202 || q2 == 209
    requires Next(q1) as int == q2 - 32
    ensures q1 == 11 || q1 == 68 || q1 == 86 || q1 == 161 || q1 == 174 || q1 == 179 || q1 == 192 || q1 == 249
  {
    var t := StepBack(q1, q2 - 32);
  }

  // An exclusive or with a hexadecimal digit leaves the high digit alone.
  lemma SameDigit(l: Octet, o: Octet)
    requires o < 16
    ensures Mix(l, o) / 16 == l / 16
  {
    hide Xor, Shift;
    ShiftDigit(1);
    ShiftDigit(l / 16);
    ShiftZero(4);
    XorZero(l / 16);
    XorSplits(l / 16, l % 16, 0, o, 4);
    assert Mix(l, o) == Xor(l, o);
  }

  lemma SomeDigits()
    ensures IsXor(6, 6, 0) && IsXor(9, 9, 0) && IsXor(6, 15, 9) && IsXor(4, 15, 11)
    ensures IsXor(12, 1, 13) && IsXor(10, 1, 11) && IsXor(2, 0, 2) && IsXor(5, 2, 7)
  {
  }

  lemma MixZero(l: Octet)
    ensures Mix(l, 0) == l
  {
    XorZero(l);
  }

  // What is left of the first two octets of such a run.
  lemma MinusStart(p0: Octet, p1: Octet, a1: Octet)
    requires p0 <= 18 && Next(p0) >= 73 && Mix(Next(p0), a1) == p1
    requires p1 == 5 || p1 == 18 || p1 == 93 || p1 == 111 || p1 == 168
    ensures a1 > 9 || (p0 == 2 && a1 == 9)
  {
    hide Mix;
    if a1 <= 9 {
      SameDigit(Next(p0), a1);
      MinusPairs(p0, p1);
      MixUndone(Next(p0), a1);
      MinusMixes();
    }
  }

  lemma MinusPairs(p0: Octet, p1: Octet)
    requires p0 <= 18 && Next(p0) >= 73 && p1 / 16 == Next(p0) / 16
    requires p1 == 5 || p1 == 18 || p1 == 93 || p1 == 111 || p1 == 168
    ensures (p0 == 2 && Next(p0) == 102 && p1 == 111) || (p0 == 12 && Next(p0) == 100 && p1 == 111)
  {
    var k := 179 * p0 / 256;
    var n, e := 179 * p0 - 256 * k, p1 / 16;
    assert Next(p0) as int == n && 16 * e <= n < 16 * e + 16;
    assert e == 0 || e == 1 || e == 5 || e == 6 || e == 10;
    assert p0 == 0 || p0 == 1 || p0 == 2 || p0 == 3 || p0 == 4 || p0 == 5 || p0 == 6 || p0 == 7 || p0 == 8 ||
            p0 == 9 || p0 == 10 || p0 == 11 || p0 == 12 || p0 == 13 || p0 == 14 || p0 == 15 || p0 == 16 ||
            p0 == 17 || p0 == 18;
  }

  lemma MinusMixes()
    ensures Mix(102, 111) == 9
    ensures Mix(100, 111) == 11
  {
    hide IsXor;
    hide Xor;
    SomeDigits();
    XorDigits(6, 6, 6, 15, 0, 9);
    XorDigits(6, 4, 6, 15, 0, 11);
  }

  // What is left of the first two octets of such a run.
  lemma PlusStart(p0: Octet, p1: Octet, a1: Octet)
    requires p0 >= 237 && Next(p0) <= 182 && Mix(Next(p0), a1) == p1
    requires p1 == 88 || p1 == 145 || p1 == 163 || p1 == 238 || p1 == 251
    ensures a1 > 9
  {
    hide Mix;
    if a1 <= 9 {
      SameDigit(Next(p0), a1);
      PlusPairs(p0, p1);
      MixUndone(Next(p0), a1);
      PlusMixes();
    }
  }

  lemma PlusPairs(p0: Octet, p1: Octet)
    requires p0 >= 237 && Next(p0) <= 182 && p1 / 16 == Next(p0) / 16
    requires p1 == 88 || p1 == 145 || p1 == 163 || p1 == 238 || p1 == 251
    ensures (p0 == 244 && Next(p0) == 156 && p1 == 145) || (p0 == 254 && Next(p0) == 154 && p1 == 145)
  {
    var k := 179 * p0 / 256;
    var n, e := 179 * p0 - 256 * k, p1 / 16;
    assert Next(p0) as int == n && 16 * e <= n < 16 * e + 16;
    assert e == 5 || e == 9 || e == 10 || e == 14 || e == 15;
    assert p0 == 237 || p0 == 238 || p0 == 239 || p0 == 240 || p0 == 241 || p0 == 242 || p0 == 243 || p0 == 244 ||
            p0 == 245 || p0 == 246 || p0 == 247 || p0 == 248 || p0 == 249 || p0 == 250 || p0 == 251 || p0 == 252 ||
            p0 == 253 || p0 == 254 || p0 == 255;
  }

  lemma PlusMixes()
    ensures Mix(156, 145) == 13
    ensures Mix(154, 145) == 11
  {
    hide IsXor;
    hide Xor;
    SomeDigits();
    XorDigits(9, 12, 9, 1, 0, 13);
    XorDigits(9, 10, 9, 1, 0, 11);
  }

  // What the differences of two runs mean when the third to the sixth octet of the first
  // run are 0.
  lemma ZerosStep(l: Octet, a: seq<Octet>, b: seq<Octet>, p: seq<Octet>, q: seq<Octet>)
    requires Path(l, a, p) && Path(l, b, q) && p[6] == q[6] && a[2] == a[3] == a[4] == a[5] == 0
    ensures p[0] as int - q[0] as int == Added(p, q).x6
    ensures Follows(Added(p, q).x6, Added(p, q).x5, p[1] as int - q[1] as int)
    ensures Next(p[0]) as int - Next(q[0]) as int == p[1] as int - q[1] as int - Added(p, q).x5
    ensures Next(q[1]) as int == q[2] + Added(p, q).x4 && Next(q[2]) as int == q[3] + Added(p, q).x3
    ensures Next(q[3]) as int == q[4] + Added(p, q).x2 && Next(q[4]) as int == q[5] + Added(p, q).x1
    ensures Next(p[5]) as int == Next(q[5]) - Added(p, q).x0
  {
    hide Mix, Next, Follows;
    MixZero(Next(p[1]));
    MixZero(Next(p[2]));
    MixZero(Next(p[3]));
    MixZero(Next(p[4]));
    StepFollows(p, q, 0);
  }

  // A run whose third to sixth octets are 0 and whose second octet is at most 9 is in an
  // exceptional relation only if it starts as the octets of FIRST_REPEAT.
  lemma ZerosRun(a: seq<Octet>, b: seq<Octet>, p: seq<Octet>, q: seq<Octet>)
    requires Path(37, a, p) && Path(37, b, q) && p[6] == q[6] && a[2] == a[3] == a[4] == a[5] == 0
    requires Exceptional(Added(p, q))
    ensures a[1] > 9 || (a[0] == 39 && a[1] == 9)
  {
    hide Mix, Next, Follows, Added;
    ZerosStep(37, a, b, p, q);
    var d := Added(p, q);
    if d == Combined(0, 0, -1, 0, 0, 0) {
      MinusRun(d, a[1], p[0], p[1], p[5], q[0], q[1], q[2], q[3], q[4], q[5]);
      StartsWithTwo(a[0]);
    } else if d == Combined(0, 0, 1, 0, 0, 0) {
      PlusRun(d, a[1], p[0], p[1], p[5], q[0], q[1], q[2], q[3], q[4], q[5]);
    } else if d == Combined(0, 1, 0, 0, 0, 0) {
      NotOneSecond(d, q[1], q[2]);
    } else {
      NotOneSecond(d, q[1], q[2]);
    }
  }

  lemma NotOneSecond(d: SevenDeltas, q1: Octet, q2: Octet)
    requires Next(q1) as int == q2 + d.x4
    ensures d != Combined(0, 1, 0, 0, 0, 0) && d != Combined(0, -1, 0, 0, 0, 0)
  {
  }

  lemma MinusRun(d: SevenDeltas, a1: Octet, p0: Octet, p1: Octet, p5: Octet,
                q0: Octet, q1: Octet, q2: Octet, q3: Octet, q4: Octet, q5: Octet)
    requires d == Combined(0, 0, -1, 0, 0, 0)
    requires p0 as int - q0 as int == d.x6 && Follows(d.x6, d.x5, p1 as int - q1 as int)
    requires Next(p0) as int - Next(q0) as int == p1 as int - q1 as int - d.x5 && p1 == Mix(Next(p0), a1)
    requires Next(q1) as int == q2 + d.x4 && Next(q2) as int == q3 + d.x3
    requires Next(q3) as int == q4 + d.x2 && Next(q4) as int == q5 + d.x1
    requires Next(p5) as int == Next(q5) - d.x0
    ensures a1 > 9 || (p0 == 2 && a1 == 9)
  {
    hide Mix, Next, Follows;
    FollowsIs(d.x6, d.x5, p1 as int - q1 as int);
    assert p1 as int - q1 as int == -77;
    MinusFirst(Next(q5), q5, q4);
    MinusSecond(q4, q3);
    MinusThird(q3, q2);
    MinusFourth(q2, q1);
    MinusStart(p0, p1, a1);
  }

  lemma PlusRun(d: SevenDeltas, a1: Octet, p0: Octet, p1: Octet, p5: Octet,
               q0: Octet, q1: Octet, q2: Octet, q3: Octet, q4: Octet, q5: Octet)
    requires d == Combined(0, 0, 1, 0, 0, 0)
    requires p0 as int - q0 as int == d.x6 && Follows(d.x6, d.x5, p1 as int - q1 as int)
    requires Next(p0) as int - Next(q0) as int == p1 as int - q1 as int - d.x5 && p1 == Mix(Next(p0), a1)
    requires Next(q1) as int == q2 + d.x4 && Next(q2) as int == q3 + d.x3
    requires Next(q3) as int == q4 + d.x2 && Next(q4) as int == q5 + d.x1
    requires Next(p5) as int == Next(q5) - d.x0
    ensures a1 > 9
  {
    hide Mix, Next, Follows;
    FollowsIs(d.x6, d.x5, p1 as int - q1 as int);
    assert p1 as int - q1 as int == 77;
    PlusFirst(Next(q5), q5, q4);
    PlusSecond(q4, q3);
    PlusThird(q3, q2);
    PlusFourth(q2, q1);
    PlusStart(p0, p1, a1);
  }

  lemma StartsWithTwo(o: Octet)
    ensures Mix(37, o) == 2 ==> o == 39
  {
    hide Xor, IsXor;
    MixUndone(37, o);
    SomeDigits();
    XorDigits(2, 5, 0, 2, 2, 7);
    assert Mix(37, 2) == 39;
  }

  // No number between 2^55 and FIRST_REPEAT has the hash of a number below 2^55.
  lemma AboveAndBelow(v: Word, w: Word)
    requires v < TWO_55 <= w < FIRST_REPEAT
    ensures Hash(v) != Hash(w)
  {
    hide Fold, Octets, Path, Exceptional, Added;
    OctetsBelow(v);
    OctetsAbove(w);
    var a, b := Octets(w, 8), Octets(v, 8);
    if Hash(v) == Hash(w) {
      InThree(a, 0, 7);
      InThree(b, 0, 7);
      assert a[7..] == b[7..];
      MeetInside(OFFSET_BASIS, [], a[0..7], b[0..7], a[7..]);
      FoldNothing(OFFSET_BASIS);
      var p, q := SevenOctets(OFFSET_BASIS, a[0..7], b[0..7]);
      assert a[0..7][6] != b[0..7][6];
      assert OFFSET_BASIS % 256 == 37;
      ZerosRun(a[0..7], b[0..7], p, q);
    }
  }

  lemma FoldNothing(h: Word)
    ensures Fold(h, []) == h
  {
  }

  // The hash tells all key numbers below FIRST_REPEAT apart.
  lemma HashIsInjective(v: Word, w: Word)
    requires v < FIRST_REPEAT && w < FIRST_REPEAT
    ensures Hash(v) == Hash(w) <==> v == w
  {
    hide Octets, Hash;
    if v < TWO_55 {
      OctetsBelow(v);
    } else {
      OctetsAbove(v);
    }
    if w < TWO_55 {
      OctetsBelow(w);
    } else {
      OctetsAbove(w);
    }
    if (v < TWO_55) == (w < TWO_55) {
      WindowOfSevenOctets(v, w, 0);
    } else if v < w {
      AboveAndBelow(v, w);
    } else {
      AboveAndBelow(w, v);
    }
  }

  // ---- The first repeated hash -----------------------------------------------------------

  lemma RepeatDigits()
    ensures IsXor(2, 0, 2) && IsXor(2, 2, 0) && IsXor(3, 0, 3) && IsXor(5, 0, 5)
    ensures IsXor(5, 7, 2) && IsXor(6, 0, 6) && IsXor(6, 9, 15) && IsXor(7, 0, 7)
    ensures IsXor(9, 0, 9) && IsXor(12, 0, 12) && IsXor(13, 0, 13) && IsXor(14, 8, 6)
    ensures IsXor(15, 0, 15)
  {
  }

  lemma RepeatRounds()
    ensures Round(14695981039346656037, 39) == 12638114632788180070
    ensures Round(12638114632788180070, 9) == 557213834352685213
    ensures Round(557213834352685213, 0) == 12267760406993394375
    ensures Round(12267760406993394375, 0) == 13534799417069879333
    ensures Round(13534799417069879333, 0) == 14457484256444939999
    ensures Round(14457484256444939999, 0) == 2412599549703623917
    ensures Round(2412599549703623917, 128) == 4507324729347061047
    ensures Round(4507324729347061047, 0) == 6535314401290087541
  {
    hide Round, Xor, IsXor;
    RepeatDigits();
    RoundIs(14695981039346656037, 39, 57406175934947875, 2, 5, 2, 7, 0, 2, 875948729822, 12638114632788180070);
    RoundIs(12638114632788180070, 9, 49367635284328828, 6, 6, 0, 9, 6, 15, 753290333616, 557213834352685213);
    RoundIs(557213834352685213, 0, 2176616540440176, 9, 13, 0, 0, 9, 13, 33212532673, 12267760406993394375);
    RoundIs(12267760406993394375, 0, 47920939089817946, 12, 7, 0, 0, 12, 7, 731215501537, 13534799417069879333);
    RoundIs(13534799417069879333, 0, 52870310222929216, 2, 5, 0, 0, 2, 5, 806736911679, 14457484256444939999);
    RoundIs(14457484256444939999, 0, 56474547876738046, 13, 15, 0, 0, 13, 15, 861733213792, 2412599549703623917);
    RoundIs(2412599549703623917, 128, 9424216991029780, 14, 13, 8, 0, 6, 13, 143802139202, 4507324729347061047);
    RoundIs(4507324729347061047, 0, 17606737224011957, 3, 7, 0, 0, 3, 7, 268657489486, 6535314401290087541);
  }

  lemma TwinDigits()
    ensures IsXor(0, 6, 6) && IsXor(1, 10, 11) && IsXor(1, 12, 13) && IsXor(2, 12, 14)
    ensures IsXor(3, 0, 3) && IsXor(3, 15, 12) && IsXor(4, 0, 4) && IsXor(5, 0, 5)
    ensures IsXor(5, 10, 15) && IsXor(7, 0, 7) && IsXor(7, 2, 5) && IsXor(7, 10, 13)
    ensures IsXor(11, 3, 8) && IsXor(12, 7, 11) && IsXor(13, 1, 12)
  {
  }

  lemma TwinRounds()
    ensures Round(14695981039346656037, 202) == 12638375217044066077
    ensures Round(12638375217044066077, 161) == 784087063672896628
    ensures Round(784087063672896628, 32) == 12764426321470751420
    ensures Round(12764426321470751420, 55) == 16845618846108701233
    ensures Round(16845618846108701233, 252) == 3285128043922305623
    ensures Round(3285128043922305623, 10) == 2412599549703623687
    ensures Round(2412599549703623687, 106) == 4507324729347061047
    ensures Round(4507324729347061047, 0) == 6535314401290087541
  {
    hide Round, Xor, IsXor;
    TwinDigits();
    RoundIs(14695981039346656037, 202, 57406175934947875, 2, 5, 12, 10, 14, 15, 875948729822, 12638375217044066077);
    RoundIs(12638375217044066077, 161, 49368653191578383, 1, 13, 10, 1, 11, 12, 753305865648, 784087063672896628);
    RoundIs(784087063672896628, 32, 3062840092472252, 7, 4, 2, 0, 5, 4, 46735230921, 12764426321470751420);
    RoundIs(12764426321470751420, 55, 49861040318245122, 11, 12, 3, 7, 8, 11, 760819096953, 16845618846108701233);
    RoundIs(16845618846108701233, 252, 65803198617612114, 3, 1, 15, 12, 12, 13, 1004077127741, 3285128043922305623);
    RoundIs(3285128043922305623, 10, 12832531421571506, 5, 7, 0, 10, 5, 13, 195808890177, 2412599549703623687);
    RoundIs(2412599549703623687, 106, 9424216991029780, 0, 7, 6, 10, 6, 13, 143802139202, 4507324729347061047);
    RoundIs(4507324729347061047, 0, 17606737224011957, 3, 7, 0, 0, 3, 7, 268657489486, 6535314401290087541);
  }

  lemma NoOctets()
    ensures Octets(0, 0) == []
  {
  }

  lemma OctetsMore(v: nat, o: Octet, n: nat)
    ensures Octets(256 * v + o, n + 1) == [o] + Octets(v, n)
  {
    var w := 256 * v + o;
    assert w % 256 == o && w / 256 == v;
  }

  lemma RepeatOctets()
    ensures Octets(36028797018966311, 8) == [39, 9, 0, 0, 0, 0, 128, 0]
  {
    hide Octets;
    NoOctets();
    OctetsMore(0, 0, 0);
    OctetsMore(0, 128, 1);
    OctetsMore(128, 0, 2);
    OctetsMore(32768, 0, 3);
    OctetsMore(8388608, 0, 4);
    OctetsMore(2147483648, 0, 5);
    OctetsMore(549755813888, 9, 6);
    OctetsMore(140737488355337, 39, 7);
  }

  lemma TwinOctets()
    ensures Octets(29848425904251338, 8) == [202, 161, 32, 55, 252, 10, 106, 0]
  {
    hide Octets;
    NoOctets();
    OctetsMore(0, 0, 0);
    OctetsMore(0, 106, 1);
    OctetsMore(106, 10, 2);
    OctetsMore(27146, 252, 3);
    OctetsMore(6949628, 55, 4);
    OctetsMore(1779104823, 32, 5);
    OctetsMore(455450834720, 161, 6);
    OctetsMore(116595413688481, 202, 7);
  }

  const SMALLER_TWIN: Word := 29848425904251338

  // FIRST_REPEAT has the hash of a smaller number.
  lemma HashRepeats()
    ensures SMALLER_TWIN < FIRST_REPEAT && Hash(SMALLER_TWIN) == Hash(FIRST_REPEAT)
  {
    hide Fold, Round, Octets;
    var larger: seq<Word> := [
      14695981039346656037, 12638114632788180070, 557213834352685213, 12267760406993394375, 13534799417069879333,
      14457484256444939999, 2412599549703623917, 4507324729347061047, 6535314401290087541
    ];
    var smaller: seq<Word> := [
      14695981039346656037, 12638375217044066077, 784087063672896628, 12764426321470751420, 16845618846108701233,
      3285128043922305623, 2412599549703623687, 4507324729347061047, 6535314401290087541
    ];
    RepeatOctets();
    TwinOctets();
    RepeatRounds();
    TwinRounds();
    FoldThrough(larger, [39, 9, 0, 0, 0, 0, 128, 0]);
    FoldThrough(smaller, [202, 161, 32, 55, 252, 10, 106, 0]);
  }

  // The hash tells the key numbers below count apart exactly when FIRST_REPEAT is not one
  // of them.
  lemma HashesApart(count: nat)
    ensures (forall v: Word, w: Word | v < count && w < count :: Hash(v) == Hash(w) <==> v == w)
            <==> count <= FIRST_REPEAT
  {
    hide Hash;
    if count <= FIRST_REPEAT {
      forall v: Word, w: Word | v < count && w < count
        ensures Hash(v) == Hash(w) <==> v == w
      {
        HashIsInjective(v, w);
      }
    } else {
      HashRepeats();
    }
  }

  lemma {:induction false} ShiftGrows(m: nat, n: nat)
    requires m <= n
    ensures 0 < Shift(1, m) <= Shift(1, n)
  {
    if m < n {
      ShiftGrows(m, n - 1);
    } else if m > 0 {
      ShiftGrows(m - 1, m - 1);
    }
  }

  lemma ShiftFiftySix()
    ensures Shift(1, 55) == TWO_55 && Shift(1, 56) == 2 * TWO_55
  {
    assert Shift(1, 56) == 2 * Shift(1, 55);
    hide Shift;
    ShiftOctet(1);
    ShiftMore(8);
    ShiftMore(16);
    ShiftMore(24);
    ShiftMore(32);
    ShiftMore(40);
    ShiftMore(48);
  }

  lemma ShiftMore(n: nat)
    ensures Shift(1, n + 8) == 256 * Shift(1, n)
  {
    assert Shift(1, n + 2) == 4 * Shift(1, n);
    assert Shift(1, n + 4) == 16 * Shift(1, n);
    assert Shift(1, n + 6) == 64 * Shift(1, n);
  }

  // The powers of two among such counts are those up to 2^55.
  lemma PowersApart(k: nat)
    ensures (forall v: Word, w: Word | v < Shift(1, k) && w < Shift(1, k) :: Hash(v) == Hash(w) <==> v == w)
            <==> k <= 55
  {
    hide Hash, Shift;
    ShiftFiftySix();
    if k <= 55 {
      ShiftGrows(k, 55);
    } else {
      ShiftGrows(56, k);
    }
    HashesApart(Shift(1, k));
  }
}
