// Which texts the hash of string keys tells apart (lib/string.h).

module ShortTexts {
  import opened Words
  import opened HashString

  // ---- Small relations between the powers of 65599 ---------------------------------------

  // Seven octets against seven others: the differences, the last octet's first.
  datatype Differences = Differences(x0: int, x1: int, x2: int, x3: int, x4: int, x5: int, x6: int) {
    predicate Small() {
      && -255 <= x0 <= 255 && -255 <= x1 <= 255 && -255 <= x2 <= 255 && -255 <= x3 <= 255
      && -255 <= x4 <= 255 && -255 <= x5 <= 255 && -255 <= x6 <= 255
    }

    function Relation(): int {
      x0 + 65599 * (x1 + 65599 * (x2 + 65599 * (x3 + 65599 * (x4 + 65599 * (x5 + 65599 * x6)))))
    }

    // Seven multiples of the relation, reduced modulo 2^64: the coordinates of the differences
    // in a reduced basis of the relations, times 2^64.

    function Dual0(): int {
      843472498432728 * x0 - 9279796440130776 * x1 - 2812243723571496 * x2 - 12935285471049944 * x3 +
      8435775234097880 * x4 - 23902629699718360 * x5 - 15359406512810280 * x6
    }

    function Dual1(): int {
      -14622972069323590 * x0 - 21652942661496378 * x1 - 12091975865425990 * x2 - 11529626568798522 * x3 -
      15466264522628422 * x4 - 562365876515898 * x5 + 2849013852710330 * x6
    }

    function Dual2(): int {
      4218228410264202 * x0 + 10404379278112758 * x1 - 12654462334597750 * x2 - 16591370347979530 * x3 -
      19403108245643126 * x4 + 843280015639030 * x5 - 21906475223925878 * x6
    }

    function Dual3(): int {
      23620950850311579 * x0 - 15747362013064923 * x1 + 6467432689006619 * x2 - 17996729174487387 * x3 +
      24183600213203611 * x4 + 46922239013 * x5 + 3078051957013787 * x6
    }

    function Dual4(): int {
      -15184896975475793 * x0 + 10123286079242257 * x1 - 5343141331041233 * x2 - 16590774492362863 * x3 +
      19684424352095407 * x4 + 6467913437990673 * x5 + 13539923430470959 * x6
    }

    function Dual5(): int {
      1687240783404132 * x0 + 843708270345372 * x1 + 6186605257402980 * x2 + 6748658767949468 * x3 -
      16591250312087452 * x4 - 11528873761218404 * x5 + 33917159925532260 * x6
    }

    function Dual6(): int {
      843781138405556 * x0 + 10966677137413196 * x1 - 19965337504268620 * x2 + 12654290860961356 * x3 +
      5342871274169524 * x4 - 1124686234875828 * x5 + 8683973218765492 * x6
    }
  }

  lemma DualsAreMultiples(d: Differences, k: int)
    returns (c0: int, c1: int, c2: int, c3: int, c4: int, c5: int, c6: int)
    requires d.Relation() == TWO_64 * k
    ensures d.Dual0() == TWO_64 * c0
    ensures d.Dual1() == TWO_64 * c1
    ensures d.Dual2() == TWO_64 * c2
    ensures d.Dual3() == TWO_64 * c3
    ensures d.Dual4() == TWO_64 * c4
    ensures d.Dual5() == TWO_64 * c5
    ensures d.Dual6() == TWO_64 * c6
  {
    c0 := 843472498432728 * k - 3 * d.x1 - 196764 * d.x2 - 12907521626 * d.x3 - 846720511143928 * d.x4 -
          55544018810530532902 * d.x5 - 3643632089951992427838213 * d.x6;
    c1 := -14622972069323590 * k + 52 * d.x1 + 3411225 * d.x2 + 223772948818 * d.x3 + 14679281669512023 * d.x4 +
          962946198238319196832 * d.x5 + 63168307658235500992982370 * d.x6;
    c2 := 4218228410264202 * k - 15 * d.x1 - 984022 * d.x2 - 64550859133 * d.x3 - 4234471808265608 * d.x4 -
          277777116150415619123 * d.x5 - 18221901042351114198849680 * d.x6;
    c3 := 23620950850311579 * k - 84 * d.x1 - 5510260 * d.x2 - 361467545763 * d.x3 - 23711909534506973 * d.x4 -
          1555477553554122921913 * d.x5 - 102037772035596909554570887 * d.x6;
    c4 := -15184896975475793 * k + 54 * d.x1 + 3542310 * d.x2 + 232371993709 * d.x3 + 15243370415316750 * d.x4 +
          999949855874363483180 * d.x5 + 65595710595502370133124797 * d.x6;
    c5 := 1687240783404132 * k - 6 * d.x1 - 393597 * d.x2 - 25819569625 * d.x3 - 1693737947830399 * d.x4 -
          111107515639726343942 * d.x5 - 7288541918450408436251217 * d.x6;
    c6 := 843781138405556 * k - 3 * d.x1 - 196836 * d.x2 - 12912244693 * d.x3 - 847030339616152 * d.x4 -
          55564343248479955067 * d.x5 - 3644965352757036572440129 * d.x6;
  }

  lemma Dual0Bound(d: Differences, c: int)
    requires d.Small() && d.Dual0() == TWO_64 * c
    ensures -1 <= c <= 1
  {
  }

  lemma Dual1Bound(d: Differences, c: int)
    requires d.Small() && d.Dual1() == TWO_64 * c
    ensures -1 <= c <= 1
  {
  }

  lemma Dual2Bound(d: Differences, c: int)
    requires d.Small() && d.Dual2() == TWO_64 * c
    ensures -1 <= c <= 1
  {
  }

  lemma Dual3Bound(d: Differences, c: int)
    requires d.Small() && d.Dual3() == TWO_64 * c
    ensures -1 <= c <= 1
  {
  }

  lemma Dual4Bound(d: Differences, c: int)
    requires d.Small() && d.Dual4() == TWO_64 * c
    ensures -1 <= c <= 1
  {
  }

  lemma Dual5Bound(d: Differences, c: int)
    requires d.Small() && d.Dual5() == TWO_64 * c
    ensures -1 <= c <= 1
  {
  }

  lemma Dual6Bound(d: Differences, c: int)
    requires d.Small() && d.Dual6() == TWO_64 * c
    ensures c == 0
  {
  }

  lemma DualsDetermine(d: Differences)
    ensures TWO_64 * d.x0 ==
              -142 * d.Dual0() - 157 * d.Dual1() + 256 * d.Dual2() + 438 * d.Dual3() - 292 * d.Dual4() +
              136 * d.Dual5() + 215 * d.Dual6()
    ensures TWO_64 * d.x1 ==
              21 * d.Dual0() - 458 * d.Dual1() + 295 * d.Dual2() - 178 * d.Dual3() + 264 * d.Dual4() +
              148 * d.Dual5() + 5 * d.Dual6()
    ensures TWO_64 * d.x2 ==
              -5 * d.Dual0() - 300 * d.Dual1() - 151 * d.Dual2() - 123 * d.Dual3() + 29 * d.Dual4() +
              95 * d.Dual5() - 664 * d.Dual6()
    ensures TWO_64 * d.x3 ==
              -42 * d.Dual0() - 57 * d.Dual1() - 359 * d.Dual2() - 190 * d.Dual3() - 346 * d.Dual4() -
              155 * d.Dual5() + 251 * d.Dual6()
    ensures TWO_64 * d.x4 ==
              139 * d.Dual0() - 117 * d.Dual1() - 279 * d.Dual2() + 93 * d.Dual3() + 171 * d.Dual4() -
              221 * d.Dual5() + 144 * d.Dual6()
    ensures TWO_64 * d.x5 ==
              -629 * d.Dual0() + 147 * d.Dual1() + 37 * d.Dual2() + 146 * d.Dual3() + 26 * d.Dual4() -
              279 * d.Dual5() - 70 * d.Dual6()
    ensures TWO_64 * d.x6 ==
              -130 * d.Dual0() + 78 * d.Dual1() - 45 * d.Dual2() + 138 * d.Dual3() + 164 * d.Dual4() +
              344 * d.Dual5() + 107 * d.Dual6()
  {
  }

  // The differences with given coordinates; the seventh is always 0.
  function Combined(c0: int, c1: int, c2: int, c3: int, c4: int, c5: int): Differences {
    Differences(
      -142 * c0 - 157 * c1 + 256 * c2 + 438 * c3 - 292 * c4 + 136 * c5,
      21 * c0 - 458 * c1 + 295 * c2 - 178 * c3 + 264 * c4 + 148 * c5,
      -5 * c0 - 300 * c1 - 151 * c2 - 123 * c3 + 29 * c4 + 95 * c5,
      -42 * c0 - 57 * c1 - 359 * c2 - 190 * c3 - 346 * c4 - 155 * c5,
      139 * c0 - 117 * c1 - 279 * c2 + 93 * c3 + 171 * c4 - 221 * c5,
      -629 * c0 + 147 * c1 + 37 * c2 + 146 * c3 + 26 * c4 - 279 * c5,
      -130 * c0 + 78 * c1 - 45 * c2 + 138 * c3 + 164 * c4 + 344 * c5)
  }

  lemma FirstVanishes(c0: int, c1: int, c2: int, c3: int, c4: int, c5: int)
    requires -1 <= c0 <= 1 && -1 <= c1 <= 1 && -1 <= c2 <= 1 && -1 <= c3 <= 1 && -1 <= c4 <= 1 && -1 <= c5 <= 1
    requires c0 == 1
    ensures !Combined(c0, c1, c2, c3, c4, c5).Small()
  {
    var d := Combined(c0, c1, c2, c3, c4, c5);
    if c5 >= 0 {
      assert d.x5 < -255;
    } else if c1 == -1 {
      assert d.x5 < -255;
    } else if c2 == -1 {
      assert d.x4 > 255;
    } else if c4 <= 0 {
      assert d.x6 < -255;
    } else if c2 == 0 {
      assert d.x4 > 255;
    } else {
      assert d.x3 < -255;
    }
  }

  lemma SecondVanishes(c0: int, c1: int, c2: int, c3: int, c4: int, c5: int)
    requires -1 <= c0 <= 1 && -1 <= c1 <= 1 && -1 <= c2 <= 1 && -1 <= c3 <= 1 && -1 <= c4 <= 1 && -1 <= c5 <= 1
    requires c0 == 0 && c1 == 1
    ensures !Combined(c0, c1, c2, c3, c4, c5).Small()
  {
    var d := Combined(c0, c1, c2, c3, c4, c5);
    if c2 == -1 {
      if c3 == -1 {
        assert d.x0 < -255;
      } else {
        assert d.x1 < -255;
      }
    } else if c3 == 1 {
      assert d.x2 < -255;
    } else if c2 == 0 {
      if c4 == -1 {
        assert d.x1 < -255;
      } else if c3 == -1 {
        assert d.x0 < -255;
      } else if c4 == 0 {
        assert d.x1 < -255;
      } else {
        assert d.x0 < -255;
      }
    } else if c5 <= 0 {
      assert d.x2 < -255;
    } else {
      assert d.x4 < -255;
    }
  }

  lemma LastVanish(c0: int, c1: int, c2: int, c3: int, c4: int, c5: int)
    requires -1 <= c0 <= 1 && -1 <= c1 <= 1 && -1 <= c2 <= 1 && -1 <= c3 <= 1 && -1 <= c4 <= 1 && -1 <= c5 <= 1
    requires c0 == c1 == 0
    ensures !Combined(c0, c1, c2, c3, c4, c5).Small() || c2 == c3 == c4 == c5 == 0
  {
    var d := Combined(c0, c1, c2, c3, c4, c5);
    if c2 == -1 {
      if c3 == -1 {
        assert d.x0 < -255;
      } else if c4 == -1 {
        assert d.x1 < -255;
      } else if c5 <= 0 {
        assert d.x4 > 255;
      } else {
        assert d.x6 > 255;
      }
    } else if c2 == 0 {
      if c3 == -1 {
        if c4 == -1 {
          assert d.x3 > 255;
        } else {
          assert d.x0 < -255;
        }
      } else if c3 == 0 {
        if c4 == -1 {
          if c5 == -1 {
            assert d.x1 < -255;
          } else {
            assert d.x0 > 255;
          }
        } else if c5 == -1 {
          assert d.x5 > 255;
        } else if c4 == 1 {
          assert d.x1 > 255;
        } else if c5 == 1 {
          assert d.x5 < -255;
        }
      } else if c4 <= 0 {
        assert d.x0 > 255;
      } else {
        assert d.x3 < -255;
      }
    } else if c3 == 1 {
      assert d.x0 > 255;
    } else if c4 == 1 {
      assert d.x1 > 255;
    } else if c5 == -1 {
      assert d.x6 < -255;
    } else {
      assert d.x4 < -255;
    }
  }

  // Seven differences below 256 are in no relation but the trivial one.
  lemma NoSmallRelation(d: Differences, k: int)
    requires d.Small() && d.Relation() == TWO_64 * k
    ensures d == Differences(0, 0, 0, 0, 0, 0, 0)
  {
    hide Differences.Small, Differences.Relation, Combined;
    var c0, c1, c2, c3, c4, c5 := SmallRelation(d, k);
    NegatedSmall(c0, c1, c2, c3, c4, c5);
    NoneCombined();
    if c0 == 1 {
      FirstVanishes(c0, c1, c2, c3, c4, c5);
    } else if c0 == -1 {
      FirstVanishes(-c0, -c1, -c2, -c3, -c4, -c5);
    } else if c1 == 1 {
      SecondVanishes(c0, c1, c2, c3, c4, c5);
    } else if c1 == -1 {
      SecondVanishes(-c0, -c1, -c2, -c3, -c4, -c5);
    } else {
      LastVanish(c0, c1, c2, c3, c4, c5);
    }
  }

  lemma NegatedSmall(c0: int, c1: int, c2: int, c3: int, c4: int, c5: int)
    ensures Combined(-c0, -c1, -c2, -c3, -c4, -c5).Small() <==> Combined(c0, c1, c2, c3, c4, c5).Small()
  {
  }

  lemma NoneCombined()
    ensures Combined(0, 0, 0, 0, 0, 0) == Differences(0, 0, 0, 0, 0, 0, 0)
  {
  }

  lemma SmallRelation(d: Differences, k: int) returns (c0: int, c1: int, c2: int, c3: int, c4: int, c5: int)
    requires d.Small() && d.Relation() == TWO_64 * k
    ensures -1 <= c0 <= 1 && -1 <= c1 <= 1 && -1 <= c2 <= 1 && -1 <= c3 <= 1 && -1 <= c4 <= 1 && -1 <= c5 <= 1
    ensures d == Combined(c0, c1, c2, c3, c4, c5)
  {
    var c6: int;
    c0, c1, c2, c3, c4, c5, c6 := DualsAreMultiples(d, k);
    Dual0Bound(d, c0);
    Dual1Bound(d, c1);
    Dual2Bound(d, c2);
    Dual3Bound(d, c3);
    Dual4Bound(d, c4);
    Dual5Bound(d, c5);
    Dual6Bound(d, c6);
    DualsDetermine(d);
  }

  // ---- Texts as numbers of base 65599 -----------------------------------------------------

  // What a text makes of a state, before it is reduced to 64 bits.
  ghost function Unreduced(hash: int, t: Text): int {
    if t == [] then hash else 65599 * Unreduced(hash, Front(t)) + Last(t)
  }

  ghost function Front(t: Text): Text {
    if t == [] then [] else t[..|t| - 1]
  }

  ghost function Last(t: Text): int {
    if t == [] then 0 else Signed(t[|t| - 1])
  }

  // The octet that i others follow.
  ghost function LastAt(t: Text, i: nat): int {
    if i == 0 then Last(t) else LastAt(Front(t), i - 1)
  }

  lemma {:induction false} RunReduces(hash: Word, t: Text) returns (k: int)
    ensures Run(hash, t) == Unreduced(hash, t) + TWO_64 * k
  {
    if t == [] {
      k := 0;
    } else {
      var before := RunReduces(hash, Front(t));
      k := StepMultiplies(Run(hash, Front(t)), t[|t| - 1]);
      k := k + 65599 * before;
    }
  }

  // Texts of one length differ by the same amount from every state.
  lemma {:induction false} StatesCancel(hash: int, a: Text, b: Text)
    requires |a| == |b|
    ensures Unreduced(hash, a) - Unreduced(hash, b) == Unreduced(0, a) - Unreduced(0, b)
  {
    if a != [] {
      StatesCancel(hash, Front(a), Front(b));
    }
  }

  ghost function Apart(a: Text, b: Text): Differences {
    Differences(LastAt(a, 0) - LastAt(b, 0), LastAt(a, 1) - LastAt(b, 1), LastAt(a, 2) - LastAt(b, 2),
                LastAt(a, 3) - LastAt(b, 3), LastAt(a, 4) - LastAt(b, 4), LastAt(a, 5) - LastAt(b, 5),
                LastAt(a, 6) - LastAt(b, 6))
  }

  lemma {:induction false} LastAtIsSmall(t: Text, i: nat)
    ensures -128 <= LastAt(t, i) <= 127
    decreases i
  {
    if i > 0 {
      LastAtIsSmall(Front(t), i - 1);
    }
  }

  lemma ApartIsSmall(a: Text, b: Text)
    ensures Apart(a, b).Small()
  {
    hide LastAt;
    forall i: nat
      ensures -128 <= LastAt(a, i) <= 127 && -128 <= LastAt(b, i) <= 127
    {
      LastAtIsSmall(a, i);
      LastAtIsSmall(b, i);
    }
  }

  lemma UnreducedOnce(t: Text, i: nat)
    ensures Unreduced(0, Rest(t, i)) == 65599 * Unreduced(0, Rest(t, i + 1)) + LastAt(t, i)
    decreases i
  {
    if i > 0 {
      UnreducedOnce(Front(t), i - 1);
    }
  }

  // The text without its last n octets.
  ghost function Rest(t: Text, n: nat): Text {
    if n == 0 then t else Rest(Front(t), n - 1)
  }

  lemma {:induction false} RestIsShort(t: Text, n: nat)
    ensures |t| <= n ==> Rest(t, n) == []
    decreases n
  {
    if n > 0 {
      RestIsShort(Front(t), n - 1);
    }
  }

  lemma UnreducedApart(a: Text, b: Text)
    requires |a| <= 7 && |b| <= 7
    ensures Unreduced(0, a) - Unreduced(0, b) == Apart(a, b).Relation()
  {
    hide LastAt, Unreduced;
    UnreducedSeven(a);
    UnreducedSeven(b);
  }

  lemma UnreducedSeven(t: Text)
    requires |t| <= 7
    ensures Unreduced(0, t) == Differences(LastAt(t, 0), LastAt(t, 1), LastAt(t, 2), LastAt(t, 3),
                                           LastAt(t, 4), LastAt(t, 5), LastAt(t, 6)).Relation()
  {
    hide LastAt;
    RestIsShort(t, 7);
    assert Unreduced(0, Rest(t, 7)) == 0;
    assert Rest(t, 0) == t;
    hide Unreduced, Rest;
    UnreducedOnce(t, 0);
    UnreducedOnce(t, 1);
    UnreducedOnce(t, 2);
    UnreducedOnce(t, 3);
    UnreducedOnce(t, 4);
    UnreducedOnce(t, 5);
    UnreducedOnce(t, 6);
  }

  lemma {:induction false} SameOctets(a: Text, b: Text, n: nat)
    requires |a| <= n && |b| <= n && forall i | 0 <= i < n :: LastAt(a, i) == LastAt(b, i)
    ensures a == b
  {
    if n > 0 {
      assert LastAt(a, 0) == LastAt(b, 0);
      forall i | 0 <= i < n - 1
        ensures LastAt(Front(a), i) == LastAt(Front(b), i)
      {
        assert LastAt(a, i + 1) == LastAt(b, i + 1);
      }
      SameOctets(Front(a), Front(b), n - 1);
      assert a != [] ==> a == Front(a) + [a[|a| - 1]];
      assert b != [] ==> b == Front(b) + [b[|b| - 1]];
    }
  }

  // Texts of at most seven octets that come to the same modulo 2^64 are the same.
  lemma SevenDetermine(a: Text, b: Text, k: int)
    requires |a| <= 7 && |b| <= 7 && Unreduced(0, a) - Unreduced(0, b) == TWO_64 * k
    ensures a == b
  {
    hide LastAt, Unreduced, Differences.Small, Differences.Relation;
    UnreducedApart(a, b);
    ApartIsSmall(a, b);
    NoSmallRelation(Apart(a, b), k);
    SameOctets(a, b, 7);
  }

  // ---- Texts the hash tells apart ---------------------------------------------------------

  // Texts of at most seven octets, of one length or not, have different hashes.
  lemma ShortTextsDiffer(a: Text, b: Text)
    requires |a| <= 7 && |b| <= 7
    ensures Sdbm(a) == Sdbm(b) <==> a == b
  {
    hide Run, Unreduced;
    if Sdbm(a) == Sdbm(b) {
      var k := RunReduces(0, a);
      var k' := RunReduces(0, b);
      SevenDetermine(a, b, k' - k);
    }
  }

  // So have texts that differ only inside seven consecutive octets.
  lemma WindowOfSeven(pre: Text, a: Text, b: Text, post: Text)
    requires |a| == |b| <= 7
    ensures Sdbm(pre + a + post) == Sdbm(pre + b + post) <==> a == b
  {
    hide Run, Unreduced;
    if Sdbm(pre + a + post) == Sdbm(pre + b + post) {
      RunConcat(0, pre + a, post);
      RunConcat(0, pre + b, post);
      RunIsInjective(Run(0, pre + a), Run(0, pre + b), post);
      RunConcat(0, pre, a);
      RunConcat(0, pre, b);
      var k := RunReduces(Run(0, pre), a);
      var k' := RunReduces(Run(0, pre), b);
      StatesCancel(Run(0, pre), a, b);
      SevenDetermine(a, b, k' - k);
    }
  }

  lemma StepIs(hash: Word, b: Octet, k: int, next: Word)
    requires 65599 * hash + Signed(b) == next + TWO_64 * k
    ensures Step(hash, b) == next
  {
    hide Step;
    var m := StepMultiplies(hash, b);
  }

  lemma {:induction false} RunThrough(states: seq<Word>, t: Text)
    requires |states| == |t| + 1
    requires forall j | 0 <= j < |t| :: Step(states[j], t[j]) == states[j + 1]
    ensures Run(states[0], t) == states[|t|]
  {
    hide Step;
    if t != [] {
      RunThrough(states[..|t|], t[..|t| - 1]);
    }
  }

  const FIRST_TWIN: Text := [1, 128, 128, 1, 123, 75, 128, 128]
  const SECOND_TWIN: Text := [242, 49, 35, 134, 128, 128, 79, 125]

  // Two texts of eight octets have one hash.
  lemma EightCollide()
    ensures |FIRST_TWIN| == |SECOND_TWIN| == 8 && FIRST_TWIN != SECOND_TWIN
    ensures Sdbm(FIRST_TWIN) == Sdbm(SECOND_TWIN)
  {
    hide Step, Run;
    StepIs(0, 1, 0, 1);
    StepIs(1, 128, 0, 65471);
    StepIs(65471, 128, 0, 4294832001);
    StepIs(4294832001, 1, 0, 281736684433600);
    StepIs(281736684433600, 123, 1, 34900688450174907);
    StepIs(34900688450174907, 75, 124, 2053996503039323984);
    StepIs(2053996503039323984, 128, 7304, 5097888502049023024);
    StepIs(5097888502049023024, 128, 18128, 13811277707109656400);
    RunThrough([0, 1, 65471, 4294832001, 281736684433600,
                34900688450174907, 2053996503039323984, 5097888502049023024, 13811277707109656400], FIRST_TWIN);
    StepIs(0, 242, -1, 18446744073709551602);
    StepIs(18446744073709551602, 49, 65598, 18446744073708633279);
    StepIs(18446744073708633279, 35, 65598, 18446744013467562788);
    StepIs(18446744013467562788, 134, 65598, 18442792259484423522);
    StepIs(18442792259484423522, 128, 65584, 17466099751465435806);
    StepIs(17466099751465435806, 128, 62111, 12956434207163016290);
    StepIs(12956434207163016290, 79, 46074, 13841103592824452205);
    StepIs(13841103592824452205, 125, 49220, 13811277707109656400);
    RunThrough([0, 18446744073709551602, 18446744073708633279, 18446744013467562788, 18442792259484423522,
                17466099751465435806, 12956434207163016290, 13841103592824452205, 13811277707109656400], SECOND_TWIN);
  }

  // From every state, and whatever follows.
  lemma TwinsCollide(pre: Text, post: Text)
    ensures Sdbm(pre + FIRST_TWIN + post) == Sdbm(pre + SECOND_TWIN + post)
  {
    hide Run, Unreduced;
    EightCollide();
    var h := Run(0, pre);
    var k1 := RunReduces(h, FIRST_TWIN);
    var k2 := RunReduces(h, SECOND_TWIN);
    var k3 := RunReduces(0, FIRST_TWIN);
    var k4 := RunReduces(0, SECOND_TWIN);
    StatesCancel(h, FIRST_TWIN, SECOND_TWIN);
    assert Run(h, FIRST_TWIN) as int - Run(h, SECOND_TWIN) as int == TWO_64 * (k1 - k2 - k3 + k4);
    RunConcat(0, pre + FIRST_TWIN, post);
    RunConcat(0, pre + SECOND_TWIN, post);
    RunConcat(0, pre, FIRST_TWIN);
    RunConcat(0, pre, SECOND_TWIN);
  }

  // The hash tells the texts of at most n octets apart exactly when n is at most seven.
  lemma TextsApart(n: nat)
    ensures (forall a: Text, b: Text | |a| <= n && |b| <= n :: Sdbm(a) == Sdbm(b) <==> a == b) <==> n <= 7
  {
    hide Sdbm;
    if n <= 7 {
      forall a: Text, b: Text | |a| <= n && |b| <= n
        ensures Sdbm(a) == Sdbm(b) <==> a == b
      {
        ShortTextsDiffer(a, b);
      }
    } else {
      EightCollide();
    }
  }

  // The same holds of the texts that differ only inside n consecutive octets, whatever
  // surrounds these.
  lemma WindowsApart(pre: Text, post: Text, n: nat)
    ensures (forall a: Text, b: Text | |a| == |b| <= n :: Sdbm(pre + a + post) == Sdbm(pre + b + post) <==> a == b)
            <==> n <= 7
  {
    hide Sdbm;
    if n <= 7 {
      forall a: Text, b: Text | |a| == |b| <= n
        ensures Sdbm(pre + a + post) == Sdbm(pre + b + post) <==> a == b
      {
        WindowOfSeven(pre, a, b, post);
      }
    } else {
      EightCollide();
      TwinsCollide(pre, post);
    }
  }
}
