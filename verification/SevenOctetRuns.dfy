// Two runs of seven iterations of the 64-bit FNV-1a loop (core/utils.h) that start in one state
// and meet: the octets are the same, or the runs are in one of four relations.

module SevenOctetRuns {
  import opened Words
  import opened Fnv

  // PRIME^6 modulo 2^64.
  const PRIME_6 := 15895002104753931833

  // What seven octets add to the difference of two states: x6 comes from the first octet, x1
  // from the sixth, and x0 is what is left for the seventh.
  datatype SevenDeltas = SevenDeltas(x0: int, x1: int, x2: int, x3: int, x4: int, x5: int, x6: int) {
    predicate Small() {
      && -255 <= x0 <= 255 && -510 <= x1 <= 510 && -510 <= x2 <= 510 && -510 <= x3 <= 510
      && -510 <= x4 <= 510 && -510 <= x5 <= 510 && -255 <= x6 <= 255
    }

    function Relation(): int {
      x0 + PRIME * x1 + PRIME_2 * x2 + PRIME_3 * x3 + PRIME_4 * x4 + PRIME_5 * x5 + PRIME_6 * x6
    }

    // Seven multiples of the relation, reduced modulo 2^64: the coordinates of the deltas in
    // a reduced basis of the relations, times 2^64.

    function Dual0(): int {
      -3806076821093838 * x0 + 20313569740815094 * x1 + 7929197608562690 * x2 - 14064954699885722 * x3 -
      5914024992360878 * x4 - 35295271653651114 * x5 + 16592491947125026 * x6
    }

    function Dual1(): int {
      28449023120913682 * x0 - 3643151951188586 * x1 + 13327270763525602 * x2 - 6121273035501818 * x3 +
      25620329189951282 * x4 - 4044179322177034 * x5 - 31535593213281022 * x6
    }

    function Dual2(): int {
      23153024276127848 * x0 + 10638341779214520 * x1 + 2684166788327592 * x2 - 9894031681415816 * x3 -
      10434020252910872 * x4 - 604148789389256 * x5 + 50257023369078568 * x6
    }

    function Dual3(): int {
      -5751505510287178 * x0 + 44807145643330 * x1 + 9712051937408806 * x2 - 29146948813458030 * x3 +
      278120774911766 * x4 - 3123738386970014 * x5 - 4823808214178682 * x6
    }

    function Dual4(): int {
      -7415458685973929 * x0 + 19777610586821077 * x1 - 2602611684422417 * x2 + 6411506373179933 * x3 -
      4883460659495097 * x4 + 19204626096850341 * x5 - 3079761967605921 * x6
    }

    function Dual5(): int {
      1786739143561055 * x0 + 6938969796632173 * x1 - 17417390498712777 * x2 - 14116194515335563 * x3 +
      4182770283100367 * x4 - 1973377215756355 * x5 + 8450172135745063 * x6
    }

    function Dual6(): int {
      -17564443635745922 * x0 - 3696849947568358 * x1 + 1654251918328110 * x2 - 644303394963158 * x3 +
      8286053807815262 * x4 - 31791264010822 * x5 + 17056081779520270 * x6
    }
  }

  lemma DualsAreMultiples(d: SevenDeltas, k: int)
    returns (c0: int, c1: int, c2: int, c3: int, c4: int, c5: int, c6: int)
    requires d.Relation() == TWO_64 * k
    ensures d.Dual0() == TWO_64 * c0
    ensures d.Dual1() == TWO_64 * c1
    ensures d.Dual2() == TWO_64 * c2
    ensures d.Dual3() == TWO_64 * c3
    ensures d.Dual4() == TWO_64 * c4
    ensures d.Dual5() == TWO_64 * c5
    ensures d.Dual6() == TWO_64 * c6
  {
    c0 := -3806076821093838 * k + 226859857 * d.x1 + 197368075550 * d.x2 + 128782669287883 * d.x3 +
          2378488583726620 * d.x4 + 188566631295423 * d.x5 + 3279581417750755 * d.x6;
    c1 := 28449023120913682 * k - 1695693918 * d.x1 - 1475253708368 * d.x2 - 962603044646648 * d.x3 -
          17778326579288865 * d.x4 - 1409466152607652 * d.x5 - 24513663797699208 * d.x6;
    c2 := 23153024276127848 * k - 1380027788 * d.x1 - 1200624175323 * d.x2 - 783407274346601 * d.x3 -
          14468757859619055 * d.x4 - 1147083466065158 * d.x5 - 19950261581661576 * d.x6;
    c3 := -5751505510287178 * k + 342816443 * d.x1 + 298250305351 * d.x2 + 194608324228695 * d.x3 +
          3594223353465394 * d.x4 + 284950112657008 * d.x5 + 4955898549154337 * d.x6;
    c4 := -7415458685973929 * k + 441995781 * d.x1 + 384536329393 * d.x2 + 250909954912388 * d.x3 +
          4634058810882457 * d.x4 + 367388292368367 * d.x5 + 6389676733752646 * d.x6;
    c5 := 1786739143561055 * k - 106497952 * d.x1 - 92653218222 * d.x2 - 60456224885868 * d.x3 -
          1116566704987343 * d.x4 - 88521434837500 * d.x5 - 1539579143835222 * d.x6;
    c6 := -17564443635745922 * k + 1046922424 * d.x1 + 910822508700 * d.x2 + 594311686887562 * d.x3 +
          10976349304248939 * d.x4 + 870205233014471 * d.x5 + 15134750471055356 * d.x6;
  }

  lemma Dual0Bound(d: SevenDeltas, c: int)
    requires d.Small() && d.Dual0() == TWO_64 * c
    ensures -2 <= c <= 2
  {
  }

  lemma Dual1Bound(d: SevenDeltas, c: int)
    requires d.Small() && d.Dual1() == TWO_64 * c
    ensures -2 <= c <= 2
  {
  }

  lemma Dual2Bound(d: SevenDeltas, c: int)
    requires d.Small() && d.Dual2() == TWO_64 * c
    ensures -1 <= c <= 1
  {
  }

  lemma Dual3Bound(d: SevenDeltas, c: int)
    requires d.Small() && d.Dual3() == TWO_64 * c
    ensures -1 <= c <= 1
  {
  }

  lemma Dual4Bound(d: SevenDeltas, c: int)
    requires d.Small() && d.Dual4() == TWO_64 * c
    ensures -1 <= c <= 1
  {
  }

  lemma Dual5Bound(d: SevenDeltas, c: int)
    requires d.Small() && d.Dual5() == TWO_64 * c
    ensures -1 <= c <= 1
  {
  }

  lemma Dual6Bound(d: SevenDeltas, c: int)
    requires d.Small() && d.Dual6() == TWO_64 * c
    ensures c == 0
  {
  }

  // The deltas with given coordinates; the seventh is always 0.
  function Combined(c0: int, c1: int, c2: int, c3: int, c4: int, c5: int): SevenDeltas {
    SevenDeltas(
      -72 * c0 + 170 * c1 + 230 * c2 - 117 * c3 - 104 * c4 + 48 * c5,
      311 * c0 + 168 * c1 + 6 * c2 - 113 * c3 + 601 * c4 + 119 * c5,
      83 * c0 + 159 * c1 + 156 * c2 + 259 * c3 + 158 * c4 - 734 * c5,
      85 * c0 + 26 * c1 - 49 * c2 - 535 * c3 + 48 * c4 - 246 * c5,
      18 * c0 + 453 * c1 - 32 * c2 - 218 * c3 + 122 * c4 + 280 * c5,
      -364 * c0 + 17 * c1 + 150 * c2 + 216 * c3 + 330 * c4 - 50 * c5,
      -21 * c0 - 23 * c1 + 237 * c2 - 84 * c3 - 49 * c4 + c5)
  }

  lemma DualsDetermine(d: SevenDeltas)
    ensures TWO_64 * d.x0 ==
              -72 * d.Dual0() + 170 * d.Dual1() + 230 * d.Dual2() - 117 * d.Dual3() - 104 * d.Dual4() +
              48 * d.Dual5() - 369 * d.Dual6()
    ensures TWO_64 * d.x1 ==
              311 * d.Dual0() + 168 * d.Dual1() + 6 * d.Dual2() - 113 * d.Dual3() + 601 * d.Dual4() +
              119 * d.Dual5() + 8 * d.Dual6()
    ensures TWO_64 * d.x2 ==
              83 * d.Dual0() + 159 * d.Dual1() + 156 * d.Dual2() + 259 * d.Dual3() + 158 * d.Dual4() -
              734 * d.Dual5() + 219 * d.Dual6()
    ensures TWO_64 * d.x3 ==
              85 * d.Dual0() + 26 * d.Dual1() - 49 * d.Dual2() - 535 * d.Dual3() + 48 * d.Dual4() -
              246 * d.Dual5() + 89 * d.Dual6()
    ensures TWO_64 * d.x4 ==
              18 * d.Dual0() + 453 * d.Dual1() - 32 * d.Dual2() - 218 * d.Dual3() + 122 * d.Dual4() +
              280 * d.Dual5() + 736 * d.Dual6()
    ensures TWO_64 * d.x5 ==
              -364 * d.Dual0() + 17 * d.Dual1() + 150 * d.Dual2() + 216 * d.Dual3() + 330 * d.Dual4() -
              50 * d.Dual5() + 89 * d.Dual6()
    ensures TWO_64 * d.x6 ==
              -21 * d.Dual0() - 23 * d.Dual1() + 237 * d.Dual2() - 84 * d.Dual3() - 49 * d.Dual4() + d.Dual5() +
              328 * d.Dual6()
  {
  }

  // Small deltas in a relation have small coordinates.
  lemma SmallRelation(d: SevenDeltas, k: int) returns (c0: int, c1: int, c2: int, c3: int, c4: int, c5: int)
    requires d.Small() && d.Relation() == TWO_64 * k
    ensures -2 <= c0 <= 2 && -2 <= c1 <= 2 && -1 <= c2 <= 1 && -1 <= c3 <= 1 && -1 <= c4 <= 1 && -1 <= c5 <= 1
    ensures d == Combined(c0, c1, c2, c3, c4, c5)
  {
    var c6: int;
    c0, c1, c2, c3, c4, c5, c6 := DualsAreMultiples(d, k);
    Dual0Bound(d, c0);
    Dual1Bound(d, c1);
    Dual2Bound(d, c2);
    Dual3Bound(d, c3);
    Dual4Bound(d, c4);
    Dual5Bound(d, c5);
    Dual6Bound(d, c6);
    DualsDetermine(d);
  }

  // ---- The small relations -----------------------------------------------------------

  // The coordinates, with the first not negative, of all small deltas in a relation: each
  // branch ends with a delta that is too large or with one of the coordinates listed.

  lemma RestZeroZero(c2: int, c3: int, c4: int, c5: int)
    requires -1 <= c2 <= 1 && -1 <= c3 <= 1 && -1 <= c4 <= 1 && -1 <= c5 <= 1
    ensures !Combined(0, 0, c2, c3, c4, c5).Small() || (c2, c3, c4, c5) in { (-1, 0, 0, 0), (0, 0, 0, 0), (1, 0, 0, 0) }
  {
    var d := Combined(0, 0, c2, c3, c4, c5);
    if c5 == -1 {
      if c3 == -1 {
        assert d.x3 > 510;
      } else if c4 == -1 {
        assert d.x1 < -510;
      } else {
        assert d.x2 > 510;
      }
    } else if c3 <= 0 {
      if c4 <= 0 {
        if c5 == 0 {
          if c3 == -1 {
            if c2 <= 0 {
              if c4 == -1 {
                assert d.x5 < -510;
              } else {
                assert d.x3 > 510;
              }
            } else {
              assert d.x0 > 255;
            }
          } else if c4 == -1 {
            assert d.x1 < -510;
          } else if c2 == -1 {
          } else if c2 == 0 {
          }
        } else {
          assert d.x2 < -510;
        }
      } else {
        assert d.x1 > 510;
      }
    } else if c2 == -1 {
      assert d.x6 < -255;
    } else if c4 <= 0 {
      assert d.x3 < -510;
    } else if c5 == 0 {
      assert d.x5 > 510;
    } else {
      assert d.x1 > 510;
    }
  }

  lemma RestZeroOne(c2: int, c3: int, c4: int, c5: int)
    requires -1 <= c2 <= 1 && -1 <= c3 <= 1 && -1 <= c4 <= 1 && -1 <= c5 <= 1
    ensures !Combined(0, 1, c2, c3, c4, c5).Small() ||
            (c2, c3, c4, c5) in { (-1, 0, -1, 0), (0, 0, 0, 0), (0, 1, 0, 0) }
  {
    var d := Combined(0, 1, c2, c3, c4, c5);
    if c3 == -1 {
      if c5 == -1 {
        assert d.x3 > 510;
      } else {
        assert d.x4 > 510;
      }
    } else if c4 <= 0 {
      if c5 == -1 {
        assert d.x2 > 510;
      } else if c2 <= 0 {
        if c5 == 0 {
          if c4 == -1 {
            if c3 == 0 {
              if c2 == -1 {
              } else {
                assert d.x0 > 255;
              }
            } else {
              assert d.x1 < -510;
            }
          } else if c2 == -1 {
            assert d.x6 < -255;
          } else if c3 == 0 {
          }
        } else if c3 == 0 {
          assert d.x2 < -510;
        } else {
          assert d.x3 < -510;
        }
      } else {
        assert d.x0 > 255;
      }
    } else {
      assert d.x1 > 510;
    }
  }

  lemma RestZeroTwo(c2: int, c3: int, c4: int, c5: int)
    requires -1 <= c2 <= 1 && -1 <= c3 <= 1 && -1 <= c4 <= 1 && -1 <= c5 <= 1
    ensures !Combined(0, 2, c2, c3, c4, c5).Small()
  {
    var d := Combined(0, 2, c2, c3, c4, c5);
    if c3 == -1 {
      assert d.x4 > 510;
    } else if c5 == -1 {
      assert d.x2 > 510;
    } else {
      assert d.x4 > 510;
    }
  }

  lemma RestOneMinusTwo(c2: int, c3: int, c4: int, c5: int)
    requires -1 <= c2 <= 1 && -1 <= c3 <= 1 && -1 <= c4 <= 1 && -1 <= c5 <= 1
    ensures !Combined(1, -2, c2, c3, c4, c5).Small()
  {
    var d := Combined(1, -2, c2, c3, c4, c5);
    if c3 <= 0 {
      if c5 <= 0 {
        assert d.x4 < -510;
      } else {
        assert d.x2 < -510;
      }
    } else {
      assert d.x4 < -510;
    }
  }

  lemma RestOneMinusOne(c2: int, c3: int, c4: int, c5: int)
    requires -1 <= c2 <= 1 && -1 <= c3 <= 1 && -1 <= c4 <= 1 && -1 <= c5 <= 1
    ensures !Combined(1, -1, c2, c3, c4, c5).Small() || (c2, c3, c4, c5) in { (0, 0, 0, 0), (1, 0, 0, 0) }
  {
    var d := Combined(1, -1, c2, c3, c4, c5);
    if c2 == -1 {
      if c4 == -1 {
        assert d.x5 < -510;
      } else {
        assert d.x0 < -255;
      }
    } else if c3 <= 0 {
      if c4 == -1 {
        assert d.x5 < -510;
      } else if c4 == 0 {
        if c5 <= 0 {
          if c3 == -1 {
            assert d.x3 > 510;
          } else if c5 == -1 {
            assert d.x2 > 510;
          } else if c2 == 0 {
          }
        } else {
          assert d.x2 < -510;
        }
      } else {
        assert d.x1 > 510;
      }
    } else if c5 <= 0 {
      assert d.x4 < -510;
    } else {
      assert d.x3 < -510;
    }
  }

  lemma RestOneZero(c2: int, c3: int, c4: int, c5: int)
    requires -1 <= c2 <= 1 && -1 <= c3 <= 1 && -1 <= c4 <= 1 && -1 <= c5 <= 1
    ensures !Combined(1, 0, c2, c3, c4, c5).Small() ||
            (c2, c3, c4, c5) in { (0, 0, 0, 0), (0, 1, -1, 0), (0, 1, 0, 0), (1, 0, 0, 0), (1, 0, 0, 1), (1, 1, 0, 0) }
  {
    var d := Combined(1, 0, c2, c3, c4, c5);
    if c3 == -1 {
      if c5 <= 0 {
        assert d.x3 > 510;
      } else {
        assert d.x2 < -510;
      }
    } else if c2 == -1 {
      if c4 == -1 {
        assert d.x5 < -510;
      } else {
        assert d.x6 < -255;
      }
    } else if c4 <= 0 {
      if c5 == -1 {
        assert d.x2 > 510;
      } else if c3 == 0 {
        if c4 == -1 {
          assert d.x5 < -510;
        } else if c2 == 0 {
          if c5 == 0 {
          } else {
            assert d.x2 < -510;
          }
        } else if c5 == 0 {
        }
      } else if c5 == 0 {
        if c2 == 0 {
          if c4 == -1 {
          }
        } else if c4 == -1 {
          assert d.x3 < -510;
        }
      } else {
        assert d.x3 < -510;
      }
    } else {
      assert d.x1 > 510;
    }
  }

  lemma RestOneOne(c2: int, c3: int, c4: int, c5: int)
    requires -1 <= c2 <= 1 && -1 <= c3 <= 1 && -1 <= c4 <= 1 && -1 <= c5 <= 1
    ensures !Combined(1, 1, c2, c3, c4, c5).Small() || (c2, c3, c4, c5) in { (0, 0, 0, 0), (0, 1, -1, 0), (0, 1, 0, 0) }
  {
    var d := Combined(1, 1, c2, c3, c4, c5);
    if c4 <= 0 {
      if c5 <= 0 {
        if c2 <= 0 {
          if c3 == -1 {
            assert d.x3 > 510;
          } else if c2 == -1 {
            if c4 == -1 {
              assert d.x5 < -510;
            } else {
              assert d.x6 < -255;
            }
          } else if c5 == -1 {
            assert d.x2 > 510;
          } else if c3 == 0 {
            if c4 == -1 {
              assert d.x5 < -510;
            }
          } else if c4 == -1 {
          }
        } else if c3 <= 0 {
          assert d.x0 > 255;
        } else if c4 == -1 {
          assert d.x0 > 255;
        } else {
          assert d.x2 > 510;
        }
      } else if c3 <= 0 {
        assert d.x4 > 510;
      } else {
        assert d.x3 < -510;
      }
    } else {
      assert d.x1 > 510;
    }
  }

  lemma RestOneTwo(c2: int, c3: int, c4: int, c5: int)
    requires -1 <= c2 <= 1 && -1 <= c3 <= 1 && -1 <= c4 <= 1 && -1 <= c5 <= 1
    ensures !Combined(1, 2, c2, c3, c4, c5).Small()
  {
    var d := Combined(1, 2, c2, c3, c4, c5);
    if c5 == -1 {
      assert d.x2 > 510;
    } else {
      assert d.x4 > 510;
    }
  }

  lemma RestTwo(c1: int, c2: int, c3: int, c4: int, c5: int)
    requires -2 <= c1 <= 2 && -1 <= c2 <= 1 && -1 <= c3 <= 1 && -1 <= c4 <= 1 && -1 <= c5 <= 1
    ensures !Combined(2, c1, c2, c3, c4, c5).Small()
  {
    var d := Combined(2, c1, c2, c3, c4, c5);
    if c4 == -1 {
      assert d.x5 < -510;
    } else if c1 <= 0 {
      if c3 <= 0 {
        if c4 == 0 {
          assert d.x5 < -510;
        } else {
          assert d.x1 > 510;
        }
      } else if c5 <= 0 {
        if c2 <= 0 {
          assert d.x0 < -255;
        } else if c1 <= -1 {
          assert d.x4 < -510;
        } else {
          assert d.x2 > 510;
        }
      } else {
        assert d.x3 < -510;
      }
    } else {
      assert d.x1 > 510;
    }
  }

  // ---- Chains of low octets ----------------------------------------------------------

  // The low octet of a product with PRIME.
  function Next(x: Octet): Octet {
    179 * x % 256
  }

  // An octet turns the difference of the low octets of two states into y, the multiplication
  // turns that into 179 times it modulo 256, and the next octet adds x.
  predicate Follows(y: int, x: int, next: int) {
    -255 <= next <= 255 && -255 <= next - x <= 255 && (next - x - 179 * y) % 256 == 0
  }

  // No difference follows y.
  predicate DeadEnd(y: int, x: int) {
    && !(-255 <= 179 * y % 256 + x <= 255)
    && !(-255 <= 179 * y % 256 + x - 256 <= 255)
  }

  lemma FollowsIs(y: int, x: int, next: int)
    requires Follows(y, x, next)
    ensures -255 <= next <= 255 && (next == 179 * y % 256 + x || next == 179 * y % 256 + x - 256)
  {
  }

  lemma NoneFollows(y: int, x: int, next: int)
    requires DeadEnd(y, x)
    ensures !Follows(y, x, next)
  {
    hide Follows;
    if Follows(y, x, next) {
      FollowsIs(y, x, next);
    }
  }

  // The differences of the low octets after each octet but the last.
  datatype Chain = Chain(y0: int, y1: int, y2: int, y3: int, y4: int, y5: int)

  predicate Chained(d: SevenDeltas, c: Chain) {
    && c.y0 == d.x6 && Follows(c.y0, d.x5, c.y1) && Follows(c.y1, d.x4, c.y2)
    && Follows(c.y2, d.x3, c.y3) && Follows(c.y3, d.x2, c.y4) && Follows(c.y4, d.x1, c.y5)
  }

  lemma FirstBreaks(c: Chain)
    ensures !Chained(Combined(0, 1, -1, 0, -1, 0), c)
  {
    hide Follows;
    if Chained(Combined(0, 1, -1, 0, -1, 0), c) {
      NoneFollows(c.y0, -463, c.y1);
    }
  }

  lemma SecondBreaks(c: Chain)
    ensures !Chained(Combined(0, 1, 0, 1, 0, 0), c)
  {
    hide Follows;
    if Chained(Combined(0, 1, 0, 1, 0, 0), c) {
      FollowsIs(c.y0, 233, c.y1);
      assert c.y1 == 24;
      FollowsIs(c.y1, 235, c.y2);
      assert c.y2 == 179;
      NoneFollows(c.y2, -509, c.y3);
    }
  }

  lemma ThirdBreaks(c: Chain)
    ensures !Chained(Combined(1, -1, 0, 0, 0, 0), c)
  {
    hide Follows;
    if Chained(Combined(1, -1, 0, 0, 0, 0), c) {
      NoneFollows(c.y0, -381, c.y1);
    }
  }

  lemma FourthBreaks(c: Chain)
    ensures !Chained(Combined(1, -1, 1, 0, 0, 0), c)
  {
    hide Follows;
    if Chained(Combined(1, -1, 1, 0, 0, 0), c) {
      FollowsIs(c.y0, -231, c.y1);
      assert c.y1 == -202;
      NoneFollows(c.y1, -467, c.y2);
    }
  }

  lemma FifthBreaks(c: Chain)
    ensures !Chained(Combined(1, 0, 0, 0, 0, 0), c)
  {
    hide Follows;
    if Chained(Combined(1, 0, 0, 0, 0, 0), c) {
      NoneFollows(c.y0, -364, c.y1);
    }
  }

  lemma SixthBreaks(c: Chain)
    ensures !Chained(Combined(1, 0, 0, 1, -1, 0), c)
  {
    hide Follows;
    if Chained(Combined(1, 0, 0, 1, -1, 0), c) {
      NoneFollows(c.y0, -478, c.y1);
    }
  }

  lemma SeventhBreaks(c: Chain)
    ensures !Chained(Combined(1, 0, 0, 1, 0, 0), c)
  {
    hide Follows;
    if Chained(Combined(1, 0, 0, 1, 0, 0), c) {
      FollowsIs(c.y0, -148, c.y1);
      assert c.y1 == -255 || c.y1 == 1;
      FollowsIs(c.y1, -200, c.y2);
      assert c.y2 == -21;
      NoneFollows(c.y2, -450, c.y3);
    }
  }

  lemma EighthBreaks(c: Chain)
    ensures !Chained(Combined(1, 0, 1, 0, 0, 0), c)
  {
    hide Follows;
    if Chained(Combined(1, 0, 1, 0, 0, 0), c) {
      FollowsIs(c.y0, -214, c.y1);
      assert c.y1 == -206;
      FollowsIs(c.y1, -14, c.y2);
      assert c.y2 == -24 || c.y2 == 232;
      FollowsIs(c.y2, 36, c.y3);
      assert c.y3 == -164 || c.y3 == 92;
      FollowsIs(c.y3, 239, c.y4);
      assert c.y4 == 67;
      NoneFollows(c.y4, 317, c.y5);
    }
  }

  lemma NinthBreaks(c: Chain)
    ensures !Chained(Combined(1, 0, 1, 0, 0, 1), c)
  {
    hide Follows;
    if Chained(Combined(1, 0, 1, 0, 0, 1), c) {
      FollowsIs(c.y0, -264, c.y1);
      assert c.y1 == -77;
      FollowsIs(c.y1, 266, c.y2);
      assert c.y2 == 51;
      FollowsIs(c.y2, -210, c.y3);
      assert c.y3 == -41;
      NoneFollows(c.y3, -495, c.y4);
    }
  }

  lemma TenthBreaks(c: Chain)
    ensures !Chained(Combined(1, 0, 1, 1, 0, 0), c)
  {
    hide Follows;
    if Chained(Combined(1, 0, 1, 1, 0, 0), c) {
      FollowsIs(c.y0, 2, c.y1);
      assert c.y1 == -178 || c.y1 == 78;
      FollowsIs(c.y1, -232, c.y2);
      assert c.y2 == -94;
      NoneFollows(c.y2, -499, c.y3);
    }
  }

  lemma EleventhBreaks(c: Chain)
    ensures !Chained(Combined(1, 1, 0, 0, 0, 0), c)
  {
    hide Follows;
    if Chained(Combined(1, 1, 0, 0, 0, 0), c) {
      NoneFollows(c.y0, -347, c.y1);
    }
  }

  lemma TwelfthBreaks(c: Chain)
    ensures !Chained(Combined(1, 1, 0, 1, -1, 0), c)
  {
    hide Follows;
    if Chained(Combined(1, 1, 0, 1, -1, 0), c) {
      NoneFollows(c.y0, -461, c.y1);
    }
  }

  lemma ThirteenthBreaks(c: Chain)
    ensures !Chained(Combined(1, 1, 0, 1, 0, 0), c)
  {
    hide Follows;
    if Chained(Combined(1, 1, 0, 1, 0, 0), c) {
      FollowsIs(c.y0, -131, c.y1);
      assert c.y1 == -3;
      FollowsIs(c.y1, 253, c.y2);
      assert c.y2 == 228;
      NoneFollows(c.y2, -424, c.y3);
    }
  }

  // The relations that chains of low octets follow.
  predicate Exceptional(d: SevenDeltas) {
    || d == Combined(0, 1, 0, 0, 0, 0) || d == Combined(0, -1, 0, 0, 0, 0)
    || d == Combined(0, 0, 1, 0, 0, 0) || d == Combined(0, 0, -1, 0, 0, 0)
  }

  // Of the relations whose first coordinate that is not 0 is positive, a chain follows only
  // the exceptional ones.
  lemma PositiveChained(c0: int, c1: int, c2: int, c3: int, c4: int, c5: int, c: Chain)
    requires 0 <= c0 <= 2 && -2 <= c1 <= 2
    requires -1 <= c2 <= 1 && -1 <= c3 <= 1 && -1 <= c4 <= 1 && -1 <= c5 <= 1
    requires c0 == 0 ==> c1 >= 0
    requires var d := Combined(c0, c1, c2, c3, c4, c5); d.Small() && Chained(d, c)
    ensures (c0, c1, c2, c3, c4, c5) == (0, 0, 0, 0, 0, 0) || Exceptional(Combined(c0, c1, c2, c3, c4, c5))
  {
    hide Chained, SevenDeltas.Small, Exceptional, Combined;
    ExceptionalOnes();
    if c0 == 0 {
      if c1 == 0 {
        RestZeroZero(c2, c3, c4, c5);
      } else if c1 == 1 {
        RestZeroOne(c2, c3, c4, c5);
        if (c2, c3, c4, c5) == (-1, 0, -1, 0) {
          FirstBreaks(c);
        } else if (c2, c3, c4, c5) == (0, 1, 0, 0) {
          SecondBreaks(c);
        }
      } else {
        RestZeroTwo(c2, c3, c4, c5);
      }
    } else if c0 == 1 {
      if c1 == -2 {
        RestOneMinusTwo(c2, c3, c4, c5);
      } else if c1 == -1 {
        RestOneMinusOne(c2, c3, c4, c5);
        if (c2, c3, c4, c5) == (0, 0, 0, 0) {
          ThirdBreaks(c);
        } else if (c2, c3, c4, c5) == (1, 0, 0, 0) {
          FourthBreaks(c);
        }
      } else if c1 == 0 {
        RestOneZero(c2, c3, c4, c5);
        if (c2, c3, c4, c5) == (0, 0, 0, 0) {
          FifthBreaks(c);
        } else if (c2, c3, c4, c5) == (0, 1, -1, 0) {
          SixthBreaks(c);
        } else if (c2, c3, c4, c5) == (0, 1, 0, 0) {
          SeventhBreaks(c);
        } else if (c2, c3, c4, c5) == (1, 0, 0, 0) {
          EighthBreaks(c);
        } else if (c2, c3, c4, c5) == (1, 0, 0, 1) {
          NinthBreaks(c);
        } else if (c2, c3, c4, c5) == (1, 1, 0, 0) {
          TenthBreaks(c);
        }
      } else if c1 == 1 {
        RestOneOne(c2, c3, c4, c5);
        if (c2, c3, c4, c5) == (0, 0, 0, 0) {
          EleventhBreaks(c);
        } else if (c2, c3, c4, c5) == (0, 1, -1, 0) {
          TwelfthBreaks(c);
        } else if (c2, c3, c4, c5) == (0, 1, 0, 0) {
          ThirteenthBreaks(c);
        }
      } else {
        RestOneTwo(c2, c3, c4, c5);
      }
    } else {
      RestTwo(c1, c2, c3, c4, c5);
    }
  }

  lemma ExceptionalOnes()
    ensures Exceptional(Combined(0, 1, 0, 0, 0, 0)) && Exceptional(Combined(0, 0, 1, 0, 0, 0))
    ensures Exceptional(Combined(0, 0, -1, 0, 0, 0))
  {
  }

  function Negated(d: SevenDeltas): SevenDeltas {
    SevenDeltas(-d.x0, -d.x1, -d.x2, -d.x3, -d.x4, -d.x5, -d.x6)
  }

  function NegatedChain(c: Chain): Chain {
    Chain(-c.y0, -c.y1, -c.y2, -c.y3, -c.y4, -c.y5)
  }

  lemma NegatedFollows(y: int, x: int, next: int)
    requires Follows(y, x, next)
    ensures Follows(-y, -x, -next)
  {
  }

  lemma NegatedIsChained(d: SevenDeltas, c: Chain)
    requires Chained(d, c)
    ensures Chained(Negated(d), NegatedChain(c))
  {
    hide Follows;
    NegatedFollows(c.y0, d.x5, c.y1);
    NegatedFollows(c.y1, d.x4, c.y2);
    NegatedFollows(c.y2, d.x3, c.y3);
    NegatedFollows(c.y3, d.x2, c.y4);
    NegatedFollows(c.y4, d.x1, c.y5);
  }

  // Small deltas in a relation that a chain of low octets follows are none at all, or one of
  // the exceptional relations.
  lemma ChainedRelation(d: SevenDeltas, k: int, c: Chain)
    requires d.Small() && d.Relation() == TWO_64 * k && Chained(d, c)
    ensures d == SevenDeltas(0, 0, 0, 0, 0, 0, 0) || Exceptional(d)
  {
    hide Chained, SevenDeltas.Small, SevenDeltas.Relation, Exceptional, Combined, Negated, NegatedChain;
    var c0, c1, c2, c3, c4, c5 := SmallRelation(d, k);
    NoneCombined();
    if c0 < 0 || (c0 == 0 && c1 < 0) {
      NegatedIsChained(d, c);
      NegatedCombined(c0, c1, c2, c3, c4, c5);
      NegatedSmall(d);
      PositiveChained(-c0, -c1, -c2, -c3, -c4, -c5, NegatedChain(c));
      NegatedExceptional(d);
    } else {
      PositiveChained(c0, c1, c2, c3, c4, c5, c);
    }
  }

  lemma NoneCombined()
    ensures Combined(0, 0, 0, 0, 0, 0) == SevenDeltas(0, 0, 0, 0, 0, 0, 0)
  {
  }

  lemma NegatedCombined(c0: int, c1: int, c2: int, c3: int, c4: int, c5: int)
    ensures Negated(Combined(c0, c1, c2, c3, c4, c5)) == Combined(-c0, -c1, -c2, -c3, -c4, -c5)
  {
  }

  lemma NegatedSmall(d: SevenDeltas)
    ensures Negated(d).Small() <==> d.Small()
  {
  }

  lemma NegatedExceptional(d: SevenDeltas)
    ensures Exceptional(Negated(d)) ==> Exceptional(d)
    ensures Negated(d) == SevenDeltas(0, 0, 0, 0, 0, 0, 0) ==> d == SevenDeltas(0, 0, 0, 0, 0, 0, 0)
  {
  }

  // ---- Runs ----------------------------------------------------------------------------

  // The exclusive or of octets.
  function Mix(l: Octet, o: Octet): Octet {
    assert l % 256 == l;
    XorOctet(l, o);
    Xor(l, o)
  }

  lemma LowOfRound(h: Word, o: Octet)
    ensures Round(h, o) % 256 == Next(Mix(h % 256, o))
  {
    hide Xor;
    XorOctet(h, o);
    LowOfProduct(h / 256, Mix(h % 256, o));
  }

  lemma LowOfProduct(high: nat, l: Octet)
    ensures (256 * high + l) * PRIME % TWO_64 % 256 == Next(l)
  {
    var n := (256 * high + l) * PRIME;
    var k := n / TWO_64;
    var r := n - TWO_64 * k;
    assert r == 179 * l + 256 * (high * PRIME + 4294967297 * l - 72057594037927936 * k);
    SameLow(r, 179 * l, high * PRIME + 4294967297 * l - 72057594037927936 * k);
  }

  lemma SameLow(m: int, n: int, k: int)
    requires m == n + 256 * k
    ensures m % 256 == n % 256
  {
  }

  // The low octets of the state of a run, each with its octet mixed in.
  ghost predicate Path(l: Octet, a: seq<Octet>, p: seq<Octet>) {
    && |a| == |p| == 7 && p[0] == Mix(l, a[0])
    && forall i | 1 <= i < 7 :: p[i] == Mix(Next(p[i - 1]), a[i])
  }

  function Step(p: seq<Octet>, q: seq<Octet>, i: nat): int
    requires |p| == |q| == 7 && 1 <= i < 7
  {
    (p[i] as int - Next(p[i - 1]) as int) - (q[i] as int - Next(q[i - 1]) as int)
  }

  function Gap(p: seq<Octet>, q: seq<Octet>, i: nat): int
    requires |p| == |q| == 7 && i < 7
  {
    p[i] as int - q[i] as int
  }

  // What the octets of two runs add to the difference of their states.
  function Added(p: seq<Octet>, q: seq<Octet>): SevenDeltas
    requires |p| == |q| == 7
  {
    SevenDeltas(Step(p, q, 6), Step(p, q, 5), Step(p, q, 4), Step(p, q, 3), Step(p, q, 2), Step(p, q, 1),
                Gap(p, q, 0))
  }

  function ChainOf(p: seq<Octet>, q: seq<Octet>): Chain
    requires |p| == |q| == 7
  {
    Chain(Gap(p, q, 0), Gap(p, q, 1), Gap(p, q, 2), Gap(p, q, 3), Gap(p, q, 4), Gap(p, q, 5))
  }

  lemma NextIs(x: Octet) returns (m: int)
    ensures Next(x) as int == 179 * x - 256 * m
  {
    m := 179 * x / 256;
  }

  lemma DividesEvenly(n: int, k: int)
    requires n == 256 * k
    ensures n % 256 == 0
  {
  }

  lemma OctetFollows(x: Octet, x': Octet, next: Octet, next': Octet)
    ensures Follows(x as int - x' as int, (next as int - Next(x) as int) - (next' as int - Next(x') as int),
                    next as int - next' as int)
  {
    hide Next;
    var m := NextIs(x);
    var m' := NextIs(x');
    DividesEvenly(Next(x) as int - Next(x') as int - 179 * (x as int - x' as int), m' - m);
  }

  lemma StepFollows(p: seq<Octet>, q: seq<Octet>, i: nat)
    requires |p| == |q| == 7 && i < 6
    ensures Follows(Gap(p, q, i), Step(p, q, i + 1), Gap(p, q, i + 1))
  {
    hide Next, Follows;
    OctetFollows(p[i], q[i], p[i + 1], q[i + 1]);
  }

  lemma StepIsSmall(p: seq<Octet>, q: seq<Octet>, i: nat)
    requires |p| == |q| == 7 && 1 <= i < 7
    ensures -510 <= Step(p, q, i) <= 510
  {
  }

  lemma LastStepIsSmall(p: seq<Octet>, q: seq<Octet>)
    requires |p| == |q| == 7 && p[6] == q[6]
    ensures -255 <= Step(p, q, 6) <= 255
  {
  }

  lemma AddedIsSmall(p: seq<Octet>, q: seq<Octet>)
    requires |p| == |q| == 7 && p[6] == q[6]
    ensures Added(p, q).Small()
  {
    hide Next, Step;
    StepIsSmall(p, q, 1);
    StepIsSmall(p, q, 2);
    StepIsSmall(p, q, 3);
    StepIsSmall(p, q, 4);
    StepIsSmall(p, q, 5);
    LastStepIsSmall(p, q);
  }

  lemma AddedIsChained(p: seq<Octet>, q: seq<Octet>)
    requires |p| == |q| == 7
    ensures Chained(Added(p, q), ChainOf(p, q))
  {
    hide Follows, Next, Step, Gap;
    StepFollows(p, q, 0);
    StepFollows(p, q, 1);
    StepFollows(p, q, 2);
    StepFollows(p, q, 3);
    StepFollows(p, q, 4);
  }

  lemma MixUndone(l: Octet, o: Octet)
    ensures Mix(l, Mix(l, o)) == o
  {
    XorUndoes(l, o);
  }

  // Equal octets are all that adds nothing.
  lemma AddedNothing(l: Octet, a: seq<Octet>, b: seq<Octet>, p: seq<Octet>, q: seq<Octet>)
    requires Path(l, a, p) && Path(l, b, q) && Added(p, q) == SevenDeltas(0, 0, 0, 0, 0, 0, 0)
    ensures a == b
  {
    hide Mix, Next;
    assert Step(p, q, 1) == Step(p, q, 2) == Step(p, q, 3) == Step(p, q, 4) == Step(p, q, 5) == Step(p, q, 6) == 0;
    assert p == q;
    forall i | 0 <= i < 7
      ensures a[i] == b[i]
    {
      var before := if i == 0 then l else Next(p[i - 1]);
      MixUndone(before, a[i]);
      MixUndone(before, b[i]);
    }
  }

  // Unrolls six rounds of differences into one relation between the deltas.
  lemma UnrollSix(d: SevenDeltas, d1: int, d2: int, d3: int, d4: int, d5: int,
                  q1: int, q2: int, q3: int, q4: int, q5: int, q6: int) returns (k: int)
    requires Moves(0, d.x6, d1, q1) && Moves(d1, d.x5, d2, q2) && Moves(d2, d.x4, d3, q3)
    requires Moves(d3, d.x3, d4, q4) && Moves(d4, d.x2, d5, q5) && Moves(d5, d.x1, -d.x0, q6)
    ensures d.Relation() == TWO_64 * k
  {
    assert d1 == PRIME * d.x6 - TWO_64 * q1;
    var r2 := PRIME * q1 - 65536 * d.x6 + q2;
    assert d2 == PRIME_2 * d.x6 + PRIME * d.x5 - TWO_64 * r2;
    var r3 := PRIME * r2 - 57016320 * d.x6 - 65536 * d.x5 + q3;
    assert d3 == PRIME_3 * d.x6 + PRIME_2 * d.x5 + PRIME * d.x4 - TWO_64 * r3;
    var r4 := PRIME * r3 - 37203148819 * d.x6 - 57016320 * d.x5 - 65536 * d.x4 + q4;
    assert d4 == PRIME_4 * d.x6 + PRIME_3 * d.x5 + PRIME_2 * d.x4 + PRIME * d.x3 - TWO_64 * r4;
    var r5 := PRIME * r4 - 687105378662 * d.x6 - 37203148819 * d.x5 - 57016320 * d.x4 - 65536 * d.x3 + q5;
    assert d5 == PRIME_5 * d.x6 + PRIME_4 * d.x5 + PRIME_3 * d.x4 + PRIME_2 * d.x3 + PRIME * d.x2 - TWO_64 * r5;
    k := PRIME * r5 - 54473730706 * d.x6 - 687105378662 * d.x5 - 37203148819 * d.x4 - 57016320 * d.x3 - 65536 * d.x2 +
         q6;
  }

  lemma SevenRounds(h: Word, a: seq<Octet>)
    requires |a| == 7
    ensures Fold(h, a)
            == Round(Round(Round(Round(Round(Round(Round(h, a[0]), a[1]), a[2]), a[3]), a[4]), a[5]), a[6])
  {
    hide Round;
    FirstRound(h, a);
    SixRounds(Round(h, a[0]), a[1..]);
  }

  // The last octets of runs that meet.
  lemma LastMeets(h: Word, o: Octet, h': Word, o': Octet)
    requires Round(h, o) == Round(h', o')
    ensures Mix(h % 256, o) == Mix(h' % 256, o')
    ensures h as int - h' as int == h % 256 - h' % 256
  {
    hide Xor, Round;
    RoundsMeet(h, o, h', o');
    XorOctet(h, o);
    XorOctet(h', o');
  }

  // Two runs of seven octets that meet are in a relation.
  lemma MeetingSeven(h: Word, a: seq<Octet>, b: seq<Octet>) returns (p: seq<Octet>, q: seq<Octet>, k: int)
    requires |a| == |b| == 7 && Fold(h, a) == Fold(h, b)
    ensures Path(h % 256, a, p) && Path(h % 256, b, q) && p[6] == q[6]
    ensures Added(p, q).Relation() == TWO_64 * k
  {
    hide Round, Xor, Fold, Mix, Next, Moves, SevenDeltas.Relation;
    var s1, t1 := Round(h, a[0]), Round(h, b[0]);
    var s2, t2 := Round(s1, a[1]), Round(t1, b[1]);
    var s3, t3 := Round(s2, a[2]), Round(t2, b[2]);
    var s4, t4 := Round(s3, a[3]), Round(t3, b[3]);
    var s5, t5 := Round(s4, a[4]), Round(t4, b[4]);
    var s6, t6 := Round(s5, a[5]), Round(t5, b[5]);
    SevenRounds(h, a);
    SevenRounds(h, b);
    LastMeets(s6, a[6], t6, b[6]);
    p := LowPath(h, a, s1, s2, s3, s4, s5, s6);
    q := LowPath(h, b, t1, t2, t3, t4, t5, t6);
    var q1 := OneRound(h, a[0], h, b[0]);
    var q2 := OneRound(s1, a[1], t1, b[1]);
    var q3 := OneRound(s2, a[2], t2, b[2]);
    var q4 := OneRound(s3, a[3], t3, b[3]);
    var q5 := OneRound(s4, a[4], t4, b[4]);
    var q6 := OneRound(s5, a[5], t5, b[5]);
    k := UnrollSix(Added(p, q), Difference(s1, t1), Difference(s2, t2), Difference(s3, t3), Difference(s4, t4),
                   Difference(s5, t5), q1, q2, q3, q4, q5, q6);
  }

  lemma LowPath(h: Word, a: seq<Octet>, s1: Word, s2: Word, s3: Word, s4: Word, s5: Word, s6: Word)
    returns (p: seq<Octet>)
    requires |a| == 7 && s1 == Round(h, a[0]) && s2 == Round(s1, a[1]) && s3 == Round(s2, a[2])
    requires s4 == Round(s3, a[3]) && s5 == Round(s4, a[4]) && s6 == Round(s5, a[5])
    ensures Path(h % 256, a, p)
    ensures p == [Mix(h % 256, a[0]), Mix(s1 % 256, a[1]), Mix(s2 % 256, a[2]), Mix(s3 % 256, a[3]),
                  Mix(s4 % 256, a[4]), Mix(s5 % 256, a[5]), Mix(s6 % 256, a[6])]
    ensures s1 % 256 == Next(p[0]) && s2 % 256 == Next(p[1]) && s3 % 256 == Next(p[2]) && s4 % 256 == Next(p[3])
    ensures s5 % 256 == Next(p[4]) && s6 % 256 == Next(p[5])
  {
    hide Round, Mix, Next;
    LowOfRound(h, a[0]);
    LowOfRound(s1, a[1]);
    LowOfRound(s2, a[2]);
    LowOfRound(s3, a[3]);
    LowOfRound(s4, a[4]);
    LowOfRound(s5, a[5]);
    p := [Mix(h % 256, a[0]), Mix(s1 % 256, a[1]), Mix(s2 % 256, a[2]), Mix(s3 % 256, a[3]),
          Mix(s4 % 256, a[4]), Mix(s5 % 256, a[5]), Mix(s6 % 256, a[6])];
  }

  lemma OneRound(h: Word, o: Octet, h': Word, o': Octet) returns (q: int)
    ensures Moves(Difference(h, h'), (Mix(h % 256, o) - h % 256) - (Mix(h' % 256, o') - h' % 256),
                  Difference(Round(h, o), Round(h', o')), q)
  {
    var f;
    f, q := RoundDifference(h, o, h', o');
  }

  // Two runs of seven octets from one state meet only if the octets are the same, or the runs
  // are in one of the exceptional relations.
  lemma SevenOctets(h: Word, a: seq<Octet>, b: seq<Octet>) returns (p: seq<Octet>, q: seq<Octet>)
    requires |a| == |b| == 7 && Fold(h, a) == Fold(h, b)
    ensures Path(h % 256, a, p) && Path(h % 256, b, q) && p[6] == q[6]
    ensures a == b || Exceptional(Added(p, q))
  {
    hide Path, Fold, Chained, SevenDeltas.Small, SevenDeltas.Relation, Exceptional;
    var k;
    p, q, k := MeetingSeven(h, a, b);
    PathLength(h % 256, a, p);
    PathLength(h % 256, b, q);
    AddedIsSmall(p, q);
    AddedIsChained(p, q);
    ChainedRelation(Added(p, q), k, ChainOf(p, q));
    if Added(p, q) == SevenDeltas(0, 0, 0, 0, 0, 0, 0) {
      AddedNothing(h % 256, a, b, p, q);
    }
  }

  lemma PathLength(l: Octet, a: seq<Octet>, p: seq<Octet>)
    requires Path(l, a, p)
    ensures |p| == 7
  {
  }
}
