// How a key number becomes the key of a record (core/core_workload.h).

module KeyName {
  import opened Fnv
  import opened FirstRepeat
  import opened Words

  // The two settings that decide a name: insertorder and zeropadding.
  datatype Naming = Naming(ordered: bool, zeroPadding: int)

  function Digit(d: nat): char
    requires d < 10
  {
    '0' + d as char
  }

  // std::to_string of an unsigned number.
  function Decimal(n: nat): (s: string)
    ensures s != ""
  {
    if n < 10 then [Digit(n)] else Decimal(n / 10) + [Digit(n % 10)]
  }

  function Max(a: int, b: int): int {
    if a < b then b else a
  }

  function Zeros(k: nat): (s: string)
    ensures |s| == k
  {
    seq(k, _ => '0')
  }

  const PREFIX := "user"

  function BuildKeyName(cfg: Naming, keyNum: Word): string {
    var num := if cfg.ordered then keyNum else Hash(keyNum);
    var numStr := Decimal(num);
    var totalLen := |PREFIX| + Max(|numStr|, cfg.zeroPadding);
    var zeros := Max(0, totalLen - (|PREFIX| + |numStr|));
    PREFIX + Zeros(zeros) + numStr
  }

  // ---- Reading a name back ---------------------------------------------------------

  function DigitValue(c: char): nat {
    if '0' <= c <= '9' then (c - '0') as nat else 0
  }

  function ReadDecimal(s: string): nat {
    if s == "" then 0 else 10 * ReadDecimal(s[..|s| - 1]) + DigitValue(s[|s| - 1])
  }

  lemma {:induction false} ReadZeros(k: nat)
    ensures ReadDecimal(Zeros(k)) == 0
  {
    if k > 0 {
      ReadZeros(k - 1);
      assert Zeros(k)[..k - 1] == Zeros(k - 1);
    }
  }

  lemma {:induction false} ReadPadded(k: nat, n: nat)
    ensures ReadDecimal(Zeros(k) + Decimal(n)) == n
  {
    var s := Zeros(k) + Decimal(n);
    if n < 10 {
      ReadZeros(k);
      assert s[..|s| - 1] == Zeros(k);
    } else {
      ReadPadded(k, n / 10);
      assert s[..|s| - 1] == Zeros(k) + Decimal(n / 10);
    }
  }

  // Stripping the prefix and reading the decimal recovers the number behind a name: the
  // key number itself in ordered mode, its hash in hashed mode.
  lemma NameReadsBack(cfg: Naming, keyNum: Word)
    ensures var name := BuildKeyName(cfg, keyNum);
            |name| >= 4 && ReadDecimal(name[4..]) == (if cfg.ordered then keyNum else Hash(keyNum))
  {
    var num := if cfg.ordered then keyNum else Hash(keyNum);
    var zeros := Max(0, Max(|Decimal(num)|, cfg.zeroPadding) - |Decimal(num)|);
    assert BuildKeyName(cfg, keyNum)[4..] == Zeros(zeros) + Decimal(num);
    ReadPadded(zeros, num);
  }

  // A name is "user" and then the digits of the number behind it, with zeros before them up
  // to the padding and no further: with d digits in the number, in either mode, it has
  // 4 + max(d, zeropadding) characters.
  lemma NameForm(cfg: Naming, keyNum: Word) returns (digits: nat)
    ensures var name := BuildKeyName(cfg, keyNum);
            var num := if cfg.ordered then keyNum else Hash(keyNum);
            && |name| == 4 + (if digits < cfg.zeroPadding then cfg.zeroPadding else digits)
            && digits > 0 && (digits == 1 || Pow10(digits - 1) <= num) && num < Pow10(digits)
            && name[..4] == ['u', 's', 'e', 'r']
            && (forall i | 4 <= i < |name| :: '0' <= name[i] <= '9')
            && ReadDecimal(name[4..]) == num
  {
    hide Hash, Decimal, ReadDecimal, Pow10;
    var name := BuildKeyName(cfg, keyNum);
    var num := if cfg.ordered then keyNum else Hash(keyNum);
    digits := |Decimal(num)|;
    NameReadsBack(cfg, keyNum);
    DecimalIsDigits(num);
    DecimalLength(num, digits);
    if digits > 1 {
      DecimalLength(num, digits - 1);
    }
    var zeros := Max(0, Max(digits, cfg.zeroPadding) - digits);
    assert name == PREFIX + Zeros(zeros) + Decimal(num);
  }

  // Below this number, key numbers have names of their own.
  function Distinguished(cfg: Naming): nat {
    if cfg.ordered then TWO_64 else FIRST_REPEAT
  }

  // Distinct key numbers have distinct names, whatever the padding.
  lemma NamesAreDistinct(cfg: Naming, a: Word, b: Word)
    requires a < Distinguished(cfg) && b < Distinguished(cfg)
    ensures BuildKeyName(cfg, a) == BuildKeyName(cfg, b) <==> a == b
  {
    hide Hash, Decimal;
    NameReadsBack(cfg, a);
    NameReadsBack(cfg, b);
    if !cfg.ordered {
      HashIsInjective(a, b);
    }
  }

  // In hashed mode FIRST_REPEAT has the name of a smaller number.
  lemma HashedNamesCollide(zeroPadding: int)
    ensures BuildKeyName(Naming(false, zeroPadding), FIRST_REPEAT)
            == BuildKeyName(Naming(false, zeroPadding), SMALLER_TWIN)
  {
    hide Hash, Decimal;
    HashRepeats();
  }

  // The key numbers below count have distinct names exactly when count is not too large.
  lemma NamesApart(cfg: Naming, count: nat)
    requires count <= TWO_64
    ensures (forall a: Word, b: Word | a < count && b < count ::
               BuildKeyName(cfg, a) == BuildKeyName(cfg, b) <==> a == b)
            <==> count <= Distinguished(cfg)
  {
    hide BuildKeyName, Hash;
    if count <= Distinguished(cfg) {
      forall a: Word, b: Word | a < count && b < count
        ensures BuildKeyName(cfg, a) == BuildKeyName(cfg, b) <==> a == b
      {
        NamesAreDistinct(cfg, a, b);
      }
    } else {
      assert cfg == Naming(false, cfg.zeroPadding);
      HashedNamesCollide(cfg.zeroPadding);
      HashRepeats();
      assert FIRST_REPEAT < count && SMALLER_TWIN < count;
    }
  }

  // ---- Order of names --------------------------------------------------------------

  // The order of std::string.
  predicate Less(a: string, b: string) {
    if b == "" then false
    else if a == "" then true
    else if a[0] != b[0] then a[0] < b[0]
    else Less(a[1..], b[1..])
  }

  lemma {:induction false} LessWithPrefix(p: string, a: string, b: string)
    ensures Less(p + a, p + b) <==> Less(a, b)
  {
    if p == "" {
      assert p + a == a && p + b == b;
    } else {
      LessWithPrefix(p[1..], a, b);
      assert (p + a)[1..] == p[1..] + a && (p + b)[1..] == p[1..] + b;
    }
  }

  // For strings of one length the last character decides only between equal rests.
  lemma {:induction false} LessByLast(a: string, c: char, b: string, d: char)
    requires |a| == |b|
    ensures Less(a + [c], b + [d]) <==> Less(a, b) || (a == b && c < d)
  {
    if a == "" {
      assert a + [c] == [c] && b + [d] == [d];
    } else {
      LessByLast(a[1..], c, b[1..], d);
      assert (a + [c])[1..] == a[1..] + [c] && (b + [d])[1..] == b[1..] + [d];
      assert a == [a[0]] + a[1..] && b == [b[0]] + b[1..];
    }
  }

  predicate Digits(s: string) {
    forall i | 0 <= i < |s| :: '0' <= s[i] <= '9'
  }

  lemma {:induction false} DecimalIsDigits(n: nat)
    ensures Digits(Decimal(n))
  {
    if n >= 10 {
      DecimalIsDigits(n / 10);
    }
  }

  // Digit strings of one length are ordered as the numbers they write.
  lemma {:induction false} EqualLengthOrder(a: string, b: string)
    requires |a| == |b| && Digits(a) && Digits(b)
    ensures Less(a, b) <==> ReadDecimal(a) < ReadDecimal(b)
    ensures a == b <==> ReadDecimal(a) == ReadDecimal(b)
  {
    if a != "" {
      var n := |a| - 1;
      EqualLengthOrder(a[..n], b[..n]);
      LessByLast(a[..n], a[n], b[..n], b[n]);
      assert a == a[..n] + [a[n]] && b == b[..n] + [b[n]];
      assert Less(a, b) <==> Less(a[..n], b[..n]) || (a[..n] == b[..n] && a[n] < b[n]);
    }
  }

  function Pow10(k: nat): nat {
    if k == 0 then 1 else 10 * Pow10(k - 1)
  }

  lemma {:induction false} DecimalLength(n: nat, k: nat)
    requires k > 0
    ensures |Decimal(n)| <= k <==> n < Pow10(k)
  {
    if k == 1 {
      assert Pow10(1) == 10;
    } else if n < 10 {
      DecimalLength(n, k - 1);
    } else {
      DecimalLength(n / 10, k - 1);
    }
  }

  // The number of digits every ordered name has room for.
  function Width(zeroPadding: int): nat {
    Max(1, zeroPadding)
  }

  lemma {:induction false} DecimalOfPower(k: nat)
    ensures Decimal(Pow10(k))[0] == '1'
    ensures k > 0 ==> Pow10(k) > 0 && Decimal(Pow10(k) - 1)[0] == '9'
    ensures |Decimal(Pow10(k))| == k + 1
    ensures k > 0 ==> |Decimal(Pow10(k) - 1)| == k
  {
    if k > 0 {
      DecimalOfPower(k - 1);
      assert Pow10(k) / 10 == Pow10(k - 1);
      if k > 1 {
        assert (Pow10(k) - 1) / 10 == Pow10(k - 1) - 1;
      }
    }
  }

  // Padded to the same width, names are ordered as their key numbers.
  lemma PaddedOrder(zeroPadding: int, a: Word, b: Word)
    requires a < Pow10(Width(zeroPadding)) && b < Pow10(Width(zeroPadding))
    ensures Less(BuildKeyName(Naming(true, zeroPadding), a), BuildKeyName(Naming(true, zeroPadding), b)) <==> a < b
  {
    hide Less, Decimal, ReadDecimal, Pow10;
    var w := Width(zeroPadding);
    var cfg := Naming(true, zeroPadding);
    DecimalLength(a, w);
    DecimalLength(b, w);
    var x, y := Zeros(w - |Decimal(a)|) + Decimal(a), Zeros(w - |Decimal(b)|) + Decimal(b);
    assert BuildKeyName(cfg, a) == PREFIX + x;
    assert BuildKeyName(cfg, b) == PREFIX + y;
    LessWithPrefix(PREFIX, x, y);
    DecimalIsDigits(a);
    DecimalIsDigits(b);
    EqualLengthOrder(x, y);
    ReadPadded(w - |Decimal(a)|, a);
    ReadPadded(w - |Decimal(b)|, b);
  }

  // One more digit than the width, and the shorter name sorts after the longer one.
  lemma OrderBreaks(zeroPadding: int)
    requires Pow10(Width(zeroPadding)) < TWO_64
    ensures var p := Pow10(Width(zeroPadding));
            p > 0 && Less(BuildKeyName(Naming(true, zeroPadding), p), BuildKeyName(Naming(true, zeroPadding), p - 1))
  {
    var w := Width(zeroPadding);
    var p := Pow10(w);
    DecimalOfPower(w);
    var x, y := Decimal(p), Decimal(p - 1);
    assert BuildKeyName(Naming(true, zeroPadding), p) == PREFIX + x;
    assert BuildKeyName(Naming(true, zeroPadding), p - 1) == PREFIX + y;
    LessWithPrefix(PREFIX, x, y);
  }

  lemma {:induction false} LessIsAsymmetric(a: string, b: string)
    requires Less(a, b)
    ensures !Less(b, a)
  {
    if a != "" && a[0] == b[0] {
      LessIsAsymmetric(a[1..], b[1..]);
    }
  }

  // The string order of ordered names below count is the numeric order exactly when the
  // padding is wide enough for all of them.
  lemma NamesSortNumerically(zeroPadding: int, count: nat)
    requires count <= TWO_64
    ensures (forall a: Word, b: Word | a < count && b < count ::
               Less(BuildKeyName(Naming(true, zeroPadding), a), BuildKeyName(Naming(true, zeroPadding), b)) <==> a < b)
            <==> count <= Pow10(Width(zeroPadding))
  {
    var p := Pow10(Width(zeroPadding));
    if count <= p {
      forall a: Word, b: Word | a < count && b < count
        ensures Less(BuildKeyName(Naming(true, zeroPadding), a), BuildKeyName(Naming(true, zeroPadding), b)) <==> a < b
      {
        PaddedOrder(zeroPadding, a, b);
      }
    } else {
      OrderBreaks(zeroPadding);
      LessIsAsymmetric(BuildKeyName(Naming(true, zeroPadding), p), BuildKeyName(Naming(true, zeroPadding), p - 1));
      var a: Word, b: Word := p - 1, p;
      assert !Less(BuildKeyName(Naming(true, zeroPadding), a), BuildKeyName(Naming(true, zeroPadding), b));
    }
  }
}
