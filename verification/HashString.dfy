// The hashed string keys (lib/string.h).

module HashString {
  import opened Words

  // C strings: octets up to the terminating zero, which is not one of them.
  type Octet = b: nat | 0 < b < 256 witness 1
  type Text = seq<Octet>

  // The live blocks of memory and the C strings in them.
  type Addr = nat
  const NULL: Addr := 0
  type Memory = map<Addr, Text>

  // The octet at a position, zero at the end.
  function CharAt(t: Text, i: nat): (r: nat)
    requires i <= |t|
    ensures r == 0 <==> i == |t|
  {
    if i < |t| then t[i] else 0
  }

  // char is signed where the program is built, so an octet above 127 is extended with ones.
  function Widen(b: Octet): Word {
    if b < 128 then b else TWO_64 - 256 + b
  }

  // c + (hash << 6) + (hash << 16) - hash in 64 bits.
  function Step(hash: Word, b: Octet): Word {
    (Widen(b) + hash * 64 % TWO_64 + hash * 65536 % TWO_64 - hash) % TWO_64
  }

  function Run(hash: Word, t: Text): Word {
    if t == [] then hash else Step(Run(hash, t[..|t| - 1]), t[|t| - 1])
  }

  function Sdbm(t: Text): Word {
    Run(0, t)
  }

  method SDBMHash(mem: Memory, cstr: Addr) returns (hash: Word)
    requires cstr in mem
    ensures hash == Sdbm(mem[cstr])
  {
    var t := mem[cstr];
    hash := 0;
    var i := 0;
    var c := CharAt(t, i);
    while c != 0
      invariant i <= |t| && c == CharAt(t, i)
      invariant hash == Sdbm(t[..i])
      decreases |t| - i
    {
      assert t[..i + 1][..i] == t[..i];
      hash := Step(hash, c);
      i := i + 1;
      c := CharAt(t, i);
    }
    assert t[..i] == t;
  }

  // ---- What the hash tells apart -----------------------------------------------------

  function Signed(b: Octet): int {
    if b < 128 then b else b - 256
  }

  lemma StepMultiplies(hash: Word, b: Octet) returns (k: int)
    ensures Step(hash, b) == 65599 * hash + Signed(b) + TWO_64 * k
  {
    var sum := Widen(b) + hash * 64 % TWO_64 + hash * 65536 % TWO_64 - hash;
    k := (if b < 128 then 0 else 1) - hash * 64 / TWO_64 - hash * 65536 / TWO_64 - sum / TWO_64;
  }

  // 65599 * 16079000890114764735 == 1 + 57179 * 2^64
  lemma FactorIsInjective(d: int, m: int)
    requires -TWO_64 < d < TWO_64 && 65599 * d == TWO_64 * m
    ensures d == 0
  {
    var n := 16079000890114764735 * m - 57179 * d;
    assert d == TWO_64 * n;
  }

  lemma StepIsInjective(h: Word, h': Word, b: Octet)
    ensures Step(h, b) == Step(h', b) ==> h == h'
  {
    hide Step;
    if Step(h, b) == Step(h', b) {
      var k := StepMultiplies(h, b);
      var k' := StepMultiplies(h', b);
      FactorIsInjective(h as int - h' as int, k' - k);
    }
  }

  lemma {:induction false} RunIsInjective(h: Word, h': Word, t: Text)
    ensures Run(h, t) == Run(h', t) ==> h == h'
  {
    if t != [] {
      RunIsInjective(h, h', t[..|t| - 1]);
      StepIsInjective(Run(h, t[..|t| - 1]), Run(h', t[..|t| - 1]), t[|t| - 1]);
    }
  }

  lemma {:induction false} RunConcat(hash: Word, a: Text, b: Text)
    ensures Run(hash, a + b) == Run(Run(hash, a), b)
  {
    if b == [] {
      assert a + b == a;
    } else {
      RunConcat(hash, a, b[..|b| - 1]);
      assert (a + b)[..|a + b| - 1] == a + b[..|b| - 1];
    }
  }

  // ---- Strings -----------------------------------------------------------------------

  datatype String = String(hash: Word, value: Addr, length: nat)

  function Wrap(mem: Memory, cstr: Addr): String
    requires cstr in mem
  {
    String(Sdbm(mem[cstr]), cstr, |mem[cstr]|)
  }

  // The hash and the length are those of the text at the address.
  predicate Describes(s: String, mem: Memory) {
    s.value in mem && s == Wrap(mem, s.value)
  }

  // operator==, which reads both texts when the hashes agree.
  predicate Same(mem: Memory, a: String, b: String)
    requires a.value in mem && b.value in mem
  {
    a.hash == b.hash && mem[a.value] == mem[b.value]
  }

  // Comparing hashes first never changes the answer.
  lemma SameIsSameText(mem: Memory, a: String, b: String)
    requires Describes(a, mem) && Describes(b, mem)
    ensures Same(mem, a, b) <==> mem[a.value] == mem[b.value]
  {
    hide Sdbm;
  }
}
