/** Powers, inverses and square roots modulo a prime: modPow, modInverse and what isSquare rests on in
    operator/proof.mjs. */
module FieldPowers {
  import opened Field
  import opened Sequences

  function Pow(b: int, e: nat): int {
    if e == 0 then 1 else Pow(b, e - 1) * b
  }

  lemma {:induction false} PowAdd(b: int, d: nat, e: nat)
    ensures Pow(b, d + e) == Pow(b, d) * Pow(b, e)
  {
    if d > 0 {
      PowAdd(b, d - 1, e);
      assert b * (Pow(b, d - 1) * Pow(b, e)) == (b * Pow(b, d - 1)) * Pow(b, e);
    }
  }

  lemma {:induction false} PowProduct(a: int, b: int, e: nat)
    ensures Pow(a * b, e) == Pow(a, e) * Pow(b, e)
  {
    if e > 0 {
      PowProduct(a, b, e - 1);
      Shuffle(a, b, Pow(a, e - 1), Pow(b, e - 1));
    }
  }

  lemma Shuffle(a: int, b: int, c: int, d: int)
    ensures (a * b) * (c * d) == (a * c) * (b * d)
  {
    assert (a * b) * (c * d) == a * (b * (c * d));
    assert b * (c * d) == c * (b * d);
    assert a * (c * (b * d)) == (a * c) * (b * d);
  }

  lemma {:induction false} PowCong(a: int, b: int, e: nat, p: int)
    requires p > 0 && Cong(a, b, p)
    ensures Cong(Pow(a, e), Pow(b, e), p)
  {
    if e > 0 {
      PowCong(a, b, e - 1, p);
      CongMul(Pow(a, e - 1), Pow(b, e - 1), a, b, p);
    }
  }

  /** Squaring the base halves the exponent. */
  lemma {:induction false} PowSquare(x: int, e: nat)
    ensures Pow(x * x, e) == Pow(x, 2 * e)
  {
    PowProduct(x, x, e);
    PowAdd(x, e, e);
  }

  lemma HalfPower(x: int, half: nat, p: int)
    requires p > 0
    ensures Cong(Pow((x * x) % p, half), Pow(x, 2 * half), p)
  {
    CongMod(x * x, p);
    PowCong((x * x) % p, x * x, half, p);
    PowSquare(x, half);
  }

  lemma TakeFactor(result: int, x: int, w: int)
    ensures (result * x) * w == result * (w * x)
  {
    assert (result * x) * w == result * (x * w);
  }

  lemma SquareStepOdd(result: int, x: int, half: nat, p: int)
    requires p > 0
    ensures Cong(((result * x) % p) * Pow((x * x) % p, half), result * Pow(x, 2 * half + 1), p)
  {
    HalfPower(x, half, p);
    CongMod(result * x, p);
    CongMul((result * x) % p, result * x, Pow((x * x) % p, half), Pow(x, 2 * half), p);
    TakeFactor(result, x, Pow(x, 2 * half));
  }

  lemma SquareStep(result: int, x: int, power: nat, p: int)
    requires p > 0 && power > 0
    ensures var result' := if power % 2 == 1 then (result * x) % p else result;
      Cong(result' * Pow((x * x) % p, power / 2), result * Pow(x, power), p)
  {
    if power % 2 == 1 {
      SquareStepOdd(result, x, power / 2, p);
    } else {
      HalfPower(x, power / 2, p);
      CongScale(Pow((x * x) % p, power / 2), Pow(x, power), result, p);
    }
  }

  /** modPow: square and multiply. */
  method ModPow(base: int, exponent: nat, modulus: nat) returns (result: nat)
    requires modulus > 1
    ensures result == Pow(base, exponent) % modulus
  {
    result := 1;
    var x: nat := Mod(base, modulus);
    var power := exponent;
    CongMod(base, modulus);
    PowCong(x, base, exponent, modulus);
    while power > 0
      invariant result < modulus && Cong(result * Pow(x, power), Pow(base, exponent), modulus)
    {
      SquareStep(result, x, power, modulus);
      if power % 2 == 1 { result := (result * x) % modulus; }
      x := (x * x) % modulus;
      power := power / 2;
    }
    ModSmall(result, modulus);
  }

  // ------------------------------------------------------------------ inversion

  lemma DivisionBounds(high: int, low: int)
    requires low > 0 && high >= 0
    ensures 0 <= high - high / low * low < low
  {
    QuotientRest(low, high);
    assert low * (high / low) == high / low * low;
  }

  lemma DivisionRow(high: int, low: int, hs: int, ls: int, a: int, p: nat)
    requires p > 0 && low > 0 && high >= 0 && Cong(hs * a, high, p) && Cong(ls * a, low, p)
    ensures Cong((hs - high / low * ls) * a, high - high / low * low, p)
  {
    var q := high / low;
    CombineRows(low, high, ls, hs, q, a, p);
    assert low * q == q * low && ls * q == q * ls;
  }

  lemma CoprimeSwap(low: int, high: int)
    requires 0 < low && Coprime(high, low)
    ensures Coprime(low, high - high / low * low)
  {
    assert Coprime(low, high) by {
      forall d: int | d > 1
        ensures !(low % d == 0 && high % d == 0)
      {
        assert !(high % d == 0 && low % d == 0);
      }
    }
    CoprimeRest(low, high);
    QuotientRest(low, high);
    assert low * (high / low) == high / low * low;
    assert Coprime(high % low, low);
    forall d: int | d > 1
      ensures !(low % d == 0 && (high % low) % d == 0)
    {
      assert !((high % low) % d == 0 && low % d == 0);
    }
  }

  lemma CoprimeZero(high: int)
    requires high > 0 && Coprime(high, 0)
    ensures high == 1
  {
    if high > 1 {
      ModUnique(high, 1, 0, high);
      ModSmall(0, high);
    }
  }

  lemma CoprimeWith(a: int, p: nat)
    requires IsPrime(p) && a % p != 0
    ensures Coprime(a % p, p)
  {
    PrimeCoprime(a % p, p);
  }

  /** modInverse: extended Euclid. It throws exactly on multiples of the prime. */
  method ModInverse(value: int, modulus: nat) returns (inverse: int)
    requires IsPrime(modulus)
    ensures value % modulus == 0 ==> inverse == -1
    ensures value % modulus != 0 ==> 0 <= inverse < modulus && (value * inverse) % modulus == 1
  {
    var oldR, r := Mod(value, modulus), modulus as int;
    var oldS, s := 1, 0;
    CongMod(value, modulus);
    ModUnique(modulus, 1, 0, modulus);
    ModSmall(0, modulus);
    ghost var zero := value % modulus == 0;
    if !zero { CoprimeWith(value, modulus); }
    while r != 0
      invariant oldR >= 0 && r >= 0
      invariant Cong(oldS * value, oldR, modulus) && Cong(s * value, r, modulus)
      invariant zero ==> (oldR == 0 && r == modulus) || (oldR == modulus && r == 0)
      invariant !zero ==> Coprime(oldR, r) && (oldR > 0 || r > 0)
      decreases r
    {
      var quotient := oldR / r;
      DivisionBounds(oldR, r);
      DivisionRow(oldR, r, oldS, s, value, modulus);
      if !zero { CoprimeSwap(r, oldR); }
      oldR, r := r, oldR - quotient * r;
      oldS, s := s, oldS - quotient * s;
    }
    if oldR != 1 {
      if !zero { CoprimeZero(oldR); }
      return -1;
    }
    inverse := Mod(oldS, modulus);
    CongMod(oldS, modulus);
    CongMul(inverse, oldS, value, value, modulus);
    ModSmall(1, modulus);
    assert inverse * value == value * inverse;
  }

  // ------------------------------------------------------------- Fermat and square roots

  function Product(s: seq<int>): int {
    if s == [] then 1 else s[0] * Product(s[1..])
  }

  lemma {:induction false} ProductAppend(s: seq<int>, t: seq<int>)
    ensures Product(s + t) == Product(s) * Product(t)
  {
    if s == [] {
      assert s + t == t;
    } else {
      assert (s + t)[1..] == s[1..] + t;
      ProductAppend(s[1..], t);
      assert s[0] * (Product(s[1..]) * Product(t)) == (s[0] * Product(s[1..])) * Product(t);
    }
  }

  lemma ProductWithout(t: seq<int>, j: nat)
    requires j < |t|
    ensures Product(t) == t[j] * Product(t[..j] + t[j + 1..])
  {
    SplitAt(t, j);
    ProductAppend(t[..j] + [t[j]], t[j + 1..]);
    ProductAppend(t[..j], [t[j]]);
    ProductAppend(t[..j], t[j + 1..]);
    assert Product([t[j]]) == t[j] by { assert [t[j]][1..] == []; }
    Rotate(Product(t[..j]), t[j], Product(t[j + 1..]));
  }

  lemma Rotate(a: int, b: int, c: int)
    ensures (a * b) * c == b * (a * c)
  {
    assert a * b == b * a;
    assert (b * a) * c == b * (a * c);
  }

  lemma {:induction false} ProductPermutation(s: seq<int>, t: seq<int>)
    requires Permutation(s, t)
    ensures Product(s) == Product(t)
  {
    PermutationMembers(s, t);
    if s != [] {
      assert s[0] in t;
      var j :| 0 <= j < |t| && t[j] == s[0];
      ProductWithout(t, j);
      SplitAt(t, j);
      assert s == [s[0]] + s[1..];
      assert multiset(s[1..]) == multiset(s) - multiset{s[0]};
      assert multiset(t[..j] + t[j + 1..]) == multiset(t) - multiset{s[0]};
      ProductPermutation(s[1..], t[..j] + t[j + 1..]);
    }
  }

  function Residues(n: nat): (r: seq<int>)
    ensures |r| == n && forall i :: 0 <= i < n ==> r[i] == i + 1
  {
    seq(n, i => i + 1)
  }

  function Scaled(a: int, n: nat, p: int): (r: seq<int>)
    requires p > 0
    ensures |r| == n && forall i :: 0 <= i < n ==> r[i] == (a * (i + 1)) % p
  {
    seq(n, i => (a * (i + 1)) % p)
  }

  lemma {:induction false} ScaledProduct(a: int, n: nat, p: int)
    requires p > 0
    ensures Cong(Product(Scaled(a, n, p)), Pow(a, n) * Product(Residues(n)), p)
  {
    if n > 0 {
      ScaledProduct(a, n - 1, p);
      var s, r := Scaled(a, n - 1, p), Residues(n - 1);
      assert Scaled(a, n, p) == s + [(a * n) % p] && Residues(n) == r + [n];
      ProductAppend(s, [(a * n) % p]);
      ProductAppend(r, [n]);
      assert Product([(a * n) % p]) == (a * n) % p by { assert [(a * n) % p][1..] == []; }
      assert Product([n]) == n by { assert [n][1..] == []; }
      CongMod(a * n, p);
      CongMul(Product(s), Pow(a, n - 1) * Product(r), (a * n) % p, a * n, p);
      Shuffle(Pow(a, n - 1), Product(r), a, n);
      assert Pow(a, n - 1) * a == Pow(a, n) by { assert Pow(a, n) == a * Pow(a, n - 1); }
    }
  }

  lemma {:induction false} ProductNonzero(n: nat, p: nat)
    requires IsPrime(p) && n < p
    ensures Product(Residues(n)) % p != 0
  {
    if n == 0 {
      ModSmall(1, p);
    } else {
      ProductNonzero(n - 1, p);
      assert Residues(n) == Residues(n - 1) + [n];
      ProductAppend(Residues(n - 1), [n]);
      assert Product([n]) == n by { assert [n][1..] == []; }
      ModSmall(n, p);
      if Product(Residues(n)) % p == 0 {
        ZeroProduct(Product(Residues(n - 1)), n, p);
      }
    }
  }

  lemma ScaledDistinct(a: int, p: nat)
    requires IsPrime(p) && a % p != 0
    ensures Distinct(Scaled(a, p - 1, p)) && Distinct(Residues(p - 1))
  {
    var s := Scaled(a, p - 1, p);
    forall i, j | 0 <= i < j < |s|
      ensures s[i] != s[j]
    {
      if s[i] == s[j] {
        Cancel(a, i + 1, j + 1, p);
        CongSmall(i + 1, j + 1, p);
      }
    }
  }

  lemma ScaledStays(a: int, p: nat, i: nat)
    requires IsPrime(p) && a % p != 0 && 0 < i < p
    ensures 0 < (a * i) % p < p
  {
    ModSmall(i, p);
    if (a * i) % p == 0 { ZeroProduct(a, i, p); }
  }

  /** Multiplication by a nonzero class reaches every nonzero class. */
  lemma ScaledReaches(a: int, p: nat, y: int) returns (x: nat)
    requires IsPrime(p) && a % p != 0 && 0 < y < p
    ensures 0 < x < p && (a * x) % p == y
  {
    x := (Inv(a, p) * y) % p;
    CongMod(Inv(a, p) * y, p);
    CongScale(x, Inv(a, p) * y, a, p);
    assert a * (Inv(a, p) * y) == (a * Inv(a, p)) * y;
    ModSmall(1, p);
    CongMul(a * Inv(a, p), 1, y, y, p);
    ModSmall(y, p);
    if x == 0 { ModSmall(0, p); }
  }

  lemma ScaledMembers(a: int, p: nat, y: int)
    requires IsPrime(p) && a % p != 0
    ensures y in Scaled(a, p - 1, p) <==> y in Residues(p - 1)
  {
    var s, r := Scaled(a, p - 1, p), Residues(p - 1);
    if y in s {
      var i :| 0 <= i < |s| && s[i] == y;
      ScaledStays(a, p, i + 1);
      assert r[y - 1] == y;
    }
    if y in r {
      var x := ScaledReaches(a, p, y);
      assert s[x - 1] == y;
    }
  }

  /** Fermat's little theorem. */
  lemma Fermat(a: int, p: nat)
    requires IsPrime(p) && a % p != 0
    ensures Pow(a, p - 1) % p == 1
  {
    var s, r := Scaled(a, p - 1, p), Residues(p - 1);
    ScaledDistinct(a, p);
    forall y
      ensures y in s <==> y in r
    {
      ScaledMembers(a, p, y);
    }
    DistinctSameMembers(s, r);
    ProductPermutation(s, r);
    ScaledProduct(a, p - 1, p);
    ProductNonzero(p - 1, p);
    var f := Product(r);
    assert Cong(f * Pow(a, p - 1), f * 1, p) by {
      assert Pow(a, p - 1) * f == f * Pow(a, p - 1);
    }
    Cancel(f, Pow(a, p - 1), 1, p);
    ModSmall(1, p);
  }

  ghost predicate IsRoot(r: int, v: int, p: nat)
    requires p > 0
  {
    Cong(r * r, v, p)
  }

  lemma RootNonzero(r: int, v: int, p: nat)
    requires p > 0 && v % p != 0 && IsRoot(r, v, p)
    ensures r % p != 0
  {
    if r % p == 0 {
      ModSmall(0, p);
      CongMul(r, 0, r, r, p);
    }
  }

  /** A square raised to (p - 1) / 2 is one. */
  lemma SquareHasUnitPower(r: int, v: int, p: nat)
    requires IsPrime(p) && p % 2 == 1 && v % p != 0 && IsRoot(r, v, p)
    ensures Pow(v, (p - 1) / 2) % p == 1
  {
    var e := (p - 1) / 2;
    RootNonzero(r, v, p);
    PowCong(r * r, v, e, p);
    PowSquare(r, e);
    Fermat(r, p);
  }

  /** When p = 3 mod 4, the power (p + 1) / 4 of a value with unit power is a root of it. */
  lemma UnitPowerHasRoot(v: int, p: nat)
    requires IsPrime(p) && p % 4 == 3 && (v % p == 0 || Pow(v, (p - 1) / 2) % p == 1)
    ensures IsRoot(Pow(v, (p + 1) / 4), v, p)
  {
    var e := (p + 1) / 4;
    PowAdd(v, e, e);
    assert e + e == (p - 1) / 2 + 1;
    assert Pow(v, e + e) == v * Pow(v, (p - 1) / 2);
    if v % p == 0 {
      ModSmall(0, p);
      CongMul(v, 0, Pow(v, (p - 1) / 2), Pow(v, (p - 1) / 2), p);
    } else {
      ModSmall(1, p);
      CongScale(Pow(v, (p - 1) / 2), 1, v, p);
    }
  }
}
