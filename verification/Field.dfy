/** Arithmetic modulo a prime: congruences over the integers, extended Euclid,
    inverses and the absence of zero divisors. The scalar field of the curve
    and the coordinate field of the ECVRF curve are both instances. */
module Field {

  ghost predicate IsPrime(p: nat) {
    p > 1 && forall d: nat {:trigger p % d} :: 1 < d < p ==> p % d != 0
  }

  /** The remainder of JavaScript's BigInt `%`: it truncates towards zero. */
  function TruncatedRemainder(a: int, m: int): int
    requires m > 0
  {
    if a >= 0 then a % m else -((-a) % m)
  }

  /** The `mod` helper: a truncated remainder moved into [0, m). */
  function Mod(value: int, m: int): (r: int)
    requires m > 0
    ensures 0 <= r < m && r == value % m
  {
    var reduced := TruncatedRemainder(value, m);
    var r := if reduced >= 0 then reduced else reduced + m;
    assert r == value % m by {
      if value < 0 {
        if (-value) % m == 0 {
          ModUnique(value, -((-value) / m), 0, m);
        } else {
          ModUnique(value, -((-value) / m) - 1, r, m);
        }
      }
    }
    r
  }

  ghost predicate Cong(a: int, b: int, p: int)
    requires p > 0
  {
    a % p == b % p
  }

  lemma ModUnique(a: int, q: int, r: int, m: int)
    requires m > 0 && 0 <= r < m && a == q * m + r
    ensures a % m == r
  {
    var d := a / m - q;
    assert d * m == r - a % m;
    assert d >= 1 ==> d * m >= m;
    assert d <= -1 ==> d * m <= -m;
    assert d == 0;
  }

  lemma CongFrom(a: int, b: int, k: int, p: int)
    requires p > 0 && a == b + k * p
    ensures Cong(a, b, p)
  {
    assert a == (b / p + k) * p + b % p;
    ModUnique(a, b / p + k, b % p, p);
  }

  lemma CongWitness(a: int, b: int, p: int) returns (k: int)
    requires p > 0 && Cong(a, b, p)
    ensures a == b + k * p
  {
    k := a / p - b / p;
    assert k * p == (a / p) * p - (b / p) * p;
  }

  lemma CongMod(a: int, p: int)
    requires p > 0
    ensures Cong(a % p, a, p)
  {
    CongFrom(a % p, a, -(a / p), p);
  }

  lemma CongAdd(a: int, b: int, c: int, d: int, p: int)
    requires p > 0 && Cong(a, b, p) && Cong(c, d, p)
    ensures Cong(a + c, b + d, p)
    ensures Cong(a - c, b - d, p)
  {
    var k := CongWitness(a, b, p);
    var l := CongWitness(c, d, p);
    assert (k + l) * p == k * p + l * p;
    assert (k - l) * p == k * p - l * p;
    CongFrom(a + c, b + d, k + l, p);
    CongFrom(a - c, b - d, k - l, p);
  }

  lemma CongMul(a: int, b: int, c: int, d: int, p: int)
    requires p > 0 && Cong(a, b, p) && Cong(c, d, p)
    ensures Cong(a * c, b * d, p)
  {
    var k := CongWitness(a, b, p);
    var l := CongWitness(c, d, p);
    var w := b * l + k * d + k * l * p;
    calc {
      a * c;
      (b + k * p) * (d + l * p);
      b * d + b * (l * p) + (k * p) * d + (k * p) * (l * p);
      { assert b * (l * p) == (b * l) * p; assert (k * p) * d == (k * d) * p;
        assert (k * p) * (l * p) == (k * l * p) * p; }
      b * d + (b * l) * p + (k * d) * p + (k * l * p) * p;
      b * d + w * p;
    }
    CongFrom(a * c, b * d, w, p);
  }

  /** Multiplying both sides by the same factor. */
  lemma CongScale(a: int, b: int, c: int, p: int)
    requires p > 0 && Cong(a, b, p)
    ensures Cong(c * a, c * b, p)
  {
    CongMul(c, c, a, b, p);
  }

  /** A value below the modulus is determined by its class. */
  lemma CongSmall(a: int, b: int, p: int)
    requires p > 0 && 0 <= a < p && 0 <= b < p && Cong(a, b, p)
    ensures a == b
  {
    ModUnique(a, 0, a, p);
    ModUnique(b, 0, b, p);
  }

  lemma ModSmall(a: int, p: int)
    requires 0 <= a < p
    ensures a % p == a
  {
    ModUnique(a, 0, a, p);
  }

  lemma CongToZero(a: int, b: int, p: int)
    requires p > 0 && Cong(a, b, p)
    ensures (a - b) % p == 0
  {
    ModSmall(0, p);
    CongAdd(a, b, b, b, p);
  }

  lemma ZeroToCong(a: int, b: int, p: int)
    requires p > 0 && (a - b) % p == 0
    ensures Cong(a, b, p)
  {
    ModSmall(0, p);
    CongAdd(a - b, 0, b, b, p);
  }

  /** Distinct values below the modulus differ modulo it. */
  lemma DifferenceNonzero(a: int, b: int, p: int)
    requires p > 0 && !Cong(a, b, p)
    ensures (a - b) % p != 0
  {
    if (a - b) % p == 0 {
      ZeroToCong(a, b, p);
    }
  }

  // ---------------------------------------------------------------- Euclid

  ghost predicate Coprime(x: int, y: int) {
    forall d: int {:trigger x % d} {:trigger y % d} :: d > 1 ==> !(x % d == 0 && y % d == 0)
  }

  lemma DividesSum(high: int, low: int, q: int, r: int, d: int)
    requires d > 0 && high == q * low + r && low % d == 0 && r % d == 0
    ensures high % d == 0
  {
    ModSmall(0, d);
    CongScale(low, 0, q, d);
    CongAdd(q * low, q * 0, r, 0, d);
  }

  lemma PrimeCoprime(a: int, p: nat)
    requires IsPrime(p) && 0 < a < p
    ensures Coprime(a, p)
  {
    forall d: int | d > 1 && a % d == 0
      ensures p % d != 0
    {
      if d >= p { ModSmall(a, d); }
    }
  }

  lemma QuotientRest(low: int, high: int)
    requires 0 < low
    ensures high - low * (high / low) == high % low
  {
    assert low * (high / low) == (high / low) * low;
  }

  lemma CoprimeRest(low: int, high: int)
    requires 0 < low && Coprime(low, high)
    ensures Coprime(high % low, low)
  {
    forall d: int | d > 1 && low % d == 0
      ensures (high % low) % d != 0
    {
      if (high % low) % d == 0 {
        DividesSum(high, low, high / low, high % low, d);
        assert false;
      }
    }
  }

  lemma CombineRows(low: int, high: int, lm: int, hm: int, ratio: int, a: int, p: nat)
    requires p > 0 && Cong(lm * a, low, p) && Cong(hm * a, high, p)
    ensures Cong((hm - lm * ratio) * a, high - low * ratio, p)
  {
    CongScale(lm * a, low, ratio, p);
    CongAdd(hm * a, high, ratio * (lm * a), ratio * low, p);
    assert ratio * (lm * a) == (lm * ratio) * a;
    assert (hm - lm * ratio) * a == hm * a - (lm * ratio) * a;
    assert ratio * low == low * ratio;
  }

  /** One division step keeps everything extended Euclid relies on. */
  lemma EuclidStep(low: int, high: int, lm: int, hm: int, a: int, p: nat)
    requires p > 0 && 1 < low < high && Coprime(low, high)
    requires Cong(lm * a, low, p) && Cong(hm * a, high, p)
    ensures 0 <= high - low * (high / low) < low
    ensures Coprime(high - low * (high / low), low)
    ensures Cong((hm - lm * (high / low)) * a, high - low * (high / low), p)
  {
    QuotientRest(low, high);
    CoprimeRest(low, high);
    CombineRows(low, high, lm, hm, high / low, a, p);
  }

  lemma EuclidEnd(low: int, high: int)
    requires 0 <= low <= 1 && low < high && Coprime(low, high) && (low == 0 ==> high > 1)
    ensures low == 1
  {
    if low == 0 {
      ModSmall(0, high);
      ModUnique(high, 1, 0, high);
      assert false;
    }
  }

  lemma {:induction false} EuclidFinds(low: int, high: int, lm: int, hm: int, a: int, p: nat) returns (x: int)
    requires p > 0 && 0 <= low < high && Coprime(low, high) && (low == 0 ==> high > 1)
    requires Cong(lm * a, low, p) && Cong(hm * a, high, p)
    ensures Cong(x * a, 1, p)
    decreases low
  {
    if low > 1 {
      EuclidStep(low, high, lm, hm, a, p);
      var ratio := high / low;
      x := EuclidFinds(high - low * ratio, low, hm - lm * ratio, lm, a, p);
    } else {
      EuclidEnd(low, high);
      x := lm;
    }
  }

  /** Every nonzero class has exactly one inverse below a prime modulus. */
  lemma InverseExists(a: int, p: nat) returns (x: nat)
    requires IsPrime(p) && a % p != 0
    ensures x < p && (a * x) % p == 1
  {
    var low := a % p;
    PrimeCoprime(low, p);
    CongMod(a, p);
    ModUnique(p, 1, 0, p);
    ModSmall(0, p);
    var y := EuclidFinds(low, p, 1, 0, a, p);
    x := y % p;
    CongMod(y, p);
    CongMul(x, y, a, a, p);
    ModSmall(1, p);
    assert a * x == x * a;
  }

  lemma SomeInverse(a: int, p: nat)
    requires IsPrime(p) && a % p != 0
    ensures exists x: nat {:trigger IsInverse(a, x, p)} :: IsInverse(a, x, p)
  {
    var x := InverseExists(a, p);
    assert IsInverse(a, x, p);
  }

  ghost predicate IsInverse(a: int, x: nat, p: nat)
    requires p > 0
  {
    x < p && (a * x) % p == 1
  }

  ghost function Inv(a: int, p: nat): (r: nat)
    requires IsPrime(p) && a % p != 0
    ensures r < p && (a * r) % p == 1
  {
    SomeInverse(a, p);
    var x: nat :| IsInverse(a, x, p);
    x
  }

  /** Cancelling a nonzero factor. */
  lemma Cancel(a: int, x: int, y: int, p: nat)
    requires IsPrime(p) && a % p != 0 && Cong(a * x, a * y, p)
    ensures Cong(x, y, p)
  {
    var i := Inv(a, p);
    ModSmall(1, p);
    CongScale(a * x, a * y, i, p);
    CongMul(a * i, 1, x, x, p);
    CongMul(a * i, 1, y, y, p);
    assert i * (a * x) == (a * i) * x;
    assert i * (a * y) == (a * i) * y;
  }

  /** A prime modulus has no zero divisors. */
  lemma ZeroProduct(a: int, b: int, p: nat)
    requires IsPrime(p) && (a * b) % p == 0
    ensures a % p == 0 || b % p == 0
  {
    ModSmall(0, p);
    if a % p != 0 {
      assert a * 0 == 0;
      Cancel(a, b, 0, p);
    }
  }

  lemma InvUnique(a: int, x: nat, p: nat)
    requires IsPrime(p) && a % p != 0 && x < p && (a * x) % p == 1
    ensures x == Inv(a, p)
  {
    Cancel(a, x, Inv(a, p), p);
    CongSmall(x, Inv(a, p), p);
  }
}
