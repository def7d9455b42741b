/** Polynomials as coefficient sequences, constant term first. Evaluation is
    exact over the integers; only roots and interpolation work modulo a prime. */
module Polynomial {
  import opened Field

  function Eval(f: seq<int>, x: int): int {
    if f == [] then 0 else f[0] + x * Eval(f[1..], x)
  }

  function Add(f: seq<int>, g: seq<int>): (h: seq<int>)
    requires |f| == |g|
    ensures |h| == |f| && forall i :: 0 <= i < |f| ==> h[i] == f[i] + g[i]
  {
    seq(|f|, i requires 0 <= i < |f| => f[i] + g[i])
  }

  function Scale(k: int, f: seq<int>): (h: seq<int>)
    ensures |h| == |f| && forall i :: 0 <= i < |f| ==> h[i] == k * f[i]
  {
    seq(|f|, i requires 0 <= i < |f| => k * f[i])
  }

  /** The quotient of f by (X - a). */
  function Quotient(f: seq<int>, a: int): (q: seq<int>)
    ensures |q| == if f == [] then 0 else |f| - 1
  {
    if |f| <= 1 then [] else [Eval(f[1..], a)] + Quotient(f[1..], a)
  }

  /** (X - a) * f. */
  function MulLinear(f: seq<int>, a: int): (h: seq<int>)
    ensures |h| == |f| + 1
  {
    Add([0] + f, Scale(-a, f) + [0])
  }

  lemma {:induction false} EvalAdd(f: seq<int>, g: seq<int>, x: int)
    requires |f| == |g|
    ensures Eval(Add(f, g), x) == Eval(f, x) + Eval(g, x)
  {
    if f != [] {
      EvalAdd(f[1..], g[1..], x);
      assert Add(f, g)[1..] == Add(f[1..], g[1..]);
      assert x * (Eval(f[1..], x) + Eval(g[1..], x)) == x * Eval(f[1..], x) + x * Eval(g[1..], x);
    }
  }

  lemma {:induction false} EvalScale(k: int, f: seq<int>, x: int)
    ensures Eval(Scale(k, f), x) == k * Eval(f, x)
  {
    if f != [] {
      EvalScale(k, f[1..], x);
      assert Scale(k, f)[1..] == Scale(k, f[1..]);
      var e := Eval(f[1..], x);
      assert x * (k * e) == k * (x * e);
      assert k * (f[0] + x * e) == k * f[0] + k * (x * e);
    }
  }

  lemma {:induction false} EvalPad(f: seq<int>, n: nat, x: int)
    ensures Eval(f + seq(n, _ => 0), x) == Eval(f, x)
    decreases |f|, n
  {
    if f != [] {
      EvalPad(f[1..], n, x);
      assert (f + seq(n, _ => 0))[1..] == f[1..] + seq(n, _ => 0);
    } else if n > 0 {
      EvalPad([], n - 1, x);
      assert ([] + seq(n, _ => 0))[1..] == [] + seq(n - 1, _ => 0);
    }
  }

  lemma EvalMulLinear(f: seq<int>, a: int, x: int)
    ensures Eval(MulLinear(f, a), x) == (x - a) * Eval(f, x)
  {
    var low := Scale(-a, f) + [0];
    EvalAdd([0] + f, low, x);
    assert ([0] + f)[1..] == f;
    EvalPad(Scale(-a, f), 1, x);
    assert low == Scale(-a, f) + seq(1, _ => 0);
    EvalScale(-a, f, x);
    assert (x - a) * Eval(f, x) == x * Eval(f, x) + (-a) * Eval(f, x);
  }

  lemma {:induction false} Division(f: seq<int>, a: int, x: int)
    ensures Eval(f, x) == Eval(f, a) + (x - a) * Eval(Quotient(f, a), x)
  {
    if |f| == 1 {
      assert Eval(f[1..], x) == 0 && Eval(f[1..], a) == 0;
    } else if |f| > 1 {
      var g := f[1..];
      Division(g, a, x);
      var q := Quotient(g, a);
      var gx, ga, qx := Eval(g, x), Eval(g, a), Eval(q, x);
      assert ([ga] + q)[1..] == q;
      assert Eval(Quotient(f, a), x) == ga + x * qx;
      DivisionAlgebra(x, a, gx, ga, qx);
    }
  }

  lemma DivisionAlgebra(x: int, a: int, gx: int, ga: int, qx: int)
    requires gx == ga + (x - a) * qx
    ensures x * gx == a * ga + (x - a) * (ga + x * qx)
  {
    var w := (x - a) * qx;
    assert (x - a) * (ga + x * qx) == (x - a) * ga + (x - a) * (x * qx);
    assert (x - a) * (x * qx) == x * w;
    assert x * gx == x * ga + x * w;
    assert (x - a) * ga == x * ga - a * ga;
  }

  /** Evaluation only depends on the class of the point. */
  lemma {:induction false} EvalCong(f: seq<int>, x: int, y: int, p: nat)
    requires p > 0 && Cong(x, y, p)
    ensures Cong(Eval(f, x), Eval(f, y), p)
  {
    if f != [] {
      EvalCong(f[1..], x, y, p);
      CongMul(x, y, Eval(f[1..], x), Eval(f[1..], y), p);
      CongAdd(f[0], f[0], x * Eval(f[1..], x), y * Eval(f[1..], y), p);
    }
  }

  /** Evaluation only depends on the classes of the coefficients. */
  lemma {:induction false} EvalCoefficientsCong(f: seq<int>, g: seq<int>, x: int, p: nat)
    requires p > 0 && |f| == |g| && forall i :: 0 <= i < |f| ==> Cong(f[i], g[i], p)
    ensures Cong(Eval(f, x), Eval(g, x), p)
  {
    if f != [] {
      EvalCoefficientsCong(f[1..], g[1..], x, p);
      CongScale(Eval(f[1..], x), Eval(g[1..], x), x, p);
      CongAdd(f[0], g[0], x * Eval(f[1..], x), x * Eval(g[1..], x), p);
    }
  }

  lemma EvalAtZero(f: seq<int>)
    requires f != []
    ensures Eval(f, 0) == f[0]
  {
    assert 0 * Eval(f[1..], 0) == 0;
  }

  // ------------------------------------------------------------ root counting

  ghost predicate DistinctMod(xs: seq<int>, p: nat)
    requires p > 0
  {
    forall i, j :: 0 <= i < j < |xs| ==> !Cong(xs[i], xs[j], p)
  }

  ghost predicate Vanishes(f: seq<int>, xs: seq<int>, p: nat)
    requires p > 0
  {
    forall i :: 0 <= i < |xs| ==> Eval(f, xs[i]) % p == 0
  }

  /** A polynomial with as many distinct roots as coefficients is zero everywhere. */
  lemma {:induction false} TooManyRoots(f: seq<int>, xs: seq<int>, z: int, p: nat)
    requires IsPrime(p) && |f| <= |xs| && DistinctMod(xs, p) && Vanishes(f, xs, p)
    ensures Eval(f, z) % p == 0
    decreases |f|
  {
    if f != [] {
      var n := |xs| - 1;
      var a, q := xs[n], Quotient(f, xs[n]);
      ModSmall(0, p);
      forall i | 0 <= i < n
        ensures Eval(q, xs[..n][i]) % p == 0
      {
        var b := xs[i];
        Division(f, a, b);
        CongAdd(Eval(f, b), 0, Eval(f, a), 0, p);
        DifferenceNonzero(b, a, p);
        ZeroProduct(b - a, Eval(q, b), p);
      }
      TooManyRoots(q, xs[..n], z, p);
      Division(f, a, z);
      CongScale(Eval(q, z), 0, z - a, p);
      CongAdd(Eval(f, a), 0, (z - a) * Eval(q, z), (z - a) * 0, p);
    }
  }

  function Padded(f: seq<int>, n: nat): (h: seq<int>)
    requires |f| <= n
    ensures |h| == n
  {
    f + seq(n - |f|, _ => 0)
  }

  function Difference(f: seq<int>, g: seq<int>, n: nat): (h: seq<int>)
    requires |f| <= n && |g| <= n
    ensures |h| == n
  {
    Add(Padded(f, n), Scale(-1, Padded(g, n)))
  }

  lemma EvalDifference(f: seq<int>, g: seq<int>, n: nat, x: int)
    requires |f| <= n && |g| <= n
    ensures Eval(Difference(f, g, n), x) == Eval(f, x) - Eval(g, x)
  {
    EvalPad(f, n - |f|, x);
    EvalPad(g, n - |g|, x);
    EvalScale(-1, Padded(g, n), x);
    EvalAdd(Padded(f, n), Scale(-1, Padded(g, n)), x);
  }

  lemma AgreementAt(f: seq<int>, g: seq<int>, n: nat, x: int, p: nat)
    requires p > 0 && |f| <= n && |g| <= n
    ensures Cong(Eval(f, x), Eval(g, x), p) <==> Eval(Difference(f, g, n), x) % p == 0
  {
    EvalDifference(f, g, n, x);
    var a, b := Eval(f, x), Eval(g, x);
    if Cong(a, b, p) { CongToZero(a, b, p); }
    if (a - b) % p == 0 { ZeroToCong(a, b, p); }
  }

  /** Two polynomials of at most n coefficients that agree on n points agree everywhere. */
  lemma AgreeEverywhere(f: seq<int>, g: seq<int>, xs: seq<int>, z: int, p: nat)
    requires IsPrime(p) && |f| <= |xs| && |g| <= |xs| && DistinctMod(xs, p)
    requires forall i :: 0 <= i < |xs| ==> Cong(Eval(f, xs[i]), Eval(g, xs[i]), p)
    ensures Cong(Eval(f, z), Eval(g, z), p)
  {
    var n := |xs|;
    forall i | 0 <= i < |xs|
      ensures Eval(Difference(f, g, n), xs[i]) % p == 0
    {
      AgreementAt(f, g, n, xs[i], p);
    }
    TooManyRoots(Difference(f, g, n), xs, z, p);
    AgreementAt(f, g, n, z, p);
  }

  // ------------------------------------------------------------ interpolation

  /** Product of (z - x) over the members of xs other than a. */
  function Others(xs: seq<int>, a: int, z: int): int {
    if xs == [] then 1
    else
      var x, rest := xs[|xs| - 1], Others(xs[..|xs| - 1], a, z);
      if x == a then rest else (z - x) * rest
  }

  function OthersCount(xs: seq<int>, a: int): nat {
    if xs == [] then 0
    else OthersCount(xs[..|xs| - 1], a) + (if xs[|xs| - 1] == a then 0 else 1)
  }

  /** The coefficients of that product as a polynomial in z. */
  function OthersPoly(xs: seq<int>, a: int): (f: seq<int>)
    ensures |f| == OthersCount(xs, a) + 1
  {
    if xs == [] then [1]
    else
      var x := xs[|xs| - 1];
      var g := OthersPoly(xs[..|xs| - 1], a);
      if x == a then g else MulLinear(g, x)
  }

  lemma {:induction false} EvalOthers(xs: seq<int>, a: int, z: int)
    ensures Eval(OthersPoly(xs, a), z) == Others(xs, a, z)
  {
    if xs == [] {
      EvalOne(z);
    } else {
      var x, rest := xs[|xs| - 1], xs[..|xs| - 1];
      EvalOthers(rest, a, z);
      if x != a {
        EvalMulLinear(OthersPoly(rest, a), x, z);
      }
    }
  }

  lemma EvalOne(z: int)
    ensures Eval([1], z) == 1
  {
    assert z * 0 == 0;
  }

  lemma {:induction false} OthersCountMember(xs: seq<int>, a: int)
    requires forall i, j :: 0 <= i < j < |xs| ==> xs[i] != xs[j]
    ensures OthersCount(xs, a) == if a in xs then |xs| - 1 else |xs|
  {
    if xs != [] {
      var n := |xs| - 1;
      OthersCountMember(xs[..n], a);
      assert xs == xs[..n] + [xs[n]];
      if xs[n] == a {
        assert a !in xs[..n];
      }
    }
  }

  lemma {:induction false} OthersZero(xs: seq<int>, a: int, z: int)
    requires z in xs && z != a
    ensures Others(xs, a, z) == 0
  {
    var n := |xs| - 1;
    assert xs == xs[..n] + [xs[n]];
    if xs[n] != z {
      OthersZero(xs[..n], a, z);
    } else {
      assert 0 * Others(xs[..n], a, z) == 0;
    }
  }

  lemma {:induction false} OthersNonzero(xs: seq<int>, a: int, p: nat)
    requires IsPrime(p) && forall x :: x in xs && x != a ==> !Cong(a, x, p)
    ensures Others(xs, a, a) % p != 0
  {
    if xs == [] {
      ModSmall(1, p);
    } else {
      var n := |xs| - 1;
      var x := xs[n];
      assert forall y :: y in xs[..n] ==> y in xs;
      OthersNonzero(xs[..n], a, p);
      if x != a {
        DifferenceNonzero(a, x, p);
        if Others(xs, a, a) % p == 0 {
          ZeroProduct(a - x, Others(xs[..n], a, a), p);
        }
      }
    }
  }

  /** sum over k < n of c[k] * OthersPoly(xs, xs[k]). */
  function Combination(xs: seq<int>, c: seq<int>, n: nat): (f: seq<int>)
    requires |c| == |xs| && n <= |xs|
    requires forall i, j :: 0 <= i < j < |xs| ==> xs[i] != xs[j]
    ensures |f| == |xs|
  {
    if n == 0 then seq(|xs|, _ => 0)
    else
      OthersCountMember(xs, xs[n - 1]);
      Add(Combination(xs, c, n - 1), Scale(c[n - 1], OthersPoly(xs, xs[n - 1])))
  }

  function CombinationAt(xs: seq<int>, c: seq<int>, n: nat, z: int): int
    requires |c| == |xs| && n <= |xs|
  {
    if n == 0 then 0
    else CombinationAt(xs, c, n - 1, z) + c[n - 1] * Others(xs, xs[n - 1], z)
  }

  lemma {:induction false} EvalCombination(xs: seq<int>, c: seq<int>, n: nat, z: int)
    requires |c| == |xs| && n <= |xs|
    requires forall i, j :: 0 <= i < j < |xs| ==> xs[i] != xs[j]
    ensures Eval(Combination(xs, c, n), z) == CombinationAt(xs, c, n, z)
  {
    if n == 0 {
      EvalPad([], |xs|, z);
      assert [] + seq(|xs|, _ => 0) == seq(|xs|, _ => 0);
    } else {
      EvalCombination(xs, c, n - 1, z);
      CombinationStep(xs, c, n, z);
    }
  }

  lemma CombinationStep(xs: seq<int>, c: seq<int>, n: nat, z: int)
    requires |c| == |xs| && 0 < n <= |xs|
    requires forall i, j :: 0 <= i < j < |xs| ==> xs[i] != xs[j]
    ensures Eval(Combination(xs, c, n), z) == Eval(Combination(xs, c, n - 1), z) + c[n - 1] * Others(xs, xs[n - 1], z)
  {
    OthersCountMember(xs, xs[n - 1]);
    var b := Scale(c[n - 1], OthersPoly(xs, xs[n - 1]));
    EvalAdd(Combination(xs, c, n - 1), b, z);
    EvalScaledOthers(xs, xs[n - 1], c[n - 1], z);
  }

  lemma EvalScaledOthers(xs: seq<int>, a: int, k: int, z: int)
    ensures Eval(Scale(k, OthersPoly(xs, a)), z) == k * Others(xs, a, z)
  {
    EvalScale(k, OthersPoly(xs, a), z);
    EvalOthers(xs, a, z);
  }

  /** At a node only that node's own term survives. */
  lemma {:induction false} CombinationAtNode(xs: seq<int>, c: seq<int>, n: nat, j: nat)
    requires |c| == |xs| && n <= |xs| && j < |xs|
    requires forall i, j :: 0 <= i < j < |xs| ==> xs[i] != xs[j]
    ensures CombinationAt(xs, c, n, xs[j]) == if j < n then c[j] * Others(xs, xs[j], xs[j]) else 0
  {
    if n > 0 {
      CombinationAtNode(xs, c, n - 1, j);
      if n - 1 != j {
        OthersZero(xs, xs[n - 1], xs[j]);
        assert c[n - 1] * 0 == 0;
      }
    }
  }

  /** Lagrange weights in terms of products only: c[k] * prod (x_k - x_j) is the value at x_k. */
  lemma CombinationInterpolates(f: seq<int>, xs: seq<int>, c: seq<int>, z: int, p: nat)
    requires IsPrime(p) && |f| <= |xs| == |c| && DistinctMod(xs, p)
    requires forall k :: 0 <= k < |xs| ==> Cong(c[k] * Others(xs, xs[k], xs[k]), Eval(f, xs[k]), p)
    ensures Cong(CombinationAt(xs, c, |xs|, z), Eval(f, z), p)
  {
    assert forall i, j :: 0 <= i < j < |xs| ==> xs[i] != xs[j];
    var h := Combination(xs, c, |xs|);
    forall k | 0 <= k < |xs|
      ensures Cong(Eval(h, xs[k]), Eval(f, xs[k]), p)
    {
      EvalCombination(xs, c, |xs|, xs[k]);
      CombinationAtNode(xs, c, |xs|, k);
    }
    AgreeEverywhere(h, f, xs, z, p);
    EvalCombination(xs, c, |xs|, z);
  }

  /** Some polynomial of n coefficients takes any n prescribed values. */
  lemma {:induction false} InterpolantExists(xs: seq<int>, ys: seq<int>, p: nat) returns (f: seq<int>)
    requires IsPrime(p) && |xs| == |ys| && DistinctMod(xs, p)
    ensures |f| == |xs|
    ensures forall k :: 0 <= k < |f| ==> 0 <= f[k] < p
    ensures forall k :: 0 <= k < |xs| ==> Cong(Eval(f, xs[k]), ys[k], p)
  {
    assert forall i, j :: 0 <= i < j < |xs| ==> xs[i] != xs[j];
    var c := [];
    for k := 0 to |xs|
      invariant |c| == k
      invariant forall i :: 0 <= i < k ==> Cong(c[i] * Others(xs, xs[i], xs[i]), ys[i], p)
    {
      forall x | x in xs && x != xs[k]
        ensures !Cong(xs[k], x, p)
      {
        var j :| 0 <= j < |xs| && xs[j] == x;
        if j < k { assert !Cong(xs[j], xs[k], p); }
      }
      OthersNonzero(xs, xs[k], p);
      var o := Others(xs, xs[k], xs[k]);
      var i := Inv(o, p);
      ModSmall(1, p);
      CongScale(o * i, 1, ys[k], p);
      assert (ys[k] * i) * o == ys[k] * (o * i);
      c := c + [ys[k] * i];
    }
    var h := Combination(xs, c, |xs|);
    f := seq(|h|, i requires 0 <= i < |h| => h[i] % p);
    forall i | 0 <= i < |h| ensures Cong(f[i], h[i], p) { CongMod(h[i], p); }
    forall k | 0 <= k < |xs|
      ensures Cong(Eval(f, xs[k]), ys[k], p)
    {
      EvalCombination(xs, c, |xs|, xs[k]);
      CombinationAtNode(xs, c, |xs|, k);
      EvalCoefficientsCong(f, h, xs[k], p);
    }
  }
}
