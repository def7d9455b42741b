/** operator/threshold-crypto.mjs. A curve point is its discrete logarithm modulo
    the scalar order p, so `multiply` is multiplication and a pairing check is an
    equality of products. */
module ThresholdCrypto {
  import opened Outcomes
  import opened Field
  import opened FieldPowers
  import opened Polynomial

  /** What arrives in a point field: bytes that do not decode, or a point. */
  datatype Wire = Malformed | Encoded(log: nat)

  datatype Share = Share(index: int, publicKey: Wire, signature: Wire)

  datatype Aggregate = Aggregate(signature: nat, indexes: seq<int>)

  function Decode(w: Wire, p: nat, allowInfinity: bool): Result<nat> {
    if w.Encoded? && w.log < p && (allowInfinity || w.log != 0) then Ok(w.log) else Failure
  }

  predicate ValidIndex(x: int, p: nat) { 0 < x < p }

  predicate ValidIndexes(xs: seq<int>, p: nat) {
    && (forall i :: 0 <= i < |xs| ==> ValidIndex(xs[i], p))
    && (forall i, j :: 0 <= i < j < |xs| ==> xs[i] != xs[j])
  }

  // -------------------------------------------------------- Lagrange weights

  function Numerator(xs: seq<int>, a: int): int {
    if xs == [] then 1
    else
      var x, rest := xs[|xs| - 1], Numerator(xs[..|xs| - 1], a);
      if x == a then rest else rest * x
  }

  function Denominator(xs: seq<int>, a: int): int {
    if xs == [] then 1
    else
      var x, rest := xs[|xs| - 1], Denominator(xs[..|xs| - 1], a);
      if x == a then rest else rest * (x - a)
  }

  lemma Regroup(a: int, b: int, c: int, d: int)
    ensures (a * b) * (c * d) == (a * d) * (b * c)
  {
    assert (a * b) * (c * d) == a * (b * (c * d));
    assert b * (c * d) == d * (b * c);
    assert a * (d * (b * c)) == (a * d) * (b * c);
  }

  lemma CrossStep(n: int, d: int, o: int, z: int, x: int, a: int)
    requires n * o == z * d
    ensures (n * x) * ((a - x) * o) == ((0 - x) * z) * (d * (x - a))
  {
    Regroup(n, x, a - x, o);
    Regroup(0 - x, z, d, x - a);
    assert (0 - x) * (x - a) == x * (a - x);
  }

  lemma {:induction false} CrossRatio(xs: seq<int>, a: int)
    ensures Numerator(xs, a) * Others(xs, a, a) == Others(xs, a, 0) * Denominator(xs, a)
  {
    if xs != [] {
      var x, rest := xs[|xs| - 1], xs[..|xs| - 1];
      CrossRatio(rest, a);
      if x != a {
        CrossStep(Numerator(rest, a), Denominator(rest, a), Others(rest, a, a), Others(rest, a, 0), x, a);
      }
    }
  }

  lemma {:induction false} ProductsNonzero(xs: seq<int>, a: int, p: nat)
    requires IsPrime(p) && ValidIndex(a, p) && forall i :: 0 <= i < |xs| ==> ValidIndex(xs[i], p)
    ensures Numerator(xs, a) % p != 0 && Denominator(xs, a) % p != 0
  {
    ModSmall(1, p);
    if xs != [] {
      var x, rest := xs[|xs| - 1], xs[..|xs| - 1];
      ProductsNonzero(rest, a, p);
      if x != a {
        if Cong(x, a, p) { CongSmall(x, a, p); }
        DifferenceNonzero(x, a, p);
        ModSmall(x, p);
        if Numerator(xs, a) % p == 0 { ZeroProduct(Numerator(rest, a), x, p); }
        if Denominator(xs, a) % p == 0 { ZeroProduct(Denominator(rest, a), x - a, p); }
      }
    }
  }

  lemma IndexesDistinct(xs: seq<int>, p: nat)
    requires p > 0 && ValidIndexes(xs, p)
    ensures DistinctMod(xs, p)
  {
    forall i, j | 0 <= i < j < |xs|
      ensures !Cong(xs[i], xs[j], p)
    {
      if Cong(xs[i], xs[j], p) { CongSmall(xs[i], xs[j], p); }
    }
  }

  /** The weight of index a at zero, as a fraction in the scalar field. */
  ghost function Lambda(xs: seq<int>, a: int, p: nat): (r: nat)
    requires IsPrime(p) && ValidIndexes(xs, p) && ValidIndex(a, p)
    ensures r < p
  {
    ProductsNonzero(xs, a, p);
    (Numerator(xs, a) * Inv(Denominator(xs, a), p)) % p
  }

  ghost function WeightedSum(xs: seq<int>, ys: seq<int>, n: nat, p: nat): int
    requires IsPrime(p) && ValidIndexes(xs, p) && |ys| == |xs| && n <= |xs|
  {
    if n == 0 then 0
    else WeightedSum(xs, ys, n - 1, p) + ys[n - 1] * Lambda(xs, xs[n - 1], p)
  }

  /** n/d == b/a whenever n*a == b*d. */
  lemma SameFraction(n: int, d: int, b: int, a: int, p: nat)
    requires IsPrime(p) && a % p != 0 && d % p != 0 && n * a == b * d
    ensures Cong(b * Inv(a, p), n * Inv(d, p), p)
  {
    var u, v := Inv(a, p), Inv(d, p);
    ModSmall(1, p);
    CongScale(a * u, 1, b * d, p);
    CongScale(d * v, 1, n * a, p);
    assert (b * d) * (a * u) == (a * d) * (b * u);
    assert (n * a) * (d * v) == (a * d) * (n * v);
    if (a * d) % p == 0 { ZeroProduct(a, d, p); }
    Cancel(a * d, b * u, n * v, p);
  }

  /** The weights applied to the values of any short enough polynomial give its constant term:
      the answer does not depend on which indexes took part, or in which order. */
  lemma {:induction false} InterpolationAtZero(f: seq<int>, xs: seq<int>, ys: seq<int>, p: nat)
    requires IsPrime(p) && ValidIndexes(xs, p) && |f| <= |xs| == |ys|
    requires forall k :: 0 <= k < |xs| ==> Cong(ys[k], Eval(f, xs[k]), p)
    ensures Cong(WeightedSum(xs, ys, |xs|, p), Eval(f, 0), p)
  {
    IndexesDistinct(xs, p);
    var c := NodeWeights(xs, ys, p);
    forall k | 0 <= k < |xs|
      ensures Cong(c[k] * Others(xs, xs[k], xs[k]), Eval(f, xs[k]), p)
    {
      assert Cong(c[k] * Others(xs, xs[k], xs[k]), ys[k], p);
    }
    CombinationInterpolates(f, xs, c, 0, p);
    SumsAgree(xs, ys, c, |xs|, p);
  }

  lemma OthersUnit(xs: seq<int>, a: int, p: nat)
    requires IsPrime(p) && ValidIndexes(xs, p) && a in xs
    ensures Others(xs, a, a) % p != 0
  {
    forall x | x in xs && x != a
      ensures !Cong(a, x, p)
    {
      if Cong(a, x, p) { CongSmall(a, x, p); }
    }
    OthersNonzero(xs, a, p);
  }

  ghost function NodeWeight(xs: seq<int>, ys: seq<int>, k: nat, p: nat): (c: int)
    requires IsPrime(p) && ValidIndexes(xs, p) && |ys| == |xs| && k < |xs|
    ensures Cong(c * Others(xs, xs[k], xs[k]), ys[k], p)
  {
    OthersUnit(xs, xs[k], p);
    var o := Others(xs, xs[k], xs[k]);
    ModSmall(1, p);
    CongScale(o * Inv(o, p), 1, ys[k], p);
    assert (ys[k] * Inv(o, p)) * o == ys[k] * (o * Inv(o, p));
    ys[k] * Inv(o, p)
  }

  ghost function NodeWeights(xs: seq<int>, ys: seq<int>, p: nat): (c: seq<int>)
    requires IsPrime(p) && ValidIndexes(xs, p) && |ys| == |xs|
    ensures |c| == |xs|
    ensures forall k :: 0 <= k < |xs| ==> c[k] == NodeWeight(xs, ys, k, p)
  {
    seq(|xs|, k requires 0 <= k < |xs| => NodeWeight(xs, ys, k, p))
  }

  lemma TermsAgree(xs: seq<int>, ys: seq<int>, k: nat, p: nat)
    requires IsPrime(p) && ValidIndexes(xs, p) && |ys| == |xs| && k < |xs|
    ensures Cong(NodeWeight(xs, ys, k, p) * Others(xs, xs[k], 0), ys[k] * Lambda(xs, xs[k], p), p)
  {
    var a := xs[k];
    OthersUnit(xs, a, p);
    ProductsNonzero(xs, a, p);
    CrossRatio(xs, a);
    var o, z, n, d := Others(xs, a, a), Others(xs, a, 0), Numerator(xs, a), Denominator(xs, a);
    SameFraction(n, d, z, o, p);
    var w := n * Inv(d, p);
    CongMod(w, p);
    WeightTimes(ys[k], Inv(o, p), z, w % p, p);
  }

  lemma WeightTimes(y: int, u: int, z: int, l: int, p: nat)
    requires p > 0 && Cong(z * u, l, p)
    ensures Cong((y * u) * z, y * l, p)
  {
    CongScale(z * u, l, y, p);
    assert (y * u) * z == y * (z * u);
  }

  lemma {:induction false} SumsAgree(xs: seq<int>, ys: seq<int>, c: seq<int>, n: nat, p: nat)
    requires IsPrime(p) && ValidIndexes(xs, p) && |ys| == |xs| && n <= |xs|
    requires c == NodeWeights(xs, ys, p)
    ensures Cong(CombinationAt(xs, c, n, 0), WeightedSum(xs, ys, n, p), p)
  {
    if n > 0 {
      SumsAgree(xs, ys, c, n - 1, p);
      TermsAgree(xs, ys, n - 1, p);
      CongAdd(CombinationAt(xs, c, n - 1, 0), WeightedSum(xs, ys, n - 1, p),
              c[n - 1] * Others(xs, xs[n - 1], 0), ys[n - 1] * Lambda(xs, xs[n - 1], p), p);
    }
  }

  // --------------------------------------------------------- the operations

  /** Extended Euclid on the reduced value. */
  method Invert(value: int, p: nat) returns (r: Result<nat>)
    requires IsPrime(p)
    ensures r.Failure? <==> value % p == 0
    ensures r.Ok? ==> r.value == Inv(value, p)
  {
    var low := Mod(value, p);
    if low == 0 { return Failure; }
    var high: int := p;
    var lm, hm := 1, 0;
    PrimeCoprime(low, p);
    CongMod(value, p);
    ModUnique(p, 1, 0, p);
    ModSmall(0, p);
    while low > 1
      invariant 0 <= low < high && Coprime(low, high) && (low == 0 ==> high > 1)
      invariant Cong(lm * value, low, p) && Cong(hm * value, high, p)
      decreases low
    {
      EuclidStep(low, high, lm, hm, value, p);
      var ratio := high / low;
      lm, hm := hm - lm * ratio, lm;
      low, high := high - low * ratio, low;
    }
    EuclidEnd(low, high);
    var x := Mod(lm, p);
    CongMod(lm, p);
    CongMul(x, lm, value, value, p);
    ModSmall(1, p);
    assert value * x == x * value;
    InvUnique(value, x, p);
    r := Ok(x);
  }

  method LagrangeCoefficientAtZero(index: int, indexes: seq<int>, p: nat) returns (r: Result<nat>)
    requires IsPrime(p)
    ensures r.Ok? <==> ValidIndexes(indexes, p) && index in indexes
    ensures r.Ok? ==> r.value == Lambda(indexes, index, p) && r.value != 0
  {
    if !ValidIndex(index, p) || !ValidIndexes(indexes, p) || index !in indexes { return Failure; }
    var numerator, denominator := 1, 1;
    ModSmall(1, p);
    var k := 0;
    while k < |indexes|
      invariant 0 <= k <= |indexes|
      invariant 0 <= numerator < p && Cong(numerator, Numerator(indexes[..k], index), p)
      invariant 0 <= denominator < p && Cong(denominator, Denominator(indexes[..k], index), p)
    {
      var other := indexes[k];
      assert indexes[..k + 1][..k] == indexes[..k];
      if other != index {
        CongMul(numerator, Numerator(indexes[..k], index), other, other, p);
        CongMul(denominator, Denominator(indexes[..k], index), other - index, other - index, p);
        CongMod(numerator * other, p);
        CongMod(denominator * (other - index), p);
        numerator := Mod(numerator * other, p);
        denominator := Mod(denominator * (other - index), p);
      }
      k := k + 1;
    }
    assert indexes[..k] == indexes;
    ProductsNonzero(indexes, index, p);
    var inverse := Invert(denominator, p);
    SameInverse(denominator, Denominator(indexes, index), p);
    CongMul(numerator, Numerator(indexes, index), inverse.value, inverse.value, p);
    LambdaNonzero(indexes, index, p);
    r := Ok(Mod(numerator * inverse.value, p));
  }

  lemma SameInverse(a: int, b: int, p: nat)
    requires IsPrime(p) && Cong(a, b, p) && a % p != 0
    ensures Inv(a, p) == Inv(b, p)
  {
    CongMul(a, b, Inv(a, p), Inv(a, p), p);
    ModSmall(1, p);
    InvUnique(b, Inv(a, p), p);
  }

  lemma LambdaNonzero(xs: seq<int>, a: int, p: nat)
    requires IsPrime(p) && ValidIndexes(xs, p) && ValidIndex(a, p)
    ensures Lambda(xs, a, p) != 0
  {
    ProductsNonzero(xs, a, p);
    var n, d := Numerator(xs, a), Denominator(xs, a);
    if (n * Inv(d, p)) % p == 0 {
      ZeroProduct(n, Inv(d, p), p);
      ModSmall(0, p);
      CongScale(Inv(d, p), 0, d, p);
      ModSmall(d * 0, p);
      assert false;
    }
  }

  /** e(signature, G2) == e(message, key), both points decodable and finite. */
  predicate VerifyPartialSignature(message: nat, publicKey: Wire, signature: Wire, p: nat)
    requires p > 0
  {
    && Decode(signature, p, false).Ok?
    && Decode(publicKey, p, false).Ok?
    && signature.log % p == (message * publicKey.log) % p
  }

  lemma {:induction false} EvalSnoc(f: seq<int>, d: int, x: int)
    ensures Eval(f + [d], x) == Eval(f, x) + d * Pow(x, |f|)
  {
    if f == [] {
      assert Eval([d], x) == d + x * Eval([d][1..], x);
      assert [] + [d] == [d] && x * 0 == 0;
    } else {
      EvalSnoc(f[1..], d, x);
      assert (f + [d])[1..] == f[1..] + [d];
      var e, w := Eval(f[1..], x), Pow(x, |f| - 1);
      assert x * (e + d * w) == x * e + d * (w * x);
    }
  }

  /** The logs behind decodable commitments. */
  function Logs(commitments: seq<Wire>): (f: seq<int>)
    requires forall i :: 0 <= i < |commitments| ==> commitments[i].Encoded?
    ensures |f| == |commitments|
  {
    seq(|commitments|, i requires 0 <= i < |commitments| => commitments[i].log)
  }

  predicate Decodable(commitments: seq<Wire>, p: nat) {
    forall i :: 0 <= i < |commitments| ==> Decode(commitments[i], p, true).Ok?
  }

  /** The public value of the share at index, from the commitments alone, one running power at a time. */
  method ExpectedSharePoint(commitments: seq<Wire>, index: nat, p: nat) returns (r: Result<nat>)
    requires p > 1
    ensures r.Ok? <==> Decodable(commitments, p)
    ensures r.Ok? ==> r.value == Eval(Logs(commitments), index) % p
  {
    var expected, power := 0, 1;
    ModSmall(0, p);
    var k := 0;
    while k < |commitments|
      invariant 0 <= k <= |commitments| && Decodable(commitments[..k], p)
      invariant Cong(power, Pow(index, k), p)
      invariant 0 <= expected < p && Cong(expected, Eval(Logs(commitments[..k]), index), p)
    {
      var commitment := Decode(commitments[k], p, true);
      if commitment.Failure? { return Failure; }
      var c := commitment.value;
      var f := Logs(commitments[..k]);
      assert Logs(commitments[..k + 1]) == f + [c];
      EvalSnoc(f, c, index);
      CongScale(power, Pow(index, k), c, p);
      CongAdd(expected, Eval(f, index), c * power, c * Pow(index, k), p);
      CongMod(expected + c * power, p);
      CongMul(power, Pow(index, k), index, index, p);
      CongMod(power * index, p);
      expected, power := (expected + c * power) % p, (power * index) % p;
      k := k + 1;
    }
    assert commitments[..k] == commitments;
    ModSmall(expected, p);
    r := Ok(expected);
  }

  method VerifyPublicShareCommitment(index: int, sharePublicKey: Wire, coefficients: seq<Wire>, p: nat)
    returns (r: Result<bool>)
    requires p > 1
    ensures r.Ok? <==> |coefficients| >= 2 && ValidIndex(index, p) && Decodable(coefficients, p)
                       && Decode(sharePublicKey, p, false).Ok?
    ensures r.Ok? ==> (r.value <==> sharePublicKey.log == Eval(Logs(coefficients), index) % p)
  {
    if |coefficients| < 2 || !ValidIndex(index, p) { return Failure; }
    var expected := ExpectedSharePoint(coefficients, index, p);
    if expected.Failure? { return Failure; }
    var key := Decode(sharePublicKey, p, false);
    if key.Failure? { return Failure; }
    r := Ok(expected.value == key.value);
  }

  function Indexes(shares: seq<Share>): (xs: seq<int>)
    ensures |xs| == |shares|
  {
    seq(|shares|, i requires 0 <= i < |shares| => shares[i].index)
  }

  function Signatures(shares: seq<Share>): (ys: seq<int>)
    requires forall i :: 0 <= i < |shares| ==> shares[i].signature.Encoded?
    ensures |ys| == |shares|
  {
    seq(|shares|, i requires 0 <= i < |shares| => shares[i].signature.log)
  }

  predicate SharesVerify(message: nat, shares: seq<Share>, p: nat)
    requires p > 0
  {
    forall i :: 0 <= i < |shares| ==> VerifyPartialSignature(message, shares[i].publicKey, shares[i].signature, p)
  }

  ghost predicate Combines(message: nat, groupPublicKey: Wire, threshold: int, shares: seq<Share>, p: nat)
    requires IsPrime(p)
  {
    && threshold >= 2 && |shares| >= threshold
    && ValidIndexes(Indexes(shares), p)
    && SharesVerify(message, shares, p)
    && var s := WeightedSum(Indexes(shares), Signatures(shares), |shares|, p) % p;
       s != 0 && VerifyPartialSignature(message, groupPublicKey, Encoded(s), p)
  }

  method AggregateThresholdShares(message: nat, groupPublicKey: Wire, threshold: int, shares: seq<Share>, p: nat)
    returns (r: Result<Aggregate>)
    requires IsPrime(p)
    ensures r.Ok? <==> Combines(message, groupPublicKey, threshold, shares, p)
    ensures r.Ok? ==> r.value.indexes == Indexes(shares)
                      && r.value.signature == (message * groupPublicKey.log) % p
                      && r.value.signature == WeightedSum(Indexes(shares), Signatures(shares), |shares|, p) % p
  {
    if threshold < 2 || |shares| < threshold { return Failure; }
    var indexes := Indexes(shares);
    if !ValidIndexes(indexes, p) { return Failure; }
    var i := 0;
    while i < |shares|
      invariant 0 <= i <= |shares| && SharesVerify(message, shares[..i], p)
    {
      if !VerifyPartialSignature(message, shares[i].publicKey, shares[i].signature, p) { return Failure; }
      i := i + 1;
    }
    assert shares[..i] == shares;
    var aggregate := 0;
    ModSmall(0, p);
    var position := 0;
    ghost var ys := Signatures(shares);
    while position < |shares|
      invariant 0 <= position <= |shares|
      invariant 0 <= aggregate < p && Cong(aggregate, WeightedSum(indexes, ys, position, p), p)
    {
      var coefficient := LagrangeCoefficientAtZero(indexes[position], indexes, p);
      var term := shares[position].signature.log * coefficient.value;
      CongAdd(aggregate, WeightedSum(indexes, ys, position, p), term, term, p);
      CongMod(aggregate + term, p);
      aggregate := (aggregate + term) % p;
      position := position + 1;
    }
    ModSmall(aggregate, p);
    if aggregate == 0 { return Failure; }
    if !VerifyPartialSignature(message, groupPublicKey, Encoded(aggregate), p) { return Failure; }
    r := Ok(Aggregate(aggregate, indexes));
  }

  /** Shares of one polynomial: any threshold or more of them, in any order, aggregate to the one
      signature under the group key. */
  lemma {:induction false} AggregateIsUnique(message: nat, f: seq<int>, threshold: int, shares: seq<Share>, p: nat)
    requires IsPrime(p) && threshold >= 2 && |f| == threshold <= |shares|
    requires message % p != 0 && f[0] % p != 0
    requires ValidIndexes(Indexes(shares), p) && SharesVerify(message, shares, p)
    requires forall i :: 0 <= i < |shares| ==>
      shares[i].publicKey.log == Eval(f, shares[i].index) % p
    ensures Combines(message, Encoded(f[0] % p), threshold, shares, p)
    ensures WeightedSum(Indexes(shares), Signatures(shares), |shares|, p) % p == (message * f[0]) % p
  {
    var xs, ys, g := Indexes(shares), Signatures(shares), Scale(message, f);
    forall k | 0 <= k < |xs|
      ensures Cong(ys[k], Eval(g, xs[k]), p)
    {
      EvalScale(message, f, xs[k]);
      var key := shares[k].publicKey.log;
      CongMod(Eval(f, xs[k]), p);
      CongScale(key, Eval(f, xs[k]), message, p);
    }
    InterpolationAtZero(g, xs, ys, p);
    EvalAtZero(g);
    CongMod(f[0], p);
    CongScale(f[0] % p, f[0], message, p);
    var s := WeightedSum(xs, ys, |xs|, p) % p;
    if s == 0 { ZeroProduct(message, f[0], p); }
    ModSmall(s, p);
  }

  /** The share is a nonzero signature of the message under a nonzero public share. */
  predicate Signs(s: Share, message: nat, p: nat)
    requires p > 0
  {
    && s.publicKey.Encoded? && 0 < s.publicKey.log < p && s.signature.Encoded? && 0 < s.signature.log < p
    && s.signature.log == (message * s.publicKey.log) % p
  }

  function PublicShares(shares: seq<Share>): (ks: seq<int>)
    requires forall i :: 0 <= i < |shares| ==> shares[i].publicKey.Encoded?
    ensures |ks| == |shares|
  {
    seq(|shares|, i requires 0 <= i < |shares| => shares[i].publicKey.log)
  }

  lemma {:induction false} WeightedScale(xs: seq<int>, ys: seq<int>, ks: seq<int>, m: nat, n: nat, p: nat)
    requires IsPrime(p) && ValidIndexes(xs, p) && |ys| == |ks| == |xs| && n <= |xs|
    requires forall i :: 0 <= i < |xs| ==> Cong(ys[i], m * ks[i], p)
    ensures Cong(WeightedSum(xs, ys, n, p), m * WeightedSum(xs, ks, n, p), p)
  {
    if n > 0 {
      WeightedScale(xs, ys, ks, m, n - 1, p);
      ScaledStep(WeightedSum(xs, ys, n - 1, p), WeightedSum(xs, ks, n - 1, p), ys[n - 1], ks[n - 1],
                 Lambda(xs, xs[n - 1], p), m, p);
    }
  }

  lemma ScaledStep(a: int, b: int, y: int, k: int, l: int, m: int, p: nat)
    requires p > 0 && Cong(a, m * b, p) && Cong(y, m * k, p)
    ensures Cong(a + y * l, m * (b + k * l), p)
  {
    CongMul(y, m * k, l, l, p);
    CongAdd(a, m * b, y * l, m * k * l, p);
    assert m * (b + k * l) == m * b + m * k * l;
  }

  lemma SignsExactly(s: Share, message: nat, p: nat)
    requires p > 0
    ensures VerifyPartialSignature(message, s.publicKey, s.signature, p) <==> Signs(s, message, p)
  {
    if s.signature.Encoded? && s.signature.log < p { ModSmall(s.signature.log, p); }
  }

  /** At least threshold shares under distinct nonzero indexes, each signing the message. */
  predicate EnoughSign(message: nat, threshold: int, shares: seq<Share>, p: nat)
    requires p > 0
  {
    && 2 <= threshold <= |shares|
    && (forall i :: 0 <= i < |shares| ==> 0 < shares[i].index < p && Signs(shares[i], message, p))
    && (forall i, j :: 0 <= i < j < |shares| ==> shares[i].index != shares[j].index)
  }

  lemma EnoughExactly(message: nat, threshold: int, shares: seq<Share>, p: nat)
    requires p > 0
    ensures EnoughSign(message, threshold, shares, p) <==>
      2 <= threshold <= |shares| && ValidIndexes(Indexes(shares), p) && SharesVerify(message, shares, p)
  {
    var xs := Indexes(shares);
    assert forall i :: 0 <= i < |xs| ==> xs[i] == shares[i].index;
    forall i | 0 <= i < |shares|
      ensures VerifyPartialSignature(message, shares[i].publicKey, shares[i].signature, p) <==> Signs(shares[i], message, p)
    {
      SignsExactly(shares[i], message, p);
    }
  }

  /** Shares combine if and only if enough of them sign the message and their public shares interpolate to the group key:
      whether a list is accepted depends on whose shares it holds, never on the signatures beyond their validity. */
  lemma CombinesExactly(message: nat, groupPublicKey: Wire, threshold: int, shares: seq<Share>, p: nat)
    requires IsPrime(p) && message % p != 0
    ensures Combines(message, groupPublicKey, threshold, shares, p) <==>
      && EnoughSign(message, threshold, shares, p)
      && groupPublicKey.Encoded? && 0 < groupPublicKey.log < p
      && ValidIndexes(Indexes(shares), p)
      && WeightedSum(Indexes(shares), PublicShares(shares), |shares|, p) % p == groupPublicKey.log
  {
    EnoughExactly(message, threshold, shares, p);
    if EnoughSign(message, threshold, shares, p) {
      var xs, ys, ks := Indexes(shares), Signatures(shares), PublicShares(shares);
      forall i | 0 <= i < |xs| ensures Cong(ys[i], message * ks[i], p) {
        assert Signs(shares[i], message, p);
        CongMod(message * ks[i], p);
      }
      WeightedScale(xs, ys, ks, message, |xs|, p);
      if groupPublicKey.Encoded? && 0 < groupPublicKey.log < p {
        SumsCompare(message, WeightedSum(xs, ys, |xs|, p), WeightedSum(xs, ks, |xs|, p), groupPublicKey.log, p);
      }
    }
  }

  lemma SumsCompare(m: nat, signed: int, keys: int, g: nat, p: nat)
    requires IsPrime(p) && m % p != 0 && 0 < g < p && Cong(signed, m * keys, p)
    ensures signed % p != 0 && (signed % p) % p == (m * g) % p <==> keys % p == g
  {
    ModSmall(g, p);
    ModSmall(signed % p, p);
    if keys % p == g {
      CongScale(keys, g, m, p);
      if (m * g) % p == 0 { ZeroProduct(m, g, p); }
    }
    if (signed % p) % p == (m * g) % p {
      assert Cong(m * keys, m * g, p);
      Cancel(m, keys, g, p);
    }
  }
}
