/** operator/proof.mjs: the ECVRF prover, in the role of sections 5.1 and 5.3 of RFC 9381 with its own sign
    convention s = k - c * x. Points are their discrete logarithms modulo the group order n, and where the code
    uses coordinates a curve is any assignment of residues modulo the field prime p to the nonzero logarithms. */
module Ecvrf {
  import opened Field
  import opened FieldPowers

  type Affine = (nat, nat)

  // ------------------------------------------------------------------ hash to curve

  function YSquared(x: nat, p: nat): nat
    requires p > 0
  {
    Mod(x * x * x + 7, p)
  }

  ghost predicate HasRoot(v: int, p: nat)
    requires p > 0
  {
    exists r: int :: IsRoot(r, v, p)
  }

  /** isSquare: Euler's criterion, right in both directions. */
  method IsSquare(value: nat, p: nat) returns (square: bool)
    requires IsPrime(p) && p % 4 == 3 && value < p
    ensures square <==> HasRoot(value, p)
  {
    ModSmall(value, p);
    if value == 0 {
      assert IsRoot(0, value, p);
      return true;
    }
    var power := ModPow(value, (p - 1) / 2, p);
    square := power == 1;
    if square {
      UnitPowerHasRoot(value, p);
    } else if HasRoot(value, p) {
      var r :| IsRoot(r, value, p);
      SquareHasUnitPower(r, value, p);
    }
  }

  ghost predicate OnCurve(x: int, y: int, p: nat)
    requires p > 0
  {
    Cong(y * y, x * x * x + 7, p)
  }

  lemma NegatedRoot(y: int, v: int, p: nat)
    requires p > 0 && IsRoot(y, v, p)
    ensures IsRoot(p - y, v, p)
  {
    CongFrom((p - y) * (p - y), y * y, p - 2 * y, p);
  }

  /** The power the code takes is a root of every square. */
  lemma RootOf(v: nat, y: nat, p: nat)
    requires IsPrime(p) && p % 4 == 3 && HasRoot(v, p) && y == Pow(v, (p + 1) / 4) % p
    ensures IsRoot(y, v, p)
  {
    if v % p != 0 {
      var r :| IsRoot(r, v, p);
      SquareHasUnitPower(r, v, p);
    }
    UnitPowerHasRoot(v, p);
    var w := Pow(v, (p + 1) / 4);
    CongMod(w, p);
    CongMul(y, w, y, w, p);
  }

  lemma OddComplement(y: nat, p: nat)
    requires p % 4 == 3 && y < p && y % 2 == 1
    ensures 0 <= p - y < p && (p - y) % 2 == 0
  {
  }

  /** The root that the code takes, negated if odd. */
  method EvenRoot(v: nat, p: nat) returns (y: nat)
    requires IsPrime(p) && p % 4 == 3 && HasRoot(v, p)
    ensures y < p && y % 2 == 0 && IsRoot(y, v, p)
  {
    var root := ModPow(v, (p + 1) / 4, p);
    RootOf(v, root, p);
    if root % 2 == 0 { return root; }
    NegatedRoot(root, v, p);
    OddComplement(root, p);
    y := p - root;
  }

  lemma RootIsOnCurve(x: nat, y: nat, p: nat)
    requires p > 0 && IsRoot(y, YSquared(x, p), p)
    ensures OnCurve(x, y, p)
  {
    CongMod(x * x * x + 7, p);
  }

  predicate AllBelow(xs: seq<nat>, p: nat) { forall i :: 0 <= i < |xs| ==> xs[i] < p }

  ghost predicate OffCurve(xs: seq<nat>, n: nat, p: nat)
    requires p > 0 && n <= |xs|
  {
    forall j :: 0 <= j < n ==> !HasRoot(YSquared(xs[j], p), p)
  }

  /** hashToCurve over the hash chain `xs`: the first candidate that is the x of a curve point, with the even root
      as its y. */
  method HashToCurve(xs: seq<nat>, p: nat) returns (x: nat, y: nat)
    requires IsPrime(p) && p % 4 == 3 && AllBelow(xs, p) && !OffCurve(xs, |xs|, p)
    ensures x < p && y < p && OnCurve(x, y, p) && y % 2 == 0
    ensures exists i :: 0 <= i < |xs| && xs[i] == x && OffCurve(xs, i, p)
  {
    var i := 0;
    var square := IsSquare(YSquared(xs[0], p), p);
    while !square
      invariant 0 <= i < |xs| && (square <==> HasRoot(YSquared(xs[i], p), p)) && OffCurve(xs, i, p)
      decreases |xs| - i, !square
    {
      i := i + 1;
      square := IsSquare(YSquared(xs[i], p), p);
    }
    x := xs[i];
    y := EvenRoot(YSquared(x, p), p);
    RootIsOnCurve(x, y, p);
  }

  // ------------------------------------------------------------- projective arithmetic

  /** num / den stands for the residue v. */
  ghost predicate Represents(num: int, den: int, v: int, p: nat)
    requires p > 0
  {
    den % p != 0 && Cong(num, v * den, p)
  }

  function ProjectiveSub(x1: nat, z1: nat, x2: nat, z2: nat, p: nat): (nat, nat)
    requires p > 0
  {
    (Mod(Mod(z2 * x1, p) + Mod((p - x2) * z1, p), p), Mod(z1 * z2, p))
  }

  function ProjectiveMul(x1: nat, z1: nat, x2: nat, z2: nat, p: nat): (nat, nat)
    requires p > 0
  {
    (Mod(x1 * x2, p), Mod(z1 * z2, p))
  }

  lemma DenominatorNonzero(z1: int, z2: int, p: nat)
    requires IsPrime(p) && z1 % p != 0 && z2 % p != 0
    ensures (z1 * z2) % p != 0 && ((z1 * z2) % p) % p != 0
  {
    if (z1 * z2) % p == 0 { ZeroProduct(z1, z2, p); }
    CongMod(z1 * z2, p);
  }

  lemma MulValues(x1: int, z1: int, a: int, x2: int, z2: int, b: int, p: nat)
    requires p > 0 && Cong(x1, a * z1, p) && Cong(x2, b * z2, p)
    ensures Cong(x1 * x2, (a * b) * (z1 * z2), p)
  {
    CongMul(x1, a * z1, x2, b * z2, p);
    Shuffle(a, z1, b, z2);
  }

  lemma MulRepresents(x1: nat, z1: nat, a: int, x2: nat, z2: nat, b: int, p: nat)
    requires IsPrime(p) && Represents(x1, z1, a, p) && Represents(x2, z2, b, p)
    ensures var (x, z) := ProjectiveMul(x1, z1, x2, z2, p); Represents(x, z, a * b, p)
  {
    var (x, z) := ProjectiveMul(x1, z1, x2, z2, p);
    DenominatorNonzero(z1, z2, p);
    MulValues(x1, z1, a, x2, z2, b, p);
    CongMod(x1 * x2, p);
    CongMod(z1 * z2, p);
    CongScale(z, z1 * z2, a * b, p);
  }

  lemma SubValues(x1: int, z1: int, a: int, x2: int, z2: int, b: int, p: nat)
    requires p > 0 && Cong(x1, a * z1, p) && Cong(x2, b * z2, p)
    ensures Cong(z2 * x1 + (p - x2) * z1, (a - b) * (z1 * z2), p)
  {
    CongScale(x1, a * z1, z2, p);
    CongScale(x2, b * z2, z1, p);
    CongAdd(z2 * x1, z2 * (a * z1), z1 * x2, z1 * (b * z2), p);
    Distribute(p, x2, z1);
    CongFrom(z2 * x1 + (p - x2) * z1, z2 * x1 - z1 * x2, z1, p);
    Collect(a, b, z1, z2);
  }

  lemma Distribute(p: int, x: int, z: int)
    ensures (p - x) * z == z * p - z * x
  {
  }

  lemma Collect(a: int, b: int, z: int, w: int)
    ensures w * (a * z) - z * (b * w) == (a - b) * (z * w)
  {
    assert w * (a * z) == a * (z * w);
    assert z * (b * w) == b * (z * w);
  }

  lemma SubRepresents(x1: nat, z1: nat, a: int, x2: nat, z2: nat, b: int, p: nat)
    requires IsPrime(p) && Represents(x1, z1, a, p) && Represents(x2, z2, b, p)
    ensures var (x, z) := ProjectiveSub(x1, z1, x2, z2, p); Represents(x, z, a - b, p)
  {
    var (x, z) := ProjectiveSub(x1, z1, x2, z2, p);
    DenominatorNonzero(z1, z2, p);
    SubValues(x1, z1, a, x2, z2, b, p);
    CongMod(z2 * x1, p);
    CongMod((p - x2) * z1, p);
    CongAdd(Mod(z2 * x1, p), z2 * x1, Mod((p - x2) * z1, p), (p - x2) * z1, p);
    CongMod(Mod(z2 * x1, p) + Mod((p - x2) * z1, p), p);
    CongMod(z1 * z2, p);
    CongScale(z, z1 * z2, a - b, p);
  }

  lemma Whole(x: int, p: nat)
    requires p > 1
    ensures Represents(x, 1, x, p)
  {
    ModSmall(1, p);
  }

  // ------------------------------------------------------------- the affine sum

  ghost function Slope(px: nat, py: nat, qx: nat, qy: nat, p: nat): int
    requires IsPrime(p) && (qx - px) % p != 0
  {
    (qy - py) * Inv(qx - px, p)
  }

  ghost function SumX(px: nat, py: nat, qx: nat, qy: nat, p: nat): int
    requires IsPrime(p) && (qx - px) % p != 0
  {
    var l := Slope(px, py, qx, qy, p);
    l * l - px - qx
  }

  ghost function SumY(px: nat, py: nat, qx: nat, qy: nat, p: nat): int
    requires IsPrime(p) && (qx - px) % p != 0
  {
    (px - SumX(px, py, qx, qy, p)) * Slope(px, py, qx, qy, p) - py
  }

  lemma SlopeRepresented(px: nat, py: nat, qx: nat, qy: nat, p: nat)
    requires IsPrime(p) && (qx - px) % p != 0
    ensures Represents(Mod(qy - py, p), Mod(qx - px, p), Slope(px, py, qx, qy, p), p)
  {
    var dx, dy, i := qx - px, qy - py, Inv(qx - px, p);
    CongMod(dx, p);
    CongMod(dy, p);
    ModSmall(1, p);
    CongScale(dx * i, 1, dy, p);
    assert dy * (dx * i) == (dy * i) * dx;
    CongScale(Mod(dx, p), dx, dy * i, p);
  }

  lemma ScaleUp(num: nat, den: nat, other: nat, v: int, p: nat)
    requires IsPrime(p) && Represents(num, den, v, p) && other % p != 0
    ensures Represents(Mod(num * other, p), Mod(den * other, p), v, p)
  {
    DenominatorNonzero(den, other, p);
    CongMul(num, v * den, other, other, p);
    CongMod(num * other, p);
    CongMod(den * other, p);
    assert (v * den) * other == v * (den * other);
    CongScale(Mod(den * other, p), den * other, v, p);
  }

  lemma DistinctResidues(px: nat, qx: nat, p: nat)
    requires p > 0 && px < p && qx < p && px != qx
    ensures (qx - px) % p != 0
  {
    if Cong(qx, px, p) { CongSmall(qx, px, p); }
    DifferenceNonzero(qx, px, p);
  }

  /** Both sums before the denominators are made equal. */
  function EcSumX(px: nat, py: nat, qx: nat, qy: nat, p: nat): (x: (nat, nat))
    requires p > 0
    ensures x.1 < p
  {
    var (lx, lz) := (Mod(qy - py, p), Mod(qx - px, p));
    var x := ProjectiveMul(lx, lz, lx, lz, p);
    var x1 := ProjectiveSub(x.0, x.1, px, 1, p);
    ProjectiveSub(x1.0, x1.1, qx, 1, p)
  }

  function EcSumY(px: nat, py: nat, qx: nat, qy: nat, p: nat): (nat, nat)
    requires p > 0
  {
    var (lx, lz) := (Mod(qy - py, p), Mod(qx - px, p));
    var x := EcSumX(px, py, qx, qy, p);
    var y := ProjectiveSub(px, 1, x.0, x.1, p);
    var y1 := ProjectiveMul(y.0, y.1, lx, lz, p);
    ProjectiveSub(y1.0, y1.1, py, 1, p)
  }

  function CommonDenominator(x: (nat, nat), y: (nat, nat), p: nat): (nat, nat, nat)
    requires p > 0
  {
    if x.1 != y.1 then (Mod(x.0 * y.1, p), Mod(y.0 * x.1, p), Mod(x.1 * y.1, p)) else (x.0, y.0, x.1)
  }

  /** What projectiveECAdd returns: both coordinates over one denominator. */
  function EcSum(px: nat, py: nat, qx: nat, qy: nat, p: nat): (nat, nat, nat)
    requires p > 0
  {
    CommonDenominator(EcSumX(px, py, qx, qy, p), EcSumY(px, py, qx, qy, p), p)
  }

  method SumOverX(px: nat, qx: nat, lx: nat, lz: nat, p: nat) returns (x: (nat, nat))
    requires p > 0
    ensures forall py: nat, qy: nat :: lx == Mod(qy - py, p) && lz == Mod(qx - px, p) ==> x == EcSumX(px, py, qx, qy, p)
  {
    x := ProjectiveMul(lx, lz, lx, lz, p);
    x := ProjectiveSub(x.0, x.1, px, 1, p);
    x := ProjectiveSub(x.0, x.1, qx, 1, p);
  }

  method ShareDenominator(x: (nat, nat), y: (nat, nat), p: nat) returns (sx: nat, sy: nat, z: nat)
    requires p > 0
    ensures (sx, sy, z) == CommonDenominator(x, y, p)
  {
    var dx, dy := x.1, y.1;
    sx, sy := x.0, y.0;
    if dx != dy {
      sx := Mod(sx * dy, p);
      sy := Mod(sy * dx, p);
      z := Mod(dx * dy, p);
    } else {
      z := dx;
    }
  }

  method ProjectiveEcAdd(px: nat, py: nat, qx: nat, qy: nat, p: nat) returns (sx: nat, sy: nat, z: nat)
    requires p > 0
    ensures (sx, sy, z) == EcSum(px, py, qx, qy, p)
  {
    var lx, lz: nat := Mod(qy - py, p), Mod(qx - px, p);
    var x := SumOverX(px, qx, lx, lz, p);
    var y := ProjectiveSub(px, 1, x.0, x.1, p);
    y := ProjectiveMul(y.0, y.1, lx, lz, p);
    y := ProjectiveSub(y.0, y.1, py, 1, p);
    assert y == EcSumY(px, py, qx, qy, p);
    sx, sy, z := ShareDenominator(x, y, p);
  }

  lemma SumXRepresented(px: nat, py: nat, qx: nat, qy: nat, p: nat)
    requires IsPrime(p) && (qx - px) % p != 0
    ensures var x := EcSumX(px, py, qx, qy, p); Represents(x.0, x.1, SumX(px, py, qx, qy, p), p)
  {
    var lx, lz: nat := Mod(qy - py, p), Mod(qx - px, p);
    var l := Slope(px, py, qx, qy, p);
    SlopeRepresented(px, py, qx, qy, p);
    Whole(px, p);
    Whole(qx, p);
    MulRepresents(lx, lz, l, lx, lz, l, p);
    var x := ProjectiveMul(lx, lz, lx, lz, p);
    SubRepresents(x.0, x.1, l * l, px, 1, px, p);
    var x1 := ProjectiveSub(x.0, x.1, px, 1, p);
    SubRepresents(x1.0, x1.1, l * l - px, qx, 1, qx, p);
  }

  lemma SumYRepresented(px: nat, py: nat, qx: nat, qy: nat, p: nat)
    requires IsPrime(p) && (qx - px) % p != 0
    ensures var y := EcSumY(px, py, qx, qy, p); Represents(y.0, y.1, SumY(px, py, qx, qy, p), p)
  {
    var lx, lz: nat := Mod(qy - py, p), Mod(qx - px, p);
    var l, sx := Slope(px, py, qx, qy, p), SumX(px, py, qx, qy, p);
    SlopeRepresented(px, py, qx, qy, p);
    Whole(px, p);
    Whole(py, p);
    SumXRepresented(px, py, qx, qy, p);
    var x := EcSumX(px, py, qx, qy, p);
    SubRepresents(px, 1, px, x.0, x.1, sx, p);
    var y := ProjectiveSub(px, 1, x.0, x.1, p);
    MulRepresents(y.0, y.1, px - sx, lx, lz, l, p);
    var y1 := ProjectiveMul(y.0, y.1, lx, lz, p);
    SubRepresents(y1.0, y1.1, (px - sx) * l, py, 1, py, p);
  }

  /** Divided by z, the result is the affine sum, whether or not the two denominators were equal. */
  lemma EcSumIsAffineSum(px: nat, py: nat, qx: nat, qy: nat, p: nat)
    requires IsPrime(p) && (qx - px) % p != 0
    ensures var (sx, sy, z) := EcSum(px, py, qx, qy, p);
      && z < p && Represents(sx, z, SumX(px, py, qx, qy, p), p) && Represents(sy, z, SumY(px, py, qx, qy, p), p)
  {
    SumXRepresented(px, py, qx, qy, p);
    SumYRepresented(px, py, qx, qy, p);
    CommonRepresents(EcSumX(px, py, qx, qy, p), EcSumY(px, py, qx, qy, p), SumX(px, py, qx, qy, p),
                     SumY(px, py, qx, qy, p), p);
  }

  lemma CommonRepresents(x: (nat, nat), y: (nat, nat), a: int, b: int, p: nat)
    requires IsPrime(p) && x.1 < p && Represents(x.0, x.1, a, p) && Represents(y.0, y.1, b, p)
    ensures var (sx, sy, z) := CommonDenominator(x, y, p);
      z < p && Represents(sx, z, a, p) && Represents(sy, z, b, p)
  {
    if x.1 != y.1 {
      ScaleUp(x.0, x.1, y.1, a, p);
      ScaleUp(y.0, y.1, x.1, b, p);
      assert x.1 * y.1 == y.1 * x.1;
    }
  }

  lemma EcSumOfEqualX(px: nat, py: nat, qy: nat, p: nat)
    requires p > 0
    ensures EcSum(px, py, px, qy, p).2 == 0
  {
    ModSmall(0, p);
  }

  /** The sum of two points of the field has a denominator without an inverse exactly when their x coordinates are
      equal. */
  lemma NoInverseExactly(px: nat, py: nat, qx: nat, qy: nat, p: nat)
    requires IsPrime(p) && px < p && qx < p
    ensures EcSum(px, py, qx, qy, p).2 % p == 0 <==> px == qx
  {
    if px == qx {
      EcSumOfEqualX(px, py, qy, p);
      ModSmall(0, p);
    } else {
      DistinctResidues(px, qx, p);
      EcSumIsAffineSum(px, py, qx, qy, p);
    }
  }

  // ------------------------------------------------------------------ proofs

  /** The proof; points by their logarithms. `nonce` is not part of it, but fixes u and v. */
  datatype Proof = Proof(pk: nat, gamma: nat, c: nat, s: nat, u: nat, cGammaWitness: nat, sHashWitness: nat, zInv: nat)

  datatype Attempt = Made(proof: Proof) | Threw | Exhausted

  /** Coordinates of the point with a nonzero logarithm. */
  type Coordinates = nat -> Affine

  predicate InField(xy: Coordinates, n: nat, p: nat) {
    forall a :: 0 < a < n ==> xy(a).0 < p && xy(a).1 < p
  }

  /** What the scalar, the challenge hash and the two witnesses are for a nonce. */
  function V(k: nat, hash: nat, n: nat): nat
    requires n > 0
  {
    (hash * k) % n
  }

  function Response(k: nat, c: nat, secret: nat, n: nat): nat
    requires n > 0
  {
    Mod(k - Mod(c * secret, n), n)
  }

  /** A nonce the prover passes over. */
  predicate Rejected(k: nat, secret: nat, hash: nat, n: nat, challenge: (nat, nat) -> nat, xy: Coordinates)
    requires n > 0
  {
    k == 0 || k >= n
    || var c := challenge(k, V(k, hash, n));
       var s := Response(k, c, secret, n);
       c == 0 || s == 0
       || (c % n != 0 && xy(((hash * secret) % n * (c % n)) % n).0 == xy((hash * s) % n).0)
  }

  /** The Schnorr equations of a proof for nonce k. */
  ghost predicate Proves(pr: Proof, k: nat, secret: nat, hash: nat, n: nat, p: nat, challenge: (nat, nat) -> nat, xy: Coordinates)
    requires n > 0 && p > 0
  {
    && pr.pk == secret && pr.gamma == (hash * secret) % n && pr.u == k
    && pr.c == challenge(k, V(k, hash, n)) && 0 < pr.s < n
    && (pr.c * pr.pk + pr.s) % n == pr.u
    && (pr.c * pr.gamma + pr.s * hash) % n == V(k, hash, n)
    && pr.cGammaWitness == (pr.gamma * (pr.c % n)) % n && pr.sHashWitness == (hash * pr.s) % n
    && 0 < pr.cGammaWitness < n && 0 < pr.sHashWitness < n
    && xy(pr.cGammaWitness).0 != xy(pr.sHashWitness).0
    && pr.zInv < p && (WitnessSum(pr, p, xy).2 * pr.zInv) % p == 1
  }

  /** projectiveECAdd of the two witnesses. */
  function WitnessSum(pr: Proof, p: nat, xy: Coordinates): (nat, nat, nat)
    requires p > 0
  {
    var (a, b) := (xy(pr.cGammaWitness), xy(pr.sHashWitness));
    EcSum(a.0, a.1, b.0, b.1, p)
  }

  /** A challenge that is a nonzero multiple of the group order passes the zero check, and its point multiplication
      throws. */
  predicate OrderChallenge(k: nat, hash: nat, n: nat, challenge: (nat, nat) -> nat)
    requires n > 0
  {
    0 < k < n && challenge(k, V(k, hash, n)) > 0 && challenge(k, V(k, hash, n)) % n == 0
  }

  /** A nonce at which the prover throws: any rejected one if the caller chose it. */
  predicate Fatal(k: nat, chosen: bool, secret: nat, hash: nat, n: nat, challenge: (nat, nat) -> nat, xy: Coordinates)
    requires n > 0
  {
    (chosen && Rejected(k, secret, hash, n, challenge, xy)) || OrderChallenge(k, hash, n, challenge)
  }

  /** The search gets to nonce i: it passes over every earlier one, and never passes over a chosen one. */
  ghost predicate Reaches(nonces: seq<nat>, i: nat, chosen: bool, secret: nat, hash: nat, n: nat,
                          challenge: (nat, nat) -> nat, xy: Coordinates)
    requires n > 0
  {
    && i <= |nonces| && (chosen ==> i == 0)
    && forall j :: 0 <= j < i ==> Rejected(nonces[j], secret, hash, n, challenge, xy)
  }

  ghost predicate Throws(nonces: seq<nat>, chosen: bool, secret: nat, hash: nat, n: nat,
                         challenge: (nat, nat) -> nat, xy: Coordinates)
    requires n > 0
  {
    exists i :: 0 <= i < |nonces| && Reaches(nonces, i, chosen, secret, hash, n, challenge, xy)
                && Fatal(nonces[i], chosen, secret, hash, n, challenge, xy)
  }

  /** A nonce that gives a proof. */
  predicate Good(k: nat, secret: nat, hash: nat, n: nat, challenge: (nat, nat) -> nat, xy: Coordinates)
    requires n > 0
  {
    !Rejected(k, secret, hash, n, challenge, xy) && !OrderChallenge(k, hash, n, challenge)
  }

  /** The three ends of a nonce exclude each other. */
  lemma OrderChallengeNotRejected(k: nat, secret: nat, hash: nat, n: nat, challenge: (nat, nat) -> nat, xy: Coordinates)
    requires n > 0 && OrderChallenge(k, hash, n, challenge)
    ensures !Rejected(k, secret, hash, n, challenge, xy)
  {
    var c := challenge(k, V(k, hash, n));
    ModSmall(0, n);
    CongScale(c, 0, secret, n);
    ModSmall(k, n);
  }

  /** When the first challenge equals the group order the prover throws, whatever nonces would follow. */
  lemma OrderItselfThrows(k: nat, later: seq<nat>, chosen: bool, secret: nat, hash: nat, n: nat,
                          challenge: (nat, nat) -> nat, xy: Coordinates)
    requires 0 < k < n && challenge(k, V(k, hash, n)) == n
    ensures Throws([k] + later, chosen, secret, hash, n, challenge, xy)
    ensures !Rejected(k, secret, hash, n, challenge, xy)
  {
    ModUnique(n, 1, 0, n);
    assert OrderChallenge(k, hash, n, challenge);
    OrderChallengeNotRejected(k, secret, hash, n, challenge, xy);
    assert Reaches([k] + later, 0, chosen, secret, hash, n, challenge, xy);
    assert ([k] + later)[0] == k;
  }

  /** s = k - c * secret solves both equations at once. */
  lemma SchnorrEquations(k: nat, c: nat, secret: nat, hash: nat, n: nat)
    requires n > 0 && k < n
    ensures var s := Response(k, c, secret, n); var gamma := (hash * secret) % n;
      (c * secret + s) % n == k && (c * gamma + s * hash) % n == V(k, hash, n)
  {
    var m := Mod(c * secret, n);
    var s, gamma := Response(k, c, secret, n), (hash * secret) % n;
    CongMod(c * secret, n);
    CongMod(k - m, n);
    CongAdd(k, k, m, c * secret, n);
    assert Cong(s, k - c * secret, n);
    CongAdd(c * secret, c * secret, s, k - c * secret, n);
    ModSmall(k, n);
    CongMod(hash * secret, n);
    CongScale(gamma, hash * secret, c, n);
    CongMul(s, k - c * secret, hash, hash, n);
    CongAdd(c * gamma, c * (hash * secret), s * hash, (k - c * secret) * hash, n);
    Regather(c, hash, secret, k);
  }

  lemma Regather(c: int, h: int, x: int, k: int)
    ensures c * (h * x) + (k - c * x) * h == h * k
  {
    assert c * (h * x) == (c * x) * h;
    assert (k - c * x) * h == k * h - (c * x) * h;
  }

  lemma NonzeroProduct(a: nat, b: nat, n: nat)
    requires IsPrime(n) && a % n != 0 && b % n != 0
    ensures 0 < (a * b) % n < n
  {
    if (a * b) % n == 0 { ZeroProduct(a, b, n); }
  }

  lemma Residue(a: nat, n: nat)
    requires n > 0
    ensures (a % n) % n == a % n
  {
    ModSmall(a % n, n);
  }

  /** generateProof over the offered nonces, one of them when the caller fixed it. */
  method GenerateProof(secret: nat, hash: nat, nonces: seq<nat>, chosen: bool, n: nat, p: nat,
                       challenge: (nat, nat) -> nat, xy: Coordinates) returns (r: Attempt)
    requires IsPrime(n) && IsPrime(p) && 0 < secret < n && 0 < hash < n && InField(xy, n, p)
    ensures r.Made? ==> exists i :: (
      && 0 <= i < |nonces| && Reaches(nonces, i, chosen, secret, hash, n, challenge, xy)
      && Proves(r.proof, nonces[i], secret, hash, n, p, challenge, xy))
    ensures r.Made? <==> exists i :: 0 <= i < |nonces| && Reaches(nonces, i, chosen, secret, hash, n, challenge, xy)
                                    && Good(nonces[i], secret, hash, n, challenge, xy)
    ensures r.Threw? <==> Throws(nonces, chosen, secret, hash, n, challenge, xy)
    ensures r.Exhausted? <==> Reaches(nonces, |nonces|, chosen, secret, hash, n, challenge, xy)
  {
    var attempt := 0;
    while attempt < |nonces|
      invariant 0 <= attempt <= |nonces|
      invariant Reaches(nonces, attempt, chosen, secret, hash, n, challenge, xy)
    {
      var k := nonces[attempt];
      r := Try(secret, hash, k, n, p, challenge, xy);
      SearchEnds(nonces, attempt, chosen, secret, hash, n, challenge, xy);
      if r.Exhausted? && chosen { return Threw; }
      if !r.Exhausted? { return; }
      attempt := attempt + 1;
    }
    SearchRunsOut(nonces, chosen, secret, hash, n, challenge, xy);
    r := Exhausted;
  }

  lemma SearchEnds(nonces: seq<nat>, i: nat, chosen: bool, secret: nat, hash: nat, n: nat,
                   challenge: (nat, nat) -> nat, xy: Coordinates)
    requires n > 0 && i < |nonces| && Reaches(nonces, i, chosen, secret, hash, n, challenge, xy)
    ensures Fatal(nonces[i], chosen, secret, hash, n, challenge, xy) ==>
      && Throws(nonces, chosen, secret, hash, n, challenge, xy)
      && (forall j :: 0 <= j < |nonces| && Reaches(nonces, j, chosen, secret, hash, n, challenge, xy) ==>
            !Good(nonces[j], secret, hash, n, challenge, xy))
      && !Reaches(nonces, |nonces|, chosen, secret, hash, n, challenge, xy)
    ensures Good(nonces[i], secret, hash, n, challenge, xy) ==>
      && !Throws(nonces, chosen, secret, hash, n, challenge, xy)
      && !Reaches(nonces, |nonces|, chosen, secret, hash, n, challenge, xy)
  {
    forall j | 0 <= j < |nonces| && OrderChallenge(nonces[j], hash, n, challenge)
      ensures !Rejected(nonces[j], secret, hash, n, challenge, xy)
    {
      OrderChallengeNotRejected(nonces[j], secret, hash, n, challenge, xy);
    }
    forall j | 0 <= j <= |nonces| && Reaches(nonces, j, chosen, secret, hash, n, challenge, xy)
      ensures !Rejected(nonces[i], secret, hash, n, challenge, xy) ==> j <= i
      ensures chosen ==> j == 0
      ensures j < i ==> Rejected(nonces[j], secret, hash, n, challenge, xy)
    {
    }
  }

  lemma SearchRunsOut(nonces: seq<nat>, chosen: bool, secret: nat, hash: nat, n: nat,
                      challenge: (nat, nat) -> nat, xy: Coordinates)
    requires n > 0 && Reaches(nonces, |nonces|, chosen, secret, hash, n, challenge, xy)
    ensures !Throws(nonces, chosen, secret, hash, n, challenge, xy)
    ensures forall i :: 0 <= i < |nonces| ==> !Good(nonces[i], secret, hash, n, challenge, xy)
  {
    forall j | 0 <= j < |nonces|
      ensures !OrderChallenge(nonces[j], hash, n, challenge)
    {
      if OrderChallenge(nonces[j], hash, n, challenge) {
        OrderChallengeNotRejected(nonces[j], secret, hash, n, challenge, xy);
      }
    }
  }

  /** One nonce: a proof, a throw, or nothing. */
  method Try(secret: nat, hash: nat, k: nat, n: nat, p: nat, challenge: (nat, nat) -> nat, xy: Coordinates) returns (r: Attempt)
    requires IsPrime(n) && IsPrime(p) && 0 < secret < n && 0 < hash < n && InField(xy, n, p)
    ensures r.Made? ==> Proves(r.proof, k, secret, hash, n, p, challenge, xy)
    ensures r.Made? <==> Good(k, secret, hash, n, challenge, xy)
    ensures r.Threw? <==> OrderChallenge(k, hash, n, challenge)
    ensures r.Exhausted? <==> Rejected(k, secret, hash, n, challenge, xy)
  {
    if k == 0 || k >= n { return Exhausted; }
    var c := challenge(k, V(k, hash, n));
    var s := Mod(k - Mod(c * secret, n), n);
    if OrderChallenge(k, hash, n, challenge) {
      OrderChallengeNotRejected(k, secret, hash, n, challenge, xy);
    }
    if c == 0 || s == 0 { return Exhausted; }
    if c % n == 0 { return Threw; }
    r := WithWitnesses(secret, hash, k, c, s, n, p, challenge, xy);
  }

  lemma WitnessesNonzero(secret: nat, hash: nat, c: nat, s: nat, n: nat)
    requires IsPrime(n) && 0 < secret < n && 0 < hash < n && 0 < s < n && c % n != 0
    ensures var gamma := (hash * secret) % n;
      0 < (gamma * (c % n)) % n < n && 0 < (hash * s) % n < n
  {
    ModSmall(secret, n);
    ModSmall(hash, n);
    ModSmall(s, n);
    NonzeroProduct(hash, secret, n);
    Residue(hash * secret, n);
    Residue(c, n);
    NonzeroProduct((hash * secret) % n, c % n, n);
    NonzeroProduct(hash, s, n);
  }

  lemma RejectedByWitnesses(k: nat, c: nat, s: nat, secret: nat, hash: nat, n: nat,
                            challenge: (nat, nat) -> nat, xy: Coordinates)
    requires 0 < k < n && c == challenge(k, V(k, hash, n)) && s == Response(k, c, secret, n) && s != 0 && c != 0 && c % n != 0
    ensures Rejected(k, secret, hash, n, challenge, xy) <==>
      xy(((hash * secret) % n * (c % n)) % n).0 == xy((hash * s) % n).0
  {
  }

  /** The comparison of x coordinates stands for the inversion: a nonce with usable scalars is passed over exactly when the
      sum of its witnesses has no inverse. */
  lemma PassedOverExactly(k: nat, c: nat, s: nat, secret: nat, hash: nat, n: nat, p: nat,
                          challenge: (nat, nat) -> nat, xy: Coordinates)
    requires IsPrime(n) && IsPrime(p) && 0 < secret < n && 0 < hash < n && InField(xy, n, p)
    requires 0 < k < n && c == challenge(k, V(k, hash, n)) && s == Response(k, c, secret, n) && s != 0 && c != 0 && c % n != 0
    ensures var (a, b) := (xy(((hash * secret) % n * (c % n)) % n), xy((hash * s) % n));
      Rejected(k, secret, hash, n, challenge, xy) <==> EcSum(a.0, a.1, b.0, b.1, p).2 % p == 0
  {
    WitnessesNonzero(secret, hash, c, s, n);
    RejectedByWitnesses(k, c, s, secret, hash, n, challenge, xy);
    var (a, b) := (xy(((hash * secret) % n * (c % n)) % n), xy((hash * s) % n));
    NoInverseExactly(a.0, a.1, b.0, b.1, p);
  }

  lemma ProofHolds(pr: Proof, k: nat, secret: nat, hash: nat, n: nat, p: nat, challenge: (nat, nat) -> nat, xy: Coordinates)
    requires IsPrime(n) && IsPrime(p) && 0 < secret < n && 0 < hash < n && 0 < k < n
    requires pr.pk == secret && pr.gamma == (hash * secret) % n && pr.u == k && pr.c == challenge(k, V(k, hash, n))
    requires pr.s == Response(k, pr.c, secret, n) && pr.s != 0 && pr.c % n != 0
    requires pr.cGammaWitness == (pr.gamma * (pr.c % n)) % n && pr.sHashWitness == (hash * pr.s) % n
    requires xy(pr.cGammaWitness).0 != xy(pr.sHashWitness).0
    requires pr.zInv < p && (WitnessSum(pr, p, xy).2 * pr.zInv) % p == 1
    ensures Proves(pr, k, secret, hash, n, p, challenge, xy)
  {
    WitnessesNonzero(secret, hash, pr.c, pr.s, n);
    SchnorrEquations(k, pr.c, secret, hash, n);
  }

  /** The witnesses of one nonce, unless their x coordinates coincide. */
  method WithWitnesses(secret: nat, hash: nat, k: nat, c: nat, s: nat, n: nat, p: nat,
                       challenge: (nat, nat) -> nat, xy: Coordinates) returns (r: Attempt)
    requires IsPrime(n) && IsPrime(p) && 0 < secret < n && 0 < hash < n && InField(xy, n, p)
    requires 0 < k < n && c == challenge(k, V(k, hash, n)) && s == Response(k, c, secret, n) && s != 0 && c % n != 0
    ensures !r.Threw?
    ensures r.Made? ==> Proves(r.proof, k, secret, hash, n, p, challenge, xy)
    ensures r.Exhausted? <==> Rejected(k, secret, hash, n, challenge, xy)
  {
    var gamma := (hash * secret) % n;
    WitnessesNonzero(secret, hash, c, s, n);
    ModSmall(0, n);
    var cGammaWitness := (gamma * (c % n)) % n;
    var sHashWitness := (hash * s) % n;
    var a, b := xy(cGammaWitness), xy(sHashWitness);
    RejectedByWitnesses(k, c, s, secret, hash, n, challenge, xy);
    if a.0 == b.0 { return Exhausted; }
    var zInv := InvertedZ(a, b, p);
    r := Made(Proof(secret, gamma, c, s, k, cGammaWitness, sHashWitness, zInv));
    ProofHolds(r.proof, k, secret, hash, n, p, challenge, xy);
  }

  /** The inverse of the projective sum's denominator. */
  method InvertedZ(a: Affine, b: Affine, p: nat) returns (zInv: nat)
    requires IsPrime(p) && a.0 < p && a.1 < p && b.0 < p && b.1 < p && a.0 != b.0
    ensures zInv < p && (EcSum(a.0, a.1, b.0, b.1, p).2 * zInv) % p == 1
  {
    NoInverseExactly(a.0, a.1, b.0, b.1, p);
    var sx, sy, z := ProjectiveEcAdd(a.0, a.1, b.0, b.1, p);
    zInv := ModInverse(z, p);
  }

  // ---------------------------------------------------------------- what a verifier sees

  /** The group law on coordinates: points with different x add along their chord. */
  ghost predicate ChordLaw(xy: Coordinates, n: nat, p: nat)
    requires IsPrime(p)
  {
    forall a, b :: 0 < a < n && 0 < b < n && (xy(b).0 - xy(a).0) % p != 0 ==>
      xy((a + b) % n) == (SumX(xy(a).0, xy(a).1, xy(b).0, xy(b).1, p) % p, SumY(xy(a).0, xy(a).1, xy(b).0, xy(b).1, p) % p)
  }

  lemma Divided(num: nat, z: nat, zInv: nat, v: int, p: nat)
    requires IsPrime(p) && Represents(num, z, v, p) && (z * zInv) % p == 1
    ensures (num * zInv) % p == v % p
  {
    CongMul(num, v * z, zInv, zInv, p);
    assert (v * z) * zInv == v * (z * zInv);
    ModSmall(1, p);
    CongScale(z * zInv, 1, v, p);
  }

  lemma WitnessLogs(pr: Proof, k: nat, secret: nat, hash: nat, n: nat, p: nat, challenge: (nat, nat) -> nat, xy: Coordinates)
    requires n > 0 && p > 0 && Proves(pr, k, secret, hash, n, p, challenge, xy)
    ensures (pr.cGammaWitness + pr.sHashWitness) % n == V(k, hash, n)
  {
    CongMod(pr.c, n);
    CongScale(pr.c % n, pr.c, pr.gamma, n);
    CongMod(pr.gamma * (pr.c % n), n);
    CongMod(hash * pr.s, n);
    CongAdd(pr.cGammaWitness, pr.gamma * pr.c, pr.sHashWitness, hash * pr.s, n);
    assert pr.gamma * pr.c == pr.c * pr.gamma && hash * pr.s == pr.s * hash;
  }

  /** A returned proof convinces: its projective witness sum, divided with the inverse it carries, is the point
      v = k * hash that its challenge was computed from. */
  lemma WitnessSumIsV(pr: Proof, k: nat, secret: nat, hash: nat, n: nat, p: nat, challenge: (nat, nat) -> nat, xy: Coordinates)
    requires IsPrime(p) && n > 0 && InField(xy, n, p) && ChordLaw(xy, n, p)
    requires Proves(pr, k, secret, hash, n, p, challenge, xy)
    ensures var (sx, sy, z) := WitnessSum(pr, p, xy);
      ((sx * pr.zInv) % p, (sy * pr.zInv) % p) == xy(V(k, hash, n))
  {
    var (a, b) := (xy(pr.cGammaWitness), xy(pr.sHashWitness));
    DistinctResidues(a.0, b.0, p);
    EcSumIsAffineSum(a.0, a.1, b.0, b.1, p);
    var (sx, sy, z) := WitnessSum(pr, p, xy);
    Divided(sx, z, pr.zInv, SumX(a.0, a.1, b.0, b.1, p), p);
    Divided(sy, z, pr.zInv, SumY(a.0, a.1, b.0, b.1, p), p);
    WitnessLogs(pr, k, secret, hash, n, p, challenge, xy);
  }

  /** A verifier's two equations for commitments u and v. */
  predicate Answers(c: int, s: int, gamma: int, u: int, v: int, secret: nat, hash: nat, n: nat)
    requires n > 0
  {
    (c * secret + s) % n == u % n && (c * gamma + s * hash) % n == v % n
  }

  /** Which challenges a point gamma can answer: for the true output point all or none, for any other one residue. */
  lemma AnswerableExactly(c: int, gamma: int, u: int, v: int, secret: nat, hash: nat, n: nat)
    requires n > 0
    ensures (exists s: int :: Answers(c, s, gamma, u, v, secret, hash, n)) <==>
      Cong(c * (gamma - hash * secret), v - hash * u, n)
  {
    if s: int :| Answers(c, s, gamma, u, v, secret, hash, n) {
      CongScale(c * secret + s, u, hash, n);
      CongAdd(c * gamma + s * hash, v, hash * (c * secret + s), hash * u, n);
      Eliminated(c, s, gamma, secret, hash);
    }
    if Cong(c * (gamma - hash * secret), v - hash * u, n) {
      var s := u - c * secret;
      assert c * secret + s == u;
      CongAdd(c * (gamma - hash * secret), v - hash * u, hash * u, hash * u, n);
      Eliminated(c, s, gamma, secret, hash);
      assert Answers(c, s, gamma, u, v, secret, hash, n);
    }
  }

  lemma Eliminated(c: int, s: int, gamma: int, secret: int, hash: int)
    ensures (c * gamma + s * hash) - hash * (c * secret + s) == c * (gamma - hash * secret)
  {
    assert hash * (c * secret + s) == hash * (c * secret) + hash * s;
    assert hash * (c * secret) == c * (hash * secret);
    assert c * (gamma - hash * secret) == c * gamma - c * (hash * secret);
  }

  /** The output is a function of key and seed: whoever can answer two challenges for one commitment has the output point,
      the secret times the hash of the seed. */
  lemma OutputIsUnique(c: int, s: int, c': int, s': int, gamma: int, u: int, v: int, secret: nat, hash: nat, n: nat)
    requires IsPrime(n) && !Cong(c, c', n)
    requires Answers(c, s, gamma, u, v, secret, hash, n) && Answers(c', s', gamma, u, v, secret, hash, n)
    ensures gamma % n == (hash * secret) % n
  {
    AnswerableExactly(c, gamma, u, v, secret, hash, n);
    AnswerableExactly(c', gamma, u, v, secret, hash, n);
    var d := gamma - hash * secret;
    CongToZero(c * d, c' * d, n);
    assert c * d - c' * d == (c - c') * d;
    ZeroProduct(c - c', d, n);
    ModSmall(0, n);
    if (c - c') % n == 0 {
      CongAdd(c - c', 0, c', c', n);
    } else {
      CongAdd(d, 0, hash * secret, hash * secret, n);
    }
  }
}
