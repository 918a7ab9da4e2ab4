/** When the noise that the code's S really contains is no worse than none: a test on numbers known before update. */
module NoiseGuard {
  import opened Reals
  import opened Space
  import opened Blocks
  import opened Covariance
  import opened Inversion33
  import opened FusionSteps
  import opened Forms33
  import opened KalmanUpdate

  /** The symmetric matrix with r on the diagonal and a, c, d above it. */
  function Even(r: real, a: real, c: real, d: real): Mat33 { Mat33(Vec3(r, a, c), Vec3(a, r, d), Vec3(c, d, r)) }

  function EvenForm(r: real, a: real, c: real, d: real, x: real, y: real, z: real): real {
    r * (x * x) + r * (y * y) + r * (z * z) + 2.0 * (a * (x * y) + c * (x * z) + d * (y * z))
  }

  function EvenDeterminant(r: real, a: real, c: real, d: real): real {
    r * (r * r) - r * (a * a + c * c + d * d) + 2.0 * (a * (c * d))
  }

  lemma EvenFormIs(r: real, a: real, c: real, d: real, v: Vec3)
    ensures Form33(Even(r, a, c, d), v) == EvenForm(r, a, c, d, v.x, v.y, v.z)
  {
  }

  // ----- the form is positive if the minors are

  /** r times the form is a square plus a form in two variables. */
  lemma Complete(r: real, a: real, c: real, d: real, x: real, y: real, z: real)
    ensures r * EvenForm(r, a, c, d, x, y, z)
         == Square(r * x + (a * y + c * z)) + Pair(r * r - a * a, r * d - a * c, r * r - c * c, y, z)
  {
    var ay, cz, rx := a * y, c * z, r * x;
    assert Square(rx + (ay + cz)) == rx * rx + 2.0 * (rx * (ay + cz)) + (ay * ay + 2.0 * (ay * cz) + cz * cz);
    CompleteTerms(r, a, c, d, x, y, z);
  }

  function Pair(p: real, q: real, s: real, y: real, z: real): real { p * (y * y) + 2.0 * (q * (y * z)) + s * (z * z) }

  lemma CompleteTerms(r: real, a: real, c: real, d: real, x: real, y: real, z: real)
    ensures r * EvenForm(r, a, c, d, x, y, z)
         == (r * x) * (r * x) + 2.0 * ((r * x) * (a * y + c * z))
            + ((a * y) * (a * y) + 2.0 * ((a * y) * (c * z)) + (c * z) * (c * z))
            + Pair(r * r - a * a, r * d - a * c, r * r - c * c, y, z)
  {
    var xx, yy, zz, xy, xz, yz := x * x, y * y, z * z, x * y, x * z, y * z;
    FourFactors(r, x, r, x);
    FourFactors(r, x, a, y);
    FourFactors(r, x, c, z);
    FourFactors(a, y, a, y);
    FourFactors(a, y, c, z);
    FourFactors(c, z, c, z);
    FormTimes(r, a, c, d, xx, yy, zz, xy, xz, yz);
    Differences(r * r, a * a, yy);
    Differences(r * d, a * c, yz);
    Differences(r * r, c * c, zz);
  }

  lemma FourFactors(a: real, x: real, b: real, y: real)
    ensures (a * x) * (b * y) == (a * b) * (x * y)
  {
  }

  lemma Differences(a: real, b: real, v: real)
    ensures (a - b) * v == a * v - b * v
  {
  }

  lemma FormTimes(r: real, a: real, c: real, d: real, xx: real, yy: real, zz: real, xy: real, xz: real, yz: real)
    ensures r * (r * xx + r * yy + r * zz + 2.0 * (a * xy + c * xz + d * yz))
         == (r * r) * xx + (r * r) * yy + (r * r) * zz + 2.0 * ((r * a) * xy + (r * c) * xz + (r * d) * yz)
  {
  }

  /** p times a form in two variables is a square plus its determinant's share. */
  lemma CompletePair(p: real, q: real, s: real, y: real, z: real)
    ensures p * Pair(p, q, s, y, z) == Square(p * y + q * z) + (p * s - q * q) * (z * z)
  {
  }

  lemma PairPositive(p: real, q: real, s: real, y: real, z: real)
    requires p >= 0.0 && s >= 0.0 && p * s >= q * q
    ensures Pair(p, q, s, y, z) >= 0.0
  {
    hide Pair, Square;
    SquarePositive(z);
    SquarePositive(p * y + q * z);
    SquareIs(z);
    if p > 0.0 {
      CompletePair(p, q, s, y, z);
      NonnegativeProduct(p * s - q * q, z * z);
      QuotientNonnegative(p, Pair(p, q, s, y, z));
    } else {
      FlatPair(q, s, y, z);
    }
  }

  lemma SquareIs(z: real)
    ensures Square(z) == z * z
  {
  }

  lemma FlatPair(q: real, s: real, y: real, z: real)
    requires s >= 0.0 && 0.0 >= q * q && z * z >= 0.0
    ensures Pair(0.0, q, s, y, z) >= 0.0
  {
    SquareVanishes(q);
    NonnegativeProduct(s, z * z);
  }

  lemma QuotientNonnegative(p: real, v: real)
    requires p > 0.0 && p * v >= 0.0
    ensures v >= 0.0
  {
    if v < 0.0 { PositiveProduct(p, -v); }
  }

  lemma MinorsProduct(r: real, a: real, c: real, d: real)
    ensures (r * r - a * a) * (r * r - c * c) - (r * d - a * c) * (r * d - a * c) == r * EvenDeterminant(r, a, c, d)
  {
  }

  ghost predicate Within(r: real, a: real) { -r <= a <= r }

  lemma WithinSquare(r: real, a: real)
    requires Within(r, a)
    ensures a * a <= r * r
  {
    NonnegativeProduct(r - a, r + a);
  }

  lemma MinorsSuffice(r: real, a: real, c: real, d: real, x: real, y: real, z: real)
    requires Within(r, a) && Within(r, c) && Within(r, d) && EvenDeterminant(r, a, c, d) >= 0.0
    ensures EvenForm(r, a, c, d, x, y, z) >= 0.0
  {
    hide EvenForm, EvenDeterminant, Pair, Square;
    if r == 0.0 {
      NoForm(x, y, z);
    } else {
      WithinSquare(r, a);
      WithinSquare(r, c);
      MinorsProduct(r, a, c, d);
      NonnegativeProduct(r, EvenDeterminant(r, a, c, d));
      SquarePlusPair(r, a, c, d, x, y, z, r * r - a * a, r * d - a * c, r * r - c * c);
    }
  }

  lemma SquarePlusPair(r: real, a: real, c: real, d: real, x: real, y: real, z: real, p: real, q: real, s: real)
    requires r > 0.0 && p == r * r - a * a && q == r * d - a * c && s == r * r - c * c
    requires p >= 0.0 && s >= 0.0 && p * s >= q * q
    ensures EvenForm(r, a, c, d, x, y, z) >= 0.0
  {
    hide EvenForm, Pair, Square;
    PairPositive(p, q, s, y, z);
    Complete(r, a, c, d, x, y, z);
    SquarePositive(r * x + (a * y + c * z));
    QuotientNonnegative(r, EvenForm(r, a, c, d, x, y, z));
  }

  lemma NoForm(x: real, y: real, z: real)
    ensures EvenForm(0.0, 0.0, 0.0, 0.0, x, y, z) == 0.0
  {
  }

  // ----- and only then

  lemma PairsNecessary(r: real, a: real, c: real, d: real)
    requires forall x, y, z :: EvenForm(r, a, c, d, x, y, z) >= 0.0
    ensures Within(r, a) && Within(r, c) && Within(r, d)
  {
    assert EvenForm(r, a, c, d, 1.0, 1.0, 0.0) >= 0.0 && EvenForm(r, a, c, d, 1.0, -1.0, 0.0) >= 0.0;
    assert EvenForm(r, a, c, d, 1.0, 0.0, 1.0) >= 0.0 && EvenForm(r, a, c, d, 1.0, 0.0, -1.0) >= 0.0;
    assert EvenForm(r, a, c, d, 0.0, 1.0, 1.0) >= 0.0 && EvenForm(r, a, c, d, 0.0, 1.0, -1.0) >= 0.0;
  }

  /** At the first column of the cofactors the form is the determinant times the first cofactor. */
  lemma AtCofactors(r: real, a: real, c: real, d: real)
    ensures EvenForm(r, a, c, d, r * r - d * d, c * d - a * r, a * d - r * c)
         == (r * r - d * d) * EvenDeterminant(r, a, c, d)
  {
    CofactorRow(r, a, c, d);
    CofactorOthers(r, a, c, d);
    var x, y, z := r * r - d * d, c * d - a * r, a * d - r * c;
    ByRows(r, a, c, d, x, y, z);
  }

  lemma CofactorRow(r: real, a: real, c: real, d: real)
    ensures r * (r * r - d * d) + a * (c * d - a * r) + c * (a * d - r * c) == EvenDeterminant(r, a, c, d)
  {
  }

  lemma CofactorOthers(r: real, a: real, c: real, d: real)
    ensures a * (r * r - d * d) + r * (c * d - a * r) + d * (a * d - r * c) == 0.0
    ensures c * (r * r - d * d) + d * (c * d - a * r) + r * (a * d - r * c) == 0.0
  {
  }

  lemma ByRows(r: real, a: real, c: real, d: real, x: real, y: real, z: real)
    ensures EvenForm(r, a, c, d, x, y, z)
         == x * (r * x + a * y + c * z) + y * (a * x + r * y + d * z) + z * (c * x + d * y + r * z)
  {
  }

  /** The form and the determinant for the axes renamed. */
  lemma Renamed(r: real, a: real, c: real, d: real, x: real, y: real, z: real)
    ensures EvenForm(r, a, c, d, x, y, z) == EvenForm(r, d, a, c, y, z, x)
    ensures EvenDeterminant(r, a, c, d) == EvenDeterminant(r, d, a, c)
  {
  }

  lemma DeterminantFromCofactor(r: real, a: real, c: real, d: real)
    requires Within(r, d) && EvenForm(r, a, c, d, r * r - d * d, c * d - a * r, a * d - r * c) >= 0.0
    ensures r * r != d * d ==> EvenDeterminant(r, a, c, d) >= 0.0
  {
    hide EvenForm, EvenDeterminant;
    AtCofactors(r, a, c, d);
    WithinSquare(r, d);
    if r * r != d * d {
      QuotientNonnegative(r * r - d * d, EvenDeterminant(r, a, c, d));
    }
  }

  lemma DeterminantNecessary(r: real, a: real, c: real, d: real)
    requires forall x, y, z :: EvenForm(r, a, c, d, x, y, z) >= 0.0
    ensures EvenDeterminant(r, a, c, d) >= 0.0
  {
    PairsNecessary(r, a, c, d);
    hide EvenForm, EvenDeterminant;
    Renamed(r, a, c, d, 0.0, 0.0, 0.0);
    Renamed(r, d, a, c, 0.0, 0.0, 0.0);
    if r * r != d * d {
      assert EvenForm(r, a, c, d, r * r - d * d, c * d - a * r, a * d - r * c) >= 0.0;
      DeterminantFromCofactor(r, a, c, d);
    } else if r * r != c * c {
      var x, y, z := r * r - c * c, a * c - d * r, d * c - r * a;
      Renamed(r, a, c, d, z, x, y);
      assert EvenForm(r, a, c, d, z, x, y) >= 0.0;
      DeterminantFromCofactor(r, d, a, c);
    } else if r * r != a * a {
      var x, y, z := r * r - a * a, d * a - c * r, c * a - r * d;
      Renamed(r, a, c, d, y, z, x);
      Renamed(r, d, a, c, z, x, y);
      assert EvenForm(r, a, c, d, y, z, x) >= 0.0;
      DeterminantFromCofactor(r, c, d, a);
    } else {
      AllEqual(r, a, c, d);
    }
  }

  lemma SameSquare(r: real, a: real)
    requires r * r == a * a
    ensures a == r || a == -r
  {
    assert (r - a) * (r + a) == 0.0;
  }

  /** All off-diagonal entries as large as the diagonal: then the signs decide. */
  lemma AllEqual(r: real, a: real, c: real, d: real)
    requires r >= 0.0 && r * r == a * a == c * c == d * d
    requires forall x, y, z :: EvenForm(r, a, c, d, x, y, z) >= 0.0
    ensures EvenDeterminant(r, a, c, d) >= 0.0
  {
    SameSquare(r, a);
    SameSquare(r, c);
    SameSquare(r, d);
    assert EvenForm(r, a, c, d, 1.0, 1.0, 1.0) >= 0.0 && EvenForm(r, a, c, d, 1.0, 1.0, -1.0) >= 0.0;
    assert EvenForm(r, a, c, d, 1.0, -1.0, 1.0) >= 0.0 && EvenForm(r, a, c, d, -1.0, 1.0, 1.0) >= 0.0;
    SignsDecide(r, a, c, d);
  }

  lemma SignsDecide(r: real, a: real, c: real, d: real)
    requires r >= 0.0 && (a == r || a == -r) && (c == r || c == -r) && (d == r || d == -r)
    requires 3.0 * r + 2.0 * (a + c + d) >= 0.0 && 3.0 * r + 2.0 * (a - c - d) >= 0.0
    requires 3.0 * r + 2.0 * (-a + c - d) >= 0.0 && 3.0 * r + 2.0 * (-a - c + d) >= 0.0
    ensures EvenDeterminant(r, a, c, d) >= 0.0
  {
    if r > 0.0 {
      var r3 := r * (r * r);
      assert a * (c * d) == r3;
      assert r * (a * a + c * c + d * d) == 3.0 * r3;
    }
  }

  /** A matrix of this kind is positive exactly if its minors are. */
  lemma EvenPositiveExactly(r: real, a: real, c: real, d: real)
    requires r >= 0.0
    ensures Positive33(Even(r, a, c, d))
       <==> Within(r, a) && Within(r, c) && Within(r, d) && EvenDeterminant(r, a, c, d) >= 0.0
  {
    hide EvenForm, EvenDeterminant, Form33;
    if Positive33(Even(r, a, c, d)) {
      forall x, y, z ensures EvenForm(r, a, c, d, x, y, z) >= 0.0 {
        EvenFormIs(r, a, c, d, Vec3(x, y, z));
        FormAt(Even(r, a, c, d), Vec3(x, y, z));
      }
      PairsNecessary(r, a, c, d);
      DeterminantNecessary(r, a, c, d);
    }
    if Within(r, a) && Within(r, c) && Within(r, d) && EvenDeterminant(r, a, c, d) >= 0.0 {
      forall v ensures Form33(Even(r, a, c, d), v) >= 0.0 {
        EvenFormIs(r, a, c, d, v);
        MinorsSuffice(r, a, c, d, v.x, v.y, v.z);
      }
    }
  }

  // ----- the guard of update

  /** The variance of a noise sigma outweighs the twist w: what a caller of update can test. */
  ghost predicate Outweighs(sigma: real, w: Vec3) { VarianceOutweighs(sigma * sigma, w) }

  ghost predicate VarianceOutweighs(r: real, w: Vec3) {
    && Within(r, w.x) && Within(r, w.y) && Within(r, w.z)
    && r * (r * r) - r * Dot(w, w) + 2.0 * (w.x * (w.y * w.z)) >= 0.0
  }

  lemma TwistDeterminant(r: real, w: Vec3)
    ensures EvenDeterminant(r, -w.z, w.y, -w.x) == r * (r * r) - r * Dot(w, w) + 2.0 * (w.x * (w.y * w.z))
  {
    assert -w.z * (w.y * -w.x) == w.x * (w.y * w.z);
    assert (-w.z) * (-w.z) == w.z * w.z && (-w.x) * (-w.x) == w.x * w.x;
  }

  lemma OutweighsIs(r: real, w: Vec3)
    ensures VarianceOutweighs(r, w)
       <==> Within(r, -w.z) && Within(r, w.y) && Within(r, -w.x) && EvenDeterminant(r, -w.z, w.y, -w.x) >= 0.0
  {
    hide EvenDeterminant, Dot;
    TwistDeterminant(r, w);
  }

  /** The twist of P along b, as a vector. */
  function TwistVector(b: Vec3, p: Block): Vec3 { Scale(b, Twist(b, p.m00)) }

  lemma ActualNoiseIs(b: Vec3, p: Block, sigma: real)
    ensures var w := TwistVector(b, p); ActualNoise(b, p, sigma) == Even(sigma * sigma, -w.z, w.y, -w.x)
  {
    hide Twist;
    var t := Twist(b, p.m00);
    assert -b.z * t == -(b.z * t) && -b.x * t == -(b.x * t);
  }

  /** The noise in the code's S is no worse than none if and only if sigma^2 outweighs the twist. */
  lemma NoiseProperExactly(b: Vec3, p: Block, sigma: real)
    ensures Positive33(ActualNoise(b, p, sigma)) <==> Outweighs(sigma, TwistVector(b, p))
  {
    hide Positive33, EvenDeterminant, TwistVector, ActualNoise, Even, VarianceOutweighs, Within;
    var w := TwistVector(b, p);
    SquareOfReal(sigma);
    ActualNoiseIs(b, p, sigma);
    OutweighsIs(sigma * sigma, w);
    EvenPositiveExactly(sigma * sigma, -w.z, w.y, -w.x);
  }

  lemma SquareOfReal(sigma: real)
    ensures sigma * sigma >= 0.0
  {
  }

  // ----- the strict case: some noise in every direction

  ghost predicate StrictlyWithin(r: real, a: real) { -r < a < r }

  lemma StrictSquare(r: real, a: real)
    requires StrictlyWithin(r, a)
    ensures a * a < r * r
  {
    PositiveProduct(r - a, r + a);
  }

  lemma PairDefinite(p: real, q: real, s: real, y: real, z: real)
    requires p > 0.0 && p * s > q * q && (y != 0.0 || z != 0.0)
    ensures Pair(p, q, s, y, z) > 0.0
  {
    hide Pair, Square;
    if z != 0.0 {
      SquarePositive(z);
      SquareIs(z);
      SquarePositive(p * y + q * z);
      PositiveProduct(p * s - q * q, z * z);
      CompletePair(p, q, s, y, z);
      QuotientPositive(p, Pair(p, q, s, y, z));
    } else {
      SquarePositive(y);
      SquareIs(y);
      PositiveProduct(p, y * y);
      PairOfOne(p, q, s, y);
    }
  }

  lemma PairOfOne(p: real, q: real, s: real, y: real)
    ensures Pair(p, q, s, y, 0.0) == p * (y * y)
  {
  }

  lemma QuotientPositive(p: real, v: real)
    requires p > 0.0 && p * v > 0.0
    ensures v > 0.0
  {
    if v < 0.0 { PositiveProduct(p, -v); }
  }

  lemma StrictMinorsSuffice(r: real, a: real, c: real, d: real, x: real, y: real, z: real)
    requires StrictlyWithin(r, a) && StrictlyWithin(r, c) && EvenDeterminant(r, a, c, d) > 0.0
    requires x != 0.0 || y != 0.0 || z != 0.0
    ensures EvenForm(r, a, c, d, x, y, z) > 0.0
  {
    hide EvenForm, EvenDeterminant, Pair, Square;
    var p, q, s := r * r - a * a, r * d - a * c, r * r - c * c;
    StrictSquare(r, a);
    MinorsProduct(r, a, c, d);
    PositiveProduct(r, EvenDeterminant(r, a, c, d));
    assert p * s - q * q == r * EvenDeterminant(r, a, c, d);
    Complete(r, a, c, d, x, y, z);
    SquarePositive(r * x + (a * y + c * z));
    if y != 0.0 || z != 0.0 {
      PairDefinite(p, q, s, y, z);
    } else {
      FirstOnly(r, a, c, x, y, z);
      PairOfOne(p, q, s, y);
    }
    QuotientPositive(r, EvenForm(r, a, c, d, x, y, z));
  }

  lemma FirstOnly(r: real, a: real, c: real, x: real, y: real, z: real)
    requires r > 0.0 && x != 0.0 && y == 0.0 && z == 0.0
    ensures Square(r * x + (a * y + c * z)) > 0.0
  {
    ProductNonzero(r, x);
    SquarePositive(r * x);
  }

  lemma ProductNonzero(r: real, x: real)
    requires r > 0.0 && x != 0.0
    ensures r * x != 0.0
  {
  }

  lemma EvenDefiniteExactly(r: real, a: real, c: real, d: real)
    ensures Definite33(Even(r, a, c, d))
       <==> StrictlyWithin(r, a) && StrictlyWithin(r, c) && StrictlyWithin(r, d) && EvenDeterminant(r, a, c, d) > 0.0
  {
    hide EvenForm, EvenDeterminant, Form33;
    if Definite33(Even(r, a, c, d)) {
      forall x, y, z | x != 0.0 || y != 0.0 || z != 0.0 ensures EvenForm(r, a, c, d, x, y, z) > 0.0 {
        EvenFormIs(r, a, c, d, Vec3(x, y, z));
      }
      StrictPairsNecessary(r, a, c, d);
      StrictSquare(r, d);
      AtCofactors(r, a, c, d);
      assert EvenForm(r, a, c, d, r * r - d * d, c * d - a * r, a * d - r * c) > 0.0;
      QuotientPositive(r * r - d * d, EvenDeterminant(r, a, c, d));
    }
    if StrictlyWithin(r, a) && StrictlyWithin(r, c) && StrictlyWithin(r, d) && EvenDeterminant(r, a, c, d) > 0.0 {
      forall v | v != ZERO3 ensures Form33(Even(r, a, c, d), v) > 0.0 {
        EvenFormIs(r, a, c, d, v);
        StrictMinorsSuffice(r, a, c, d, v.x, v.y, v.z);
      }
    }
  }

  lemma StrictPairsNecessary(r: real, a: real, c: real, d: real)
    requires forall x, y, z :: x != 0.0 || y != 0.0 || z != 0.0 ==> EvenForm(r, a, c, d, x, y, z) > 0.0
    ensures StrictlyWithin(r, a) && StrictlyWithin(r, c) && StrictlyWithin(r, d)
  {
    assert EvenForm(r, a, c, d, 1.0, 1.0, 0.0) > 0.0 && EvenForm(r, a, c, d, 1.0, -1.0, 0.0) > 0.0;
    assert EvenForm(r, a, c, d, 1.0, 0.0, 1.0) > 0.0 && EvenForm(r, a, c, d, 1.0, 0.0, -1.0) > 0.0;
    assert EvenForm(r, a, c, d, 0.0, 1.0, 1.0) > 0.0 && EvenForm(r, a, c, d, 0.0, 1.0, -1.0) > 0.0;
  }

  ghost predicate StrictlyOutweighs(sigma: real, w: Vec3) { VarianceStrictlyOutweighs(sigma * sigma, w) }

  ghost predicate VarianceStrictlyOutweighs(r: real, w: Vec3) {
    && StrictlyWithin(r, w.x) && StrictlyWithin(r, w.y) && StrictlyWithin(r, w.z)
    && r * (r * r) - r * Dot(w, w) + 2.0 * (w.x * (w.y * w.z)) > 0.0
  }

  lemma StrictlyOutweighsIs(r: real, w: Vec3)
    ensures VarianceStrictlyOutweighs(r, w)
       <==> StrictlyWithin(r, -w.z) && StrictlyWithin(r, w.y) && StrictlyWithin(r, -w.x)
            && EvenDeterminant(r, -w.z, w.y, -w.x) > 0.0
  {
    hide EvenDeterminant, Dot;
    TwistDeterminant(r, w);
  }

  /** The code's S contains some noise in every direction if and only if sigma^2 strictly outweighs the twist. */
  lemma NoiseDefiniteExactly(b: Vec3, p: Block, sigma: real)
    ensures Definite33(ActualNoise(b, p, sigma)) <==> StrictlyOutweighs(sigma, TwistVector(b, p))
  {
    hide Definite33, EvenDeterminant, TwistVector, ActualNoise, Even, VarianceStrictlyOutweighs, StrictlyWithin;
    var w := TwistVector(b, p);
    ActualNoiseIs(b, p, sigma);
    StrictlyOutweighsIs(sigma * sigma, w);
    EvenDefiniteExactly(sigma * sigma, -w.z, w.y, -w.x);
  }

  /** Without any twist, any noise does. */
  lemma NoTwistOutweighed(b: Vec3, p: Block, sigma: real)
    requires sigma != 0.0 && (b == ZERO3 || Twist(b, p.m00) == 0.0)
    ensures StrictlyOutweighs(sigma, TwistVector(b, p)) && Outweighs(sigma, TwistVector(b, p))
  {
    hide Twist, VarianceOutweighs, VarianceStrictlyOutweighs, Scale;
    NoTwistVector(b, Twist(b, p.m00));
    var v := sigma * sigma;
    SquareOfNonzero(sigma, v);
    NothingOutweighed(v);
  }

  lemma NoTwistVector(b: Vec3, t: real)
    requires b == ZERO3 || t == 0.0
    ensures Scale(b, t) == ZERO3
  {
  }

  lemma NothingOutweighed(r: real)
    requires r > 0.0
    ensures VarianceStrictlyOutweighs(r, ZERO3) && VarianceOutweighs(r, ZERO3)
  {
    var q := r * r;
    SquareOfNonzero(r, q);
    PositiveProduct(r, q);
  }

  lemma SquareOfNonzero(sigma: real, v: real)
    requires sigma != 0.0 && v == sigma * sigma
    ensures v > 0.0
  {
    SquarePositive(sigma);
  }
}
