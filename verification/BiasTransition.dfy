/** The second block predict assigns: what Phi10 is, told without its formula. */
module BiasTransition {
  import opened Reals
  import opened Space
  import opened FusionSteps
  import opened Covariance
  import opened Transition
  import opened Attitude

  /** m has the two properties of minus the integral of Phi00 over the sampling time: turning about the rate
      brings it to what Phi00 has turned by, and along the rate, which Phi00 leaves alone, it is -dT. */
  ghost predicate IntegratesRotation(m: Mat33, phi00: Mat33, we: Vec3, dT: real) {
    && Mul(CrossMatrix(we, 0.0), m) == SubM(phi00, Diagonal(1.0))
    && forall v :: Dot(we, MulV(m, v)) == -(dT * Dot(we, v))
  }

  lemma CrossSquareApplied(we: Vec3, v: Vec3)
    ensures MulV(Mul(CrossMatrix(we, 0.0), CrossMatrix(we, 0.0)), v) == Cross(we, Cross(we, v))
  {
    hide MulV, Mul, Cross, CrossMatrix;
    MulVAssoc(CrossMatrix(we, 0.0), CrossMatrix(we, 0.0), v);
    CrossAsMatrix(we, v);
    CrossAsMatrix(we, Cross(we, v));
  }

  /** The two blocks as polynomials in the cross product with the rate. */
  function Turn(v: Vec3, x: Vec3, y: Vec3, k1: real, k0: real): Vec3 { Add(Sub(v, Scale(x, k1)), Scale(y, k0)) }

  function Drift(v: Vec3, x: Vec3, y: Vec3, k0: real, dT: real, k2: real): Vec3 {
    Sub(Sub(Scale(x, k0), Scale(v, dT)), Scale(y, k2))
  }

  lemma Phi00Applied(libm: Libm, we: Vec3, dT: real, v: Vec3)
    requires Length(libm, we) != 0.0
    ensures MulV(Phi00(libm, we, dT), v)
         == Turn(v, Cross(we, v), Cross(we, Cross(we, v)), K1(libm, we, dT), K0(libm, we, dT))
  {
    hide MulV, Mul, Cross, CrossMatrix, AddM, SubM, ScaleM, Diagonal, Add, Sub, Scale, K0, K1, Length;
    var wx := CrossMatrix(we, 0.0);
    var a, b := ScaleM(wx, K1(libm, we, dT)), ScaleM(Mul(wx, wx), K0(libm, we, dT));
    MulVAdd(SubM(Diagonal(1.0), a), b, v);
    MulVAdd(Diagonal(1.0), a, v);
    DiagonalApplied(1.0, v);
    assert Scale(v, 1.0) == v by { ScaleOne(v); }
    ScaledRows(wx, v, K1(libm, we, dT));
    ScaledRows(Mul(wx, wx), v, K0(libm, we, dT));
    CrossAsMatrix(we, v);
    CrossSquareApplied(we, v);
  }

  lemma ScaleOne(v: Vec3)
    ensures Scale(v, 1.0) == v
  {
  }

  lemma Phi10Applied(libm: Libm, we: Vec3, dT: real, v: Vec3)
    requires Length(libm, we) != 0.0
    ensures MulV(Phi10(libm, we, dT), v)
         == Drift(v, Cross(we, v), Cross(we, Cross(we, v)), K0(libm, we, dT), dT, K2(libm, we, dT))
  {
    hide MulV, Mul, Cross, CrossMatrix, AddM, SubM, ScaleM, Diagonal, Add, Sub, Scale, K0, K2, Length;
    var wx := CrossMatrix(we, 0.0);
    var a, b := ScaleM(wx, K0(libm, we, dT)), ScaleM(Mul(wx, wx), K2(libm, we, dT));
    MulVAdd(SubM(a, Diagonal(dT)), b, v);
    MulVAdd(a, Diagonal(dT), v);
    DiagonalApplied(dT, v);
    ScaledRows(wx, v, K0(libm, we, dT));
    ScaledRows(Mul(wx, wx), v, K2(libm, we, dT));
    CrossAsMatrix(we, v);
    CrossSquareApplied(we, v);
  }

  /** The factor of the last term takes the sine out of Phi10 and leaves that of Phi00. */
  lemma FactorsMatch(libm: Libm, we: Vec3, dT: real)
    requires libm.Sound() && Length(libm, we) != 0.0
    ensures Dot(we, we) * K2(libm, we, dT) == dT - K1(libm, we, dT)
  {
    hide Length, Dot, IsSqrt, K1Of, K2Of;
    LengthOf(libm, we);
    FactorsMatchByLength(libm, Length(libm, we), Dot(we, we), dT);
  }

  lemma FactorsMatchByLength(libm: Libm, l: real, d: real, dT: real)
    requires l != 0.0 && Prod(l, l) == d
    ensures d * K2Of(libm, l, dT) == dT - K1Of(libm, l, dT)
  {
    hide Sin, K1Of, K2Of;
    LastFactors(libm, l, dT);
    Factor(l, 1.0 / l, d, dT, Sin(libm, l * dT));
  }

  lemma LastFactors(libm: Libm, l: real, dT: real)
    requires l != 0.0
    ensures K1Of(libm, l, dT) == Sin(libm, l * dT) * (1.0 / l)
    ensures K2Of(libm, l, dT) == ((1.0 / l) * (1.0 / l) * (1.0 / l)) * (l * dT - Sin(libm, l * dT))
  {
  }

  lemma Factor(l: real, i: real, d: real, dT: real, sin: real)
    requires l * i == 1.0 && l * l == d
    ensures d * ((i * i * i) * (l * dT - sin)) == dT - sin * i
  {
    calc {
      d * ((i * i * i) * (l * dT - sin));
      (l * i) * (l * i) * (i * (l * dT - sin));
      i * (l * dT - sin);
      (l * i) * dT - sin * i;
    }
  }

  /** Three turns about the rate are one turn back. */
  lemma ThreeTurns(we: Vec3, x: Vec3)
    requires Dot(we, x) == 0.0
    ensures Cross(we, Cross(we, x)) == Scale(x, -Dot(we, we))
  {
    hide Cross, Dot;
    TripleProduct(we, we, x);
  }

  lemma CrossIsLinear(we: Vec3, v: Vec3, x: Vec3, y: Vec3, k0: real, dT: real, k2: real)
    ensures Cross(we, Drift(v, x, y, k0, dT, k2)) == Drift(Cross(we, v), Cross(we, x), Cross(we, y), k0, dT, k2)
  {
    hide Cross, Add, Sub, Scale, MulV, CrossMatrix;
    var wx := CrossMatrix(we, 0.0);
    MulVLinear(wx, Sub(Scale(x, k0), Scale(v, dT)), Scale(y, k2), 0.0);
    MulVLinear(wx, Scale(x, k0), Scale(v, dT), 0.0);
    MulVLinear(wx, x, x, k0);
    MulVLinear(wx, v, v, dT);
    MulVLinear(wx, y, y, k2);
    CrossAsMatrix(we, Drift(v, x, y, k0, dT, k2));
    CrossAsMatrix(we, v);
    CrossAsMatrix(we, x);
    CrossAsMatrix(we, y);
  }

  lemma TurnedDrift(v: Vec3, x: Vec3, y: Vec3, z: Vec3, k0: real, k1: real, dT: real, k2: real, d: real)
    requires z == Scale(x, -d) && d * k2 == dT - k1
    ensures Drift(x, y, z, k0, dT, k2) == Sub(Turn(v, x, y, k1, k0), v)
  {
    hide Scale, Prod;
    ScaledBy(x, -d);
    ScaledBy(x, k1);
    ScaledBy(x, dT);
    ScaledBy(y, k0);
    ScaledBy(z, k2);
    TurnedEntry(v.x, x.x, y.x, z.x, k0, k1, dT, k2, d);
    TurnedEntry(v.y, x.y, y.y, z.y, k0, k1, dT, k2, d);
    TurnedEntry(v.z, x.z, y.z, z.z, k0, k1, dT, k2, d);
  }

  lemma TurnedEntry(v: real, x: real, y: real, z: real, k0: real, k1: real, dT: real, k2: real, d: real)
    requires z == Prod(x, -d) && d * k2 == dT - k1
    ensures Prod(y, k0) - Prod(x, dT) - Prod(z, k2) == v - Prod(x, k1) + Prod(y, k0) - v
  {
    assert z * k2 == -(x * (d * k2));
  }

  lemma Phi10TurnedApplied(libm: Libm, we: Vec3, dT: real, v: Vec3)
    requires libm.Sound() && Length(libm, we) != 0.0
    ensures MulV(Mul(CrossMatrix(we, 0.0), Phi10(libm, we, dT)), v)
         == MulV(SubM(Phi00(libm, we, dT), Diagonal(1.0)), v)
  {
    hide MulV, Mul, Cross, CrossMatrix, AddM, SubM, ScaleM, Diagonal, Add, Sub, Scale, K0, K1, K2, Length, Dot, Phi00, Phi10, Turn, Drift;
    var k0, k1, k2 := K0(libm, we, dT), K1(libm, we, dT), K2(libm, we, dT);
    var x := Cross(we, v);
    var y := Cross(we, x);
    MulVAssoc(CrossMatrix(we, 0.0), Phi10(libm, we, dT), v);
    Phi10Applied(libm, we, dT, v);
    CrossAsMatrix(we, MulV(Phi10(libm, we, dT), v));
    CrossIsLinear(we, v, x, y, k0, dT, k2);
    CrossIsPerpendicular(we, v);
    ThreeTurns(we, x);
    FactorsMatch(libm, we, dT);
    TurnedDrift(v, x, y, Cross(we, y), k0, k1, dT, k2, Dot(we, we));
    MulVAdd(Phi00(libm, we, dT), Diagonal(1.0), v);
    Phi00Applied(libm, we, dT, v);
    DiagonalApplied(1.0, v);
    ScaleOne(v);
  }

  lemma Phi10Along(libm: Libm, we: Vec3, dT: real, v: Vec3)
    requires Length(libm, we) != 0.0
    ensures Dot(we, MulV(Phi10(libm, we, dT), v)) == -(dT * Dot(we, v))
  {
    hide MulV, Cross, Add, Sub, Scale, K0, K1, K2, Length, Dot, Phi10;
    var k0, k2 := K0(libm, we, dT), K2(libm, we, dT);
    var x := Cross(we, v);
    var y := Cross(we, x);
    Phi10Applied(libm, we, dT, v);
    DotLinear(we, Sub(Scale(x, k0), Scale(v, dT)), Scale(y, k2), 0.0);
    DotLinear(we, Scale(x, k0), Scale(v, dT), 0.0);
    DotLinear(we, x, x, k0);
    DotLinear(we, v, v, dT);
    DotLinear(we, y, y, k2);
    CrossIsPerpendicular(we, v);
    CrossIsPerpendicular(we, x);
  }

  /** A vector that the rate neither turns nor meets is zero. */
  lemma NeitherTurnedNorMet(we: Vec3, d: Vec3)
    requires we != ZERO3 && Cross(we, d) == ZERO3 && Dot(we, d) == 0.0
    ensures d == ZERO3
  {
    hide Cross, Dot;
    TripleProduct(we, we, d);
    CrossZero(we);
    DotPositive(we);
    ScaledToZero(d, Dot(we, we), Scale(we, 0.0));
  }

  lemma CrossZero(we: Vec3)
    ensures Cross(we, ZERO3) == ZERO3 && Scale(we, 0.0) == ZERO3
  {
  }

  lemma ScaledToZero(d: Vec3, t: real, z: Vec3)
    requires t != 0.0 && z == ZERO3 && Sub(z, Scale(d, t)) == ZERO3
    ensures d == ZERO3
  {
    ProductZero(d.x, t);
    ProductZero(d.y, t);
    ProductZero(d.z, t);
  }

  lemma SameApplied(m: Mat33, n: Mat33, phi00: Mat33, we: Vec3, dT: real, v: Vec3)
    requires we != ZERO3 && IntegratesRotation(m, phi00, we, dT) && IntegratesRotation(n, phi00, we, dT)
    ensures MulV(m, v) == MulV(n, v)
  {
    hide MulV, Mul, Cross, CrossMatrix, Dot, Sub;
    var wx, a, b := CrossMatrix(we, 0.0), MulV(m, v), MulV(n, v);
    MulVAssoc(wx, m, v);
    MulVAssoc(wx, n, v);
    CrossAsMatrix(we, Sub(a, b));
    MulVLinear(wx, a, b, 0.0);
    DotLinear(we, a, b, 0.0);
    SubSelf(MulV(wx, a));
    NeitherTurnedNorMet(we, Sub(a, b));
    DifferenceZero(a, b);
  }

  lemma SubSelf(v: Vec3)
    ensures Sub(v, v) == ZERO3
  {
  }

  lemma DifferenceZero(a: Vec3, b: Vec3)
    requires Sub(a, b) == ZERO3
    ensures a == b
  {
  }

  lemma SameMatrix(a: Mat33, b: Mat33)
    requires forall v :: MulV(a, v) == MulV(b, v)
    ensures a == b
  {
    ColumnsOf(a);
    ColumnsOf(b);
    hide MulV;
    assert MulV(a, X_AXIS) == MulV(b, X_AXIS);
    assert MulV(a, Y_AXIS) == MulV(b, Y_AXIS);
    assert MulV(a, Z_AXIS) == MulV(b, Z_AXIS);
  }

  /** Phi10 is the one matrix with the two properties of minus the integral of Phi00. */
  lemma Phi10Exactly(libm: Libm, we: Vec3, dT: real, m: Mat33)
    requires libm.Sound() && we != ZERO3
    ensures Length(libm, we) != 0.0
    ensures m == Phi10(libm, we, dT) <==> IntegratesRotation(m, Phi00(libm, we, dT), we, dT)
  {
    hide Length, MulV, Mul, Phi00, Phi10, Dot, SubM, Diagonal, CrossMatrix;
    LengthOf(libm, we);
    var n, phi00 := Phi10(libm, we, dT), Phi00(libm, we, dT);
    forall v ensures MulV(Mul(CrossMatrix(we, 0.0), n), v) == MulV(SubM(phi00, Diagonal(1.0)), v) {
      Phi10TurnedApplied(libm, we, dT, v);
    }
    SameMatrix(Mul(CrossMatrix(we, 0.0), n), SubM(phi00, Diagonal(1.0)));
    forall v ensures Dot(we, MulV(n, v)) == -(dT * Dot(we, v)) {
      Phi10Along(libm, we, dT, v);
    }
    if IntegratesRotation(m, phi00, we, dT) {
      forall v ensures MulV(m, v) == MulV(n, v) {
        SameApplied(m, n, phi00, we, dT, v);
      }
      SameMatrix(m, n);
    }
  }
}
