/** Why update multiplies by L: to first order in the correction, L is how the expected measurement changes. */
module Sensitivity {
  import opened Reals
  import opened Space
  import opened Quaternion
  import opened FusionSteps
  import opened Blocks
  import opened Covariance
  import opened Inversion33
  import opened Forms33
  import opened KalmanUpdate
  import opened NoiseGuard
  import opened KalmanPredict
  import opened Fusion
  import opened Transition
  import opened Attitude

  lemma ProductScales(p: Quat, q: Quat, t: real)
    ensures Product(ScaleQ(p, t), q) == ScaleQ(Product(p, q), t)
    ensures Product(p, ScaleQ(q, t)) == ScaleQ(Product(p, q), t)
  {
    hide Product, ScaleQ, Imaginary, ImaginaryProduct, Dot, Scale;
    var u, v, r := Imaginary(p), Imaginary(q), Product(p, q);
    var a, b := ScaleQ(p, t), ScaleQ(q, t);
    ScaledParts(p, t);
    ScaledParts(q, t);
    ScaledParts(r, t);
    ProductParts(p, q);
    ProductParts(a, q);
    ProductParts(p, b);
    ImaginaryScales(u, p.w, v, q.w, t);
    ScaledDot(u, v, t);
    ScaledDot(v, u, t);
    RealScales(p.w, q.w, Dot(u, v), t);
    SameParts(Product(a, q), ScaleQ(r, t));
    SameParts(Product(p, b), ScaleQ(r, t));
  }

  lemma ScaledParts(q: Quat, t: real)
    ensures Imaginary(ScaleQ(q, t)) == Scale(Imaginary(q), t) && ScaleQ(q, t).w == q.w * t
  {
  }

  lemma RealScales(v: real, w: real, d: real, t: real)
    ensures (v * t) * w - t * d == (v * w - d) * t && v * (w * t) - t * d == (v * w - d) * t
  {
  }

  lemma ImaginaryScales(u: Vec3, s: real, v: Vec3, w: real, t: real)
    ensures ImaginaryProduct(Scale(u, t), s * t, v, w) == Scale(ImaginaryProduct(u, s, v, w), t)
    ensures ImaginaryProduct(u, s, Scale(v, t), w * t) == Scale(ImaginaryProduct(u, s, v, w), t)
  {
    hide Cross, Scale, Add;
    var a, b, c := Scale(v, s), Scale(u, w), Cross(u, v);
    CrossScale(u, t, v);
    CrossScaleRight(u, v, t);
    SwapScales(v, s, t);
    SwapScales(u, t, w);
    ScaleAdd(a, b, t);
    ScaleAdd(Add(a, b), c, t);
  }

  lemma SwapScales(v: Vec3, s: real, t: real)
    ensures Scale(Scale(v, s), t) == Scale(v, s * t) == Scale(Scale(v, t), s)
  {
    hide Scale;
    ScaleVTwice(v, s, t);
    ScaleVTwice(v, t, s);
    assert s * t == t * s;
  }

  lemma ScaleAdd(u: Vec3, v: Vec3, t: real)
    ensures Add(Scale(u, t), Scale(v, t)) == Scale(Add(u, v), t)
  {
  }

  lemma CrossScaleRight(u: Vec3, v: Vec3, t: real)
    ensures Cross(u, Scale(v, t)) == Scale(Cross(u, v), t)
  {
    hide Cross, MulV, CrossMatrix, Scale;
    MulVLinear(CrossMatrix(u, 0.0), v, v, t);
    CrossAsMatrix(u, v);
    CrossAsMatrix(u, Scale(v, t));
  }

  lemma ConjugateScales(q: Quat, t: real)
    ensures Conjugate(ScaleQ(q, t)) == ScaleQ(Conjugate(q), t)
  {
  }

  lemma ScaleQTwice(q: Quat, s: real, t: real)
    ensures ScaleQ(ScaleQ(q, s), t) == ScaleQ(q, s * t)
  {
    TimesTwice(q.x, s, t);
    TimesTwice(q.y, s, t);
    TimesTwice(q.z, s, t);
    TimesTwice(q.w, s, t);
  }

  /** A sandwich is quadratic in its outer quaternion. */
  lemma SandwichScales(q: Quat, v: Quat, t: real)
    ensures Sandwiched(ScaleQ(q, t), v) == ScaleQ(Sandwiched(q, v), t * t)
  {
    hide Product, Conjugate, ScaleQ;
    ConjugateScales(q, t);
    ProductScales(Conjugate(q), v, t);
    var h := Product(Conjugate(q), v);
    ProductScales(ScaleQ(h, t), q, t);
    ProductScales(h, q, t);
    ScaleQTwice(Product(h, q), t, t);
  }

  /** The quaternion that the step of update multiplies by. */
  function Tilt(dq: Vec3): Quat { Quat(dq.x * 0.5, dq.y * 0.5, dq.z * 0.5, 1.0) }

  lemma StepIsProduct(q: Quat, dq: Vec3)
    ensures AddQ(q, TimesF(q, Scale(dq, 0.5))) == Product(q, Tilt(dq))
  {
    hide TimesF, TimesO, Product, AddQ;
    TimesOIsSum(Scale(dq, 0.5), 1.0, q);
    ScaleByOne(q, 1.0);
    TimesOIsProduct(Scale(dq, 0.5), 1.0, q);
  }

  function QuarterNorm(dq: Vec3): real { 0.25 * Dot(dq, dq) }

  lemma HalfLength(dq: Vec3, b: Vec3)
    ensures Dot(Scale(dq, 0.5), Scale(dq, 0.5)) == QuarterNorm(dq)
    ensures Dot(Scale(dq, 0.5), b) == 0.5 * Dot(dq, b)
  {
    ScaledDot(dq, Scale(dq, 0.5), 0.5);
    ScaledDot(dq, dq, 0.5);
    ScaledDot(dq, b, 0.5);
  }

  /** Normalising scales by a factor whose square is known. */
  lemma CorrectedIsScaled(libm: Libm, q: Quat, dq: Vec3) returns (t: real)
    requires libm.Sound() && IsUnit(q)
    ensures Corrected(libm, q, dq) == ScaleQ(Product(q, Tilt(dq)), t)
    ensures (t * t) * (1.0 + QuarterNorm(dq)) == 1.0
  {
    hide TimesF, Product, AddQ, NormSquared, Dot, Scale, IsSqrt, Tilt;
    var r := AddQ(q, TimesF(q, Scale(dq, 0.5)));
    StepNeverZero(q, Scale(dq, 0.5));
    NegateKeepsLength(r);
    RootPositive(libm, NormSquared(r));
    StepIsProduct(q, dq);
    StepLength(q, Scale(dq, 0.5));
    HalfLength(dq, dq);
    var l := libm.sqrt(NormSquared(r));
    InverseSquared(l, 1.0 / l, NormSquared(r));
    t := if r.w < 0.0 then -(1.0 / l) else 1.0 / l;
    SignAway(r, 1.0 / l);
    assert t * t == (1.0 / l) * (1.0 / l);
    assert NormSquared(r) == 1.0 + QuarterNorm(dq);
  }

  lemma InverseSquared(l: real, i: real, d: real)
    requires l * i == 1.0 && l * l == d
    ensures (i * i) * d == 1.0
  {
    assert (i * i) * (l * l) == (l * i) * (l * i);
  }

  lemma SignAway(r: Quat, t: real)
    ensures ScaleQ(Negate(r), t) == ScaleQ(r, -t)
  {
  }

  /** What the tilt does to a vector: the vector, its first-order change, and two second-order terms. */
  lemma TiltedParts(dq: Vec3, b: Vec3)
    ensures Sandwiched(Tilt(dq), Pure(b)) == Pure(Moved(b, dq, Cross(b, dq)))
  {
    hide Sandwiched, Dot, Cross;
    var h := Scale(dq, 0.5);
    var c, d, n := Cross(h, b), Dot(h, b), Dot(h, h);
    SandwichParts(Tilt(dq), b);
    HalfLength(dq, b);
    CrossScale(dq, 0.5, b);
    CrossTurnsSign(b, dq);
    var m := Cross(b, dq);
    MovedEntry(h.x, dq.x, b.x, c.x, m.x, d, n);
    MovedEntry(h.y, dq.y, b.y, c.y, m.y, d, n);
    MovedEntry(h.z, dq.z, b.z, c.z, m.z, d, n);
    SameParts(Sandwiched(Tilt(dq), Pure(b)), Pure(Moved(b, dq, m)));
  }

  lemma MovedEntry(h: real, u: real, b: real, c: real, m: real, d: real, n: real)
    requires h == u * 0.5 && c == (m * -1.0) * 0.5
    ensures h * d + (b * 1.0 - c) * 1.0 + (c * -1.0 + (h * d - b * n)) == b + m + (u * d - b * n)
  {
  }

  /** b after a correction dq, m being L * dq, before it is divided by 1 + |dq|^2 / 4. */
  function Moved(b: Vec3, dq: Vec3, m: Vec3): Vec3 {
    Add(Add(b, m), Sub(Scale(dq, 0.5 * Dot(dq, b)), Scale(b, QuarterNorm(dq))))
  }

  lemma ScaledPure(v: Vec3, m: Vec3, t: real, s: real)
    requires Pure(v) == ScaleQ(Pure(m), t) && t * s == 1.0
    ensures Scale(v, s) == m
  {
    ScaledBack(v.x, m.x, t, s);
    ScaledBack(v.y, m.y, t, s);
    ScaledBack(v.z, m.z, t, s);
  }

  lemma ScaledBack(v: real, m: real, t: real, s: real)
    requires v == m * t && t * s == 1.0
    ensures v * s == m
  {
    assert v * s == m * (t * s);
  }

  /** A correction dq moves the expected measurement b by L * dq, up to terms of second order in dq. */
  lemma CorrectionMovesExpected(libm: Libm, q: Quat, dq: Vec3, reference: Vec3)
    requires libm.Sound() && IsUnit(q)
    ensures var b := Expected(q, reference);
      Scale(Expected(Corrected(libm, q, dq), reference), 1.0 + QuarterNorm(dq))
        == Moved(b, dq, MulV(CrossMatrix(b, 0.0), dq))
  {
    hide Corrected, QuatToMatrix, MulV, CrossMatrix, Sandwiched, Product, Tilt, Moved, IsUnit, NormSquared, QuarterNorm, Cross;
    var b, c := Expected(q, reference), Corrected(libm, q, dq);
    var t := CorrectedIsScaled(libm, q, dq);
    CorrectedIsUnit(libm, q, dq);
    MatrixIsSandwich(c, reference);
    MatrixIsSandwich(q, reference);
    SandwichScales(Product(q, Tilt(dq)), Pure(reference), t);
    SandwichOfProduct(q, Tilt(dq), Pure(reference));
    TiltedParts(dq, b);
    CrossAsMatrix(b, dq);
    ScaledPure(Expected(c, reference), Moved(b, dq, Cross(b, dq)), t * t, 1.0 + QuarterNorm(dq));
  }

  // ----- where a correction goes

  /** L * P * transpose(L) * z, factor by factor, is what L makes of the gain. */
  lemma GainApplied(p: Block, l: Mat33, si: Mat33, e: Vec3)
    ensures MulV(l, MulV(Gain0(p, l, si), e)) == MulV(Sandwich(l, p.m00), MulV(si, e))
  {
    hide MulV, Mul, Transpose;
    var z := MulV(si, e);
    var lt := Transpose(l);
    assert Gain0(p, l, si) == Mul(p.m00, Mul(lt, si));
    MulVAssoc(p.m00, Mul(lt, si), e);
    MulVAssoc(lt, si, e);
    assert Sandwich(l, p.m00) == Mul(Mul(l, p.m00), lt);
    MulVAssoc(Mul(l, p.m00), lt, z);
    MulVAssoc(l, p.m00, MulV(lt, z));
  }

  lemma SumLessFirst(u: Vec3, v: Vec3)
    ensures Sub(Add(u, v), u) == v
  {
  }

  /** Of a measurement error e the correction takes away, to first order, all but the noise times inverse(S) e. */
  lemma CorrectionLeaves(b: Vec3, p: Block, sigma: real, si: Mat33, e: Vec3)
    requires SymmetricB(p) && IsInverse(Innovation(b, p, sigma), si)
    ensures var l := CrossMatrix(b, 0.0);
      Sub(e, MulV(l, MulV(Gain0(p, l, si), e))) == MulV(ActualNoise(b, p, sigma), MulV(si, e))
  {
    hide MulV, Innovation, Sandwich, Gain0, ActualNoise, CrossMatrix, SymmetricB, Add, Sub;
    var l, n, s, z := CrossMatrix(b, 0.0), ActualNoise(b, p, sigma), Innovation(b, p, sigma), MulV(si, e);
    InnovationSplits(b, p, sigma);
    InverseApplied(s, si, e);
    MulVAdd(Sandwich(l, p.m00), n, z);
    GainApplied(p, l, si, e);
    SumLessFirst(MulV(Sandwich(l, p.m00), z), MulV(n, z));
  }

  /** Measured along inverse(S) e, the correction from a proper covariance goes towards the measurement; and not past it
      if sigma^2 outweighs the twist. */
  lemma CorrectionGoesTowards(b: Vec3, p: Block, sigma: real, si: Mat33, e: Vec3)
    requires SymmetricB(p) && PositiveSemidefinite(p) && IsInverse(Innovation(b, p, sigma), si)
    ensures var l := CrossMatrix(b, 0.0);
      var z, moved := MulV(si, e), MulV(l, MulV(Gain0(p, l, si), e));
      && 0.0 <= Dot(z, moved)
      && (Outweighs(sigma, TwistVector(b, p)) ==> Dot(z, moved) <= Dot(z, e))
  {
    hide MulV, Innovation, Sandwich, Gain0, ActualNoise, CrossMatrix, SymmetricB, Add, Sub, Dot, PositiveSemidefinite, Outweighs,
         TwistVector;
    var l, n, z := CrossMatrix(b, 0.0), ActualNoise(b, p, sigma), MulV(si, e);
    var moved := MulV(l, MulV(Gain0(p, l, si), e));
    GainApplied(p, l, si, e);
    SandwichPositive(p, l);
    FormAt(Sandwich(l, p.m00), z);
    CorrectionLeaves(b, p, sigma, si, e);
    DotLinear(z, e, moved, 0.0);
    if Outweighs(sigma, TwistVector(b, p)) {
      NoiseProperExactly(b, p, sigma);
      FormAt(n, z);
    }
  }

  /** The correction of a sample: the accelerometer's direction, less where the orientation expects the vertical, is the
      error, and the orientation moves by what the gain makes of it. */
  lemma SampleCorrection(libm: Libm, q: Quat, bias: Vec3, p: Block, acc: Vec3, c: Correction)
    returns (p': Block, dq: Vec3, sigma: real)
    requires libm.Sound() && IsUnit(q) && SymmetricB(p) && Length(libm, acc) != 0.0 && IsCorrection(libm, q, bias, p, acc, c)
    ensures var up := QuatToMatrix(q).c2;
      var e := Sub(Scale(acc, 1.0 / Length(libm, acc)), up);
      && IsUnit(c.q) && SymmetricB(p') && IsInverse(Innovation(up, p', sigma), c.verticalSi)
      && Scale(QuatToMatrix(c.q).c2, 1.0 + QuarterNorm(dq)) == Moved(up, dq, Cross(up, dq))
      && Sub(e, Cross(up, dq)) == MulV(ActualNoise(up, p', sigma), MulV(c.verticalSi, e))
    ensures p' == Checked(Updated(p, CrossMatrix(QuatToMatrix(q).c1, 0.0), c.horizontalSi))
    ensures sigma == MeasurementNoise(libm, Length(libm, acc))
  {
    hide MulV, Innovation, Gain0, Gain1, ActualNoise, CrossMatrix, SymmetricB, Add, Sub, Scale, Dot, Corrected, Moved, QuarterNorm, Length,
         Checked, Updated, QuatToMatrix, IsUnit, IsSqrt, MeasurementNoise, IsInverse, Cross, Symmetric;
    var m := QuatToMatrix(q);
    ColumnsOf(m);
    var north, up := m.c1, m.c2;
    assert Expected(q, Y_AXIS) == north && Expected(q, Z_AXIS) == up;
    p' := Checked(Updated(p, CrossMatrix(north, 0.0), c.horizontalSi));
    sigma := MeasurementNoise(libm, Length(libm, acc));
    var l, e := CrossMatrix(up, 0.0), Sub(Scale(acc, 1.0 / Length(libm, acc)), up);
    dq := MulV(Gain0(p', l, c.verticalSi), e);
    ZeroIsCovariance();
    StepKeepsSymmetry(p, ZERO66, Measure(north, DEFAULT_MAG_STDEV, c.horizontalSi));
    CorrectionLeaves(up, p', sigma, c.verticalSi, e);
    CrossAsMatrix(up, dq);
    CorrectionMovesExpected(libm, q, dq, Z_AXIS);
    CorrectedIsUnit(libm, q, dq);
    ColumnsOf(QuatToMatrix(c.q));
  }
}
