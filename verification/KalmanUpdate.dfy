/** The measurement update of the fusion's covariance (CompositeSensors.cpp, update and checkState). */
module KalmanUpdate {
  import opened Reals
  import opened Space
  import opened Blocks
  import opened Covariance
  import opened Inversion33
  import opened Forms33

  /** S, with R = sigma^2 on its diagonal. */
  function Innovation(b: Vec3, p: Block, sigma: real): Mat33 {
    AddM(ScaledCovariance(CrossMatrix(b, 0.0), p.m00), Diagonal(sigma * sigma))
  }

  function Gain0(p: Block, l: Mat33, si: Mat33): Mat33 { Mul(p.m00, Mul(Transpose(l), si)) }

  function Gain1(p: Block, l: Mat33, si: Mat33): Mat33 { Mul(Transpose(p.m10), Mul(Transpose(l), si)) }

  function Updated(p: Block, l: Mat33, si: Mat33): Block {
    var k0l, k1l := Mul(Gain0(p, l, si), l), Mul(Gain1(p, l, si), l);
    var m10 := SubM(p.m10, Mul(k0l, p.m10));
    Block(SubM(p.m00, Mul(k0l, p.m00)), Transpose(m10), m10, SubM(p.m11, Mul(k1l, p.m10)))
  }

  // ----- symmetry

  lemma InnovationSymmetric(b: Vec3, p: Block, sigma: real)
    ensures Symmetric(Innovation(b, p, sigma))
  {
  }

  lemma InverseOfSymmetric(s: Mat33, si: Mat33)
    requires Symmetric(s) && IsInverse(s, si)
    ensures Symmetric(si)
  {
    var t := Transpose(si);
    TransposeMul(s, si);
    assert Mul(t, s) == Transpose(Diagonal(1.0)) == Diagonal(1.0);
    MulAssoc(t, s, si);
    MulIdentity(t);
    MulIdentity(si);
  }

  /** a * si * transpose(a) is symmetric with si. */
  lemma SandwichOf(a: Mat33, l: Mat33, si: Mat33, b: Mat33)
    ensures Mul(Mul(Mul(a, Mul(Transpose(l), si)), l), b) == Mul(Mul(a, Transpose(l)), Mul(si, Mul(l, b)))
  {
    MulAssoc(Mul(a, Mul(Transpose(l), si)), l, b);
    MulAssoc(a, Transpose(l), si);
    MulAssoc(Mul(a, Transpose(l)), si, Mul(l, b));
  }

  lemma CorrectionSymmetric(a: Mat33, l: Mat33, si: Mat33)
    requires Symmetric(si)
    ensures Symmetric(Mul(Mul(Mul(Transpose(a), Mul(Transpose(l), si)), l), a))
  {
    SandwichOf(Transpose(a), l, si, a);
    TransposeMul(l, a);
    var h := Mul(l, a);
    MulAssoc(Transpose(h), si, h);
    TransposeMul(Mul(Transpose(h), si), h);
    TransposeMul(Transpose(h), si);
    TransposeAdd(h, h);
    MulAssoc(Transpose(h), si, h);
  }

  lemma DifferenceSymmetric(a: Mat33, b: Mat33)
    requires Symmetric(a) && Symmetric(b)
    ensures Symmetric(SubM(a, b))
  {
    TransposeAdd(a, b);
  }

  lemma UpdatedSymmetric(p: Block, l: Mat33, si: Mat33)
    requires SymmetricB(p) && Symmetric(si)
    ensures SymmetricB(Updated(p, l, si))
  {
    CorrectionSymmetric(p.m00, l, si);
    CorrectionSymmetric(p.m10, l, si);
    DifferenceSymmetric(p.m00, Mul(Mul(Gain0(p, l, si), l), p.m00));
    DifferenceSymmetric(p.m11, Mul(Mul(Gain1(p, l, si), l), p.m10));
    TransposeAdd(Updated(p, l, si).m10, p.m00);
  }

  // ----- positivity

  /** What the measurement sees of x: L times the first block row of P x. */
  function Seen(p: Block, l: Mat33, x: Vec6): Vec3 { MulV(l, Apply(p, x).v0) }

  lemma CrossCorrection(p: Block, l: Mat33, si: Mat33)
    requires SymmetricB(p) && Symmetric(si)
    ensures Transpose(Mul(Mul(Gain0(p, l, si), l), p.m10)) == Mul(Mul(Gain1(p, l, si), l), p.m00)
  {
    var a, b := Mul(l, p.m00), Mul(l, p.m10);
    SandwichOf(p.m00, l, si, p.m10);
    SandwichOf(Transpose(p.m10), l, si, p.m00);
    TransposeMul(l, p.m00);
    TransposeMul(l, p.m10);
    TransposeMul(Transpose(a), Mul(si, b));
    TransposeMul(si, b);
    TransposeAdd(a, b);
    MulAssoc(Transpose(b), si, a);
  }

  lemma CorrectedRow(a: Mat33, b: Mat33, k: Mat33, p: Mat33, q: Mat33, u: Vec3, v: Vec3)
    ensures Add(MulV(SubM(a, Mul(k, p)), u), MulV(SubM(b, Mul(k, q)), v))
         == Sub(Add(MulV(a, u), MulV(b, v)), MulV(k, Add(MulV(p, u), MulV(q, v))))
  {
    MulVAdd(a, Mul(k, p), u);
    MulVAdd(b, Mul(k, q), v);
    MulVAssoc(k, p, u);
    MulVAssoc(k, q, v);
    MulVLinear(k, MulV(p, u), MulV(q, v), 0.0);
  }

  lemma UpdatedApply(p: Block, l: Mat33, si: Mat33, x: Vec6)
    requires SymmetricB(p) && Symmetric(si)
    ensures var g, px, ux := Apply(p, x).v0, Apply(p, x), Apply(Updated(p, l, si), x);
      && ux.v0 == Sub(px.v0, MulV(Mul(Gain0(p, l, si), l), g))
      && ux.v1 == Sub(px.v1, MulV(Mul(Gain1(p, l, si), l), g))
  {
    var k0l, k1l := Mul(Gain0(p, l, si), l), Mul(Gain1(p, l, si), l);
    CorrectedRow(p.m00, p.m10, k0l, p.m00, p.m10, x.v0, x.v1);
    CrossCorrection(p, l, si);
    TransposeAdd(p.m10, Mul(k0l, p.m10));
    CorrectedRow(p.m01, p.m11, k1l, p.m00, p.m10, x.v0, x.v1);
  }

  lemma GainApplied(a: Mat33, l: Mat33, si: Mat33, g: Vec3)
    ensures MulV(Mul(Mul(a, Mul(Transpose(l), si)), l), g) == MulV(a, MulV(Transpose(l), MulV(si, MulV(l, g))))
  {
    MulVAssoc(Mul(a, Mul(Transpose(l), si)), l, g);
    MulVAssoc(a, Mul(Transpose(l), si), MulV(l, g));
    MulVAssoc(Transpose(l), si, MulV(l, g));
  }

  /** The update lowers the variance in direction x by the form of the inverse of S on what was seen. */
  lemma UpdatedForm(p: Block, l: Mat33, si: Mat33, x: Vec6)
    requires SymmetricB(p) && Symmetric(si)
    ensures Form(Updated(p, l, si), x) == Form(p, x) - Dot(Seen(p, l, x), MulV(si, Seen(p, l, x)))
  {
    var g, px := Apply(p, x).v0, Apply(p, x);
    var y := MulV(si, MulV(l, g));
    var z := MulV(Transpose(l), y);
    UpdatedApply(p, l, si, x);
    GainApplied(p.m00, l, si, g);
    GainApplied(Transpose(p.m10), l, si, g);
    DotLinear(x.v0, px.v0, MulV(p.m00, z), 0.0);
    DotLinear(x.v1, px.v1, MulV(Transpose(p.m10), z), 0.0);
    Adjoint(p.m00, x.v0, z);
    Adjoint(Transpose(p.m10), x.v1, z);
    TransposeAdd(p.m10, p.m10);
    DotDistributes(MulV(p.m00, x.v0), MulV(p.m10, x.v1), z);
    Adjoint(Transpose(l), g, y);
    TransposeAdd(l, l);
  }

  lemma SandwichForm(l: Mat33, p: Mat33, y: Vec3)
    ensures Form33(Sandwich(l, p), y) == Dot(MulV(Transpose(l), y), MulV(p, MulV(Transpose(l), y)))
  {
    var z := MulV(Transpose(l), y);
    MulVAssoc(Mul(l, p), Transpose(l), y);
    MulVAssoc(l, p, z);
    Adjoint(l, y, MulV(p, z));
  }

  /** s is the covariance of a measurement of l * x with noise n: what the update takes S to be, n being R. */
  ghost predicate MeasurementCovariance(s: Mat33, l: Mat33, p00: Mat33, n: Mat33) { s == AddM(Sandwich(l, p00), n) }

  lemma MeasurementForm(s: Mat33, l: Mat33, p00: Mat33, n: Mat33, y: Vec3)
    requires MeasurementCovariance(s, l, p00, n)
    ensures Form33(s, y) == Dot(MulV(Transpose(l), y), MulV(p00, MulV(Transpose(l), y))) + Form33(n, y)
  {
    hide Form33, Sandwich, MulV, Dot, Transpose;
    FormAdds(Sandwich(l, p00), n, y);
    SandwichForm(l, p00, y);
  }

  function Sub6(x: Vec6, y: Vec6): Vec6 { Vec6(Sub(x.v0, y.v0), Sub(x.v1, y.v1)) }

  lemma ApplySub(p: Block, x: Vec6, y: Vec6)
    ensures Apply(p, Sub6(x, y)) == Sub6(Apply(p, x), Apply(p, y))
  {
    MulVLinear(p.m00, x.v0, y.v0, 0.0);
    MulVLinear(p.m10, x.v1, y.v1, 0.0);
    MulVLinear(p.m01, x.v0, y.v0, 0.0);
    MulVLinear(p.m11, x.v1, y.v1, 0.0);
  }

  lemma Dot6Linear(x: Vec6, y: Vec6, z: Vec6)
    ensures Dot6(x, Sub6(y, z)) == Dot6(x, y) - Dot6(x, z)
    ensures Dot6(Sub6(y, z), x) == Dot6(y, x) - Dot6(z, x)
    ensures Dot6(x, y) == Dot6(y, x)
  {
  }

  lemma FormOfDifference(p: Block, x: Vec6, w: Vec6)
    requires SymmetricB(p)
    ensures Form(p, Sub6(x, w)) == Form(p, x) - 2.0 * Dot6(w, Apply(p, x)) + Form(p, w)
  {
    var px, pw := Apply(p, x), Apply(p, w);
    ApplySub(p, x, w);
    Dot6Linear(Sub6(x, w), px, pw);
    Dot6Linear(px, x, w);
    Dot6Linear(pw, x, w);
    AdjointB(p, x, w);
    Dot6Linear(px, w, w);
  }

  lemma SeenThroughTranspose(p: Block, l: Mat33, x: Vec6, y: Vec3)
    ensures Dot6(Vec6(MulV(Transpose(l), y), ZERO3), Apply(p, x)) == Dot(Seen(p, l, x), y)
  {
    var g := Apply(p, x).v0;
    TransposeAdd(l, l);
    Adjoint(Transpose(l), g, y);
    DotLinear(g, MulV(Transpose(l), y), y, 0.0);
  }

  lemma InverseApplied(s: Mat33, si: Mat33, h: Vec3)
    requires Mul(s, si) == Diagonal(1.0)
    ensures MulV(s, MulV(si, h)) == h
  {
    MulVAssoc(s, si, h);
    DiagonalApplied(1.0, h);
    assert Scale(h, 1.0) == h;
  }

  function Estimate(p: Block, l: Mat33, si: Mat33, x: Vec6): Vec6 {
    Vec6(MulV(Transpose(l), MulV(si, Seen(p, l, x))), ZERO3)
  }

  /** The updated covariance is worth at least as much in direction x as the old one in the direction
      that the measurement leaves unexplained. */
  lemma UpdatedFormBound(p: Block, l: Mat33, s: Mat33, n: Mat33, si: Mat33, x: Vec6)
    requires SymmetricB(p) && MeasurementCovariance(s, l, p.m00, n) && Positive33(n)
    requires Symmetric(si) && Mul(s, si) == Diagonal(1.0)
    ensures Form(Updated(p, l, si), x) >= Form(p, Sub6(x, Estimate(p, l, si, x)))
  {
    hide Form33, Sandwich, MulV, Dot, Transpose, Updated, SymmetricB, Symmetric, MeasurementCovariance, Positive33, Sub6;
    var h := Seen(p, l, x);
    var y := MulV(si, h);
    UpdatedForm(p, l, si, x);
    FormOfDifference(p, x, Estimate(p, l, si, x));
    HalfForms(p, MulV(Transpose(l), y));
    SeenThroughTranspose(p, l, x, y);
    MeasurementForm(s, l, p.m00, n, y);
    FormAt(n, y);
    InverseApplied(s, si, h);
    FormIs(s, y);
    DotLinear(h, y, y, 0.0);
    Combine(Form(Updated(p, l, si), x), Form(p, x), Form(p, Sub6(x, Estimate(p, l, si, x))), Dot(h, y),
            Form(p, Estimate(p, l, si, x)));
  }

  lemma FormIs(m: Mat33, y: Vec3)
    ensures Form33(m, y) == Dot(y, MulV(m, y))
  {
  }

  lemma Combine(updated: real, before: real, difference: real, seen: real, form: real)
    requires updated == before - seen && difference == before - 2.0 * seen + form && seen >= form
    ensures updated >= difference
  {
  }

  lemma PositiveAt(p: Block, x: Vec6)
    requires PositiveSemidefinite(p)
    ensures Form(p, x) >= 0.0
  {
  }

  /** With a noise that is no worse than none the update keeps P positive semidefinite. */
  lemma UpdatedPositive(p: Block, l: Mat33, s: Mat33, n: Mat33, si: Mat33)
    requires SymmetricB(p) && PositiveSemidefinite(p) && Positive33(n)
    requires MeasurementCovariance(s, l, p.m00, n) && Symmetric(si) && Mul(s, si) == Diagonal(1.0)
    ensures PositiveSemidefinite(Updated(p, l, si))
  {
    hide Positive33, Mul, Symmetric, SymmetricB;
    forall x ensures Form(Updated(p, l, si), x) >= 0.0 {
      UpdatedFormBound(p, l, s, n, si, x);
      PositiveAt(p, Sub6(x, Estimate(p, l, si, x)));
    }
  }

  // ----- exactly when

  lemma SandwichPositive(p: Block, l: Mat33)
    requires SymmetricB(p) && PositiveSemidefinite(p)
    ensures Symmetric(Sandwich(l, p.m00)) && Positive33(Sandwich(l, p.m00))
  {
    hide Form33, Sandwich, MulV, Dot, PositiveSemidefinite;
    SandwichSymmetric(l, p.m00);
    forall y ensures Form33(Sandwich(l, p.m00), y) >= 0.0 {
      var z := MulV(Transpose(l), y);
      SandwichForm(l, p.m00, y);
      HalfForms(p, z);
      PositiveAt(p, Vec6(z, ZERO3));
    }
  }

  /** The direction that only the measurement's y sees. */
  function Behind(l: Mat33, y: Vec3): Vec6 { Vec6(MulV(Transpose(l), y), ZERO3) }

  lemma BehindSeen(p: Block, l: Mat33, y: Vec3)
    ensures Seen(p, l, Behind(l, y)) == MulV(Sandwich(l, p.m00), y)
    ensures Form(p, Behind(l, y)) == Form33(Sandwich(l, p.m00), y)
  {
    hide Dot;
    var z := MulV(Transpose(l), y);
    HalfForms(p, z);
    SandwichForm(l, p.m00, y);
    hide MulV;
    assert Apply(p, Behind(l, y)).v0 == MulV(p.m00, z) by { FirstColumnApplied(p, z); }
    MulVAssoc(Mul(l, p.m00), Transpose(l), y);
    MulVAssoc(l, p.m00, z);
  }

  lemma FirstColumnApplied(p: Block, z: Vec3)
    ensures Apply(p, Vec6(z, ZERO3)).v0 == MulV(p.m00, z)
  {
    hide MulV, Dot;
    TimesZero(p.m10, MulV(p.m00, z));
  }

  /** What the update leaves of the noise: N - N inverse(S) N, as a form. */
  function Leftover(n: Mat33, si: Mat33, y: Vec3): real { Form33(n, y) - Form33(si, MulV(n, y)) }

  /** The same from the side of the signal, s being their sum. */
  lemma LeftoverIs(m: Mat33, n: Mat33, s: Mat33, si: Mat33, y: Vec3)
    requires s == AddM(m, n) && Symmetric(s) && Symmetric(si) && Mul(si, s) == Diagonal(1.0)
    ensures Form33(m, y) - Form33(si, MulV(m, y)) == Leftover(n, si, y)
  {
    hide Dot, MulV, Mul, Symmetric, AddM, Sub;
    var h, g, w := MulV(m, y), MulV(n, y), MulV(s, y);
    MulVAdd(m, n, y);
    InverseApplied(si, s, y);
    SumParts(h, g);
    assert h == Sub(w, g);
    MulVLinear(si, w, g, 0.0);
    var z := MulV(si, g);
    assert MulV(si, h) == Sub(y, z);
    DotLinear(h, y, z, 0.0);
    SymmetricAdjoint(si, h, g);
    assert Dot(h, z) == Dot(g, Sub(y, z));
    DotLinear(g, y, z, 0.0);
    DotLinear(y, h, g, 0.0);
    DotLinear(h, y, y, 0.0);
    DotLinear(g, y, y, 0.0);
  }

  lemma SumParts(h: Vec3, g: Vec3)
    ensures Sub(Add(h, g), g) == h
  {
  }

  lemma UpdatedBehind(p: Block, l: Mat33, s: Mat33, n: Mat33, si: Mat33, y: Vec3)
    requires SymmetricB(p) && MeasurementCovariance(s, l, p.m00, n) && Symmetric(s) && Symmetric(si) && Mul(si, s) == Diagonal(1.0)
    ensures Form(Updated(p, l, si), Behind(l, y)) == Leftover(n, si, y)
  {
    hide Form33, Dot, MulV, Mul, Symmetric, SymmetricB, Updated, Sandwich, Behind, Seen, Leftover;
    var m := Sandwich(l, p.m00);
    UpdatedForm(p, l, si, Behind(l, y));
    BehindSeen(p, l, y);
    FormIs(si, MulV(m, y));
    LeftoverIs(m, n, s, si, y);
  }

  /** What P sees of any direction is perpendicular to what the measurement cannot tell apart. */
  lemma SeenAvoids(p: Block, l: Mat33, x: Vec6)
    requires SymmetricB(p) && PositiveSemidefinite(p)
    ensures Avoids(Sandwich(l, p.m00), Seen(p, l, x))
  {
    hide Form33, Dot, MulV, Symmetric, SymmetricB, PositiveSemidefinite, Sandwich, Behind, Seen, Sub6, InKernel33;
    var m, h := Sandwich(l, p.m00), Seen(p, l, x);
    forall k | InKernel33(m, k) ensures Dot(h, k) == 0.0 {
      var c := Dot(h, k);
      if c != 0.0 {
        var t := (Form(p, x) + 1.0) / (2.0 * c);
        KernelScales(m, k, t);
        KernelForm(m, Scale(k, t));
        BehindSeen(p, l, Scale(k, t));
        FormOfDifference(p, x, Behind(l, Scale(k, t)));
        SeenThroughTranspose'(p, l, x, Scale(k, t));
        DotLinear(h, k, k, t);
        PositiveAt(p, Sub6(x, Behind(l, Scale(k, t))));
        assert false;
      }
    }
  }

  lemma SeenThroughTranspose'(p: Block, l: Mat33, x: Vec6, y: Vec3)
    ensures Dot6(Behind(l, y), Apply(p, x)) == Dot(Seen(p, l, x), y)
  {
    hide Dot, MulV, Seen, Dot6;
    SeenThroughTranspose(p, l, x, y);
  }

  lemma KernelScales(m: Mat33, k: Vec3, t: real)
    requires InKernel33(m, k)
    ensures InKernel33(m, Scale(k, t))
  {
    hide MulV;
    MulVLinear(m, k, k, t);
  }

  /** The update keeps P positive semidefinite in every direction if it does in those behind the measurement. */
  lemma LeftoverSuffices(p: Block, l: Mat33, s: Mat33, n: Mat33, si: Mat33, x: Vec6)
    requires SymmetricB(p) && PositiveSemidefinite(p) && MeasurementCovariance(s, l, p.m00, n)
    requires Symmetric(s) && Symmetric(si) && Mul(si, s) == Diagonal(1.0)
    requires forall y :: Leftover(n, si, y) >= 0.0
    ensures Form(Updated(p, l, si), x) >= 0.0
  {
    hide Form33, Dot, MulV, Mul, Symmetric, SymmetricB, PositiveSemidefinite, Updated, Sandwich, Behind, Seen, Leftover, Sub6;
    var m, h := Sandwich(l, p.m00), Seen(p, l, x);
    SeenAvoids(p, l, x);
    SandwichPositive(p, l);
    SolvableAcrossKernel(m, h);
    var y :| MulV(m, y) == h;
    LeftoverIs(m, n, s, si, y);
    UpdatedForm(p, l, si, x);
    FormIs(si, h);
    FormIs(m, y);
    FormOfDifference(p, x, Behind(l, y));
    BehindSeen(p, l, y);
    SeenThroughTranspose'(p, l, x, y);
    DotLinear(h, y, y, 0.0);
    PositiveAt(p, Sub6(x, Behind(l, y)));
    assert Leftover(n, si, y) >= 0.0;
  }

  /** From a proper covariance and with S invertible, the update leaves a positive semidefinite one if and only if
      what it leaves of the noise is positive semidefinite; and if S is, if and only if the noise is. */
  lemma UpdatedPositiveExactly(p: Block, l: Mat33, s: Mat33, n: Mat33, si: Mat33)
    requires SymmetricB(p) && PositiveSemidefinite(p) && MeasurementCovariance(s, l, p.m00, n)
    requires Symmetric(s) && IsInverse(s, si)
    ensures PositiveSemidefinite(Updated(p, l, si)) <==> forall y :: Leftover(n, si, y) >= 0.0
    ensures Positive33(s) ==> (PositiveSemidefinite(Updated(p, l, si)) <==> Positive33(n))
  {
    hide Form33, Dot, MulV, Mul, Symmetric, SymmetricB, Updated, Sandwich, Behind, Seen, Leftover, MeasurementCovariance;
    InverseOfSymmetric(s, si);
    if PositiveSemidefinite(Updated(p, l, si)) {
      forall y ensures Leftover(n, si, y) >= 0.0 {
        UpdatedBehind(p, l, s, n, si, y);
        PositiveAt(Updated(p, l, si), Behind(l, y));
      }
      if Positive33(s) {
        forall y ensures Form33(n, y) >= 0.0 {
          InverseFormPositive(s, si, MulV(n, y));
          LeftoverBelow(n, si, y);
        }
      }
    }
    if forall y :: Leftover(n, si, y) >= 0.0 {
      forall x ensures Form(Updated(p, l, si), x) >= 0.0 {
        LeftoverSuffices(p, l, s, n, si, x);
      }
    }
    if Positive33(n) {
      UpdatedPositive(p, l, s, n, si);
    }
  }

  lemma LeftoverBelow(n: Mat33, si: Mat33, y: Vec3)
    requires Form33(si, MulV(n, y)) >= 0.0
    ensures Leftover(n, si, y) <= Form33(n, y)
  {
  }

  lemma InverseFormPositive(s: Mat33, si: Mat33, h: Vec3)
    requires Symmetric(si) && Positive33(s) && Mul(s, si) == Diagonal(1.0)
    ensures Form33(si, h) >= 0.0
  {
    hide Dot, MulV, Mul, Symmetric, Positive33;
    var z := MulV(si, h);
    InverseApplied(s, si, h);
    FormAt(s, z);
    DotLinear(z, h, h, 0.0);
  }

  /** A direction that the measurement does not see and in which it has no noise either. */
  ghost predicate Blind(m: Mat33, n: Mat33, y: Vec3) { y != ZERO3 && InKernel33(m, y) && InKernel33(n, y) }

  lemma BlindIsKernel(m: Mat33, n: Mat33, y: Vec3)
    requires Blind(m, n, y)
    ensures Singular33(AddM(m, n))
  {
    hide MulV, AddM, Add, Singular33;
    MulVAdd(m, n, y);
    ZeroSum();
    SingularBy(AddM(m, n), y);
  }

  lemma ZeroSum()
    ensures Add(ZERO3, ZERO3) == ZERO3
  {
  }

  lemma SingularBy(s: Mat33, y: Vec3)
    requires y != ZERO3 && MulV(s, y) == ZERO3
    ensures Singular33(s)
  {
    hide MulV;
    assert InKernel33(s, y);
  }

  lemma KernelIsBlind(m: Mat33, n: Mat33, y: Vec3)
    requires Symmetric(m) && Positive33(m) && Symmetric(n) && Positive33(n) && y != ZERO3 && InKernel33(AddM(m, n), y)
    ensures Blind(m, n, y)
  {
    hide Form33, Dot, MulV, AddM, Symmetric, Positive33, InKernel33;
    KernelForm(AddM(m, n), y);
    FormAdds(m, n, y);
    FormAt(m, y);
    FormAt(n, y);
    ZeroFormIsKernel(m, y);
    ZeroFormIsKernel(n, y);
  }

  /** With a noise that is no worse than none, S is singular exactly if the measurement is blind in some direction. */
  lemma MeasurementSingularExactly(p: Block, l: Mat33, s: Mat33, n: Mat33)
    requires SymmetricB(p) && PositiveSemidefinite(p) && MeasurementCovariance(s, l, p.m00, n)
    requires Symmetric(n) && Positive33(n)
    ensures Singular33(s) <==> exists y :: Blind(Sandwich(l, p.m00), n, y)
  {
    hide Symmetric, SymmetricB, Sandwich, Positive33, PositiveSemidefinite, InKernel33, Blind;
    var m := Sandwich(l, p.m00);
    SandwichPositive(p, l);
    if Singular33(s) {
      var y :| y != ZERO3 && InKernel33(s, y);
      KernelIsBlind(m, n, y);
    }
    if y :| Blind(m, n, y) {
      BlindIsKernel(m, n, y);
    }
  }

  /** With some noise in every direction, S can be inverted. */
  lemma MeasurementNonsingular(p: Block, l: Mat33, s: Mat33, n: Mat33)
    requires SymmetricB(p) && PositiveSemidefinite(p) && Definite33(n) && MeasurementCovariance(s, l, p.m00, n)
    ensures !Singular33(s)
  {
    hide Form33, Dot, MulV, SymmetricB, Sandwich, PositiveSemidefinite;
    forall x | InKernel33(s, x) ensures x == ZERO3 {
      KernelForm(s, x);
      FormAdds(Sandwich(l, p.m00), n, x);
      SandwichPositive(p, l);
      FormAt(Sandwich(l, p.m00), x);
    }
  }

  // ----- what the code's S is

  /** What the code's S has beyond L P transpose(L): the measurement noise and the error of scaleCovariance. */
  function ActualNoise(b: Vec3, p: Block, sigma: real): Mat33 {
    AddM(TwistError(b, Twist(b, p.m00)), Diagonal(sigma * sigma))
  }

  lemma InnovationSplits(b: Vec3, p: Block, sigma: real)
    requires SymmetricB(p)
    ensures MeasurementCovariance(Innovation(b, p, sigma), CrossMatrix(b, 0.0), p.m00, ActualNoise(b, p, sigma))
    ensures Symmetric(ActualNoise(b, p, sigma))
  {
    ScaledCross(b, p.m00);
    hide Sandwich, ScaledCovariance;
    AddMAssoc(Sandwich(CrossMatrix(b, 0.0), p.m00), TwistError(b, Twist(b, p.m00)), Diagonal(sigma * sigma));
  }

  lemma AddMAssoc(a: Mat33, b: Mat33, c: Mat33)
    ensures AddM(AddM(a, b), c) == AddM(a, AddM(b, c))
  {
  }

  /** The code's S is the covariance of a measurement with noise sigma if and only if the measured vector is zero or
      the off-diagonal covariances cancel along it. */
  lemma InnovationExactly(b: Vec3, p: Block, sigma: real)
    requires SymmetricB(p)
    ensures MeasurementCovariance(Innovation(b, p, sigma), CrossMatrix(b, 0.0), p.m00, Diagonal(sigma * sigma))
       <==> b == ZERO3 || Twist(b, p.m00) == 0.0
  {
    var l := CrossMatrix(b, 0.0);
    ScaledCovarianceExactly(b, p.m00);
    AddMCancels(ScaledCovariance(l, p.m00), Sandwich(l, p.m00), Diagonal(sigma * sigma));
  }

  lemma AddMCancels(a: Mat33, b: Mat33, c: Mat33)
    ensures AddM(a, c) == AddM(b, c) <==> a == b
  {
    AddThenSub(a, c);
    AddThenSub(b, c);
  }

  lemma AddThenSub(a: Mat33, c: Mat33)
    ensures SubM(AddM(a, c), c) == a
  {
  }
}
