/** The time update of the fusion's covariance and the divergence test (CompositeSensors.cpp, mat.h). */
module KalmanPredict {
  import opened Reals
  import opened Space
  import opened Blocks
  import opened Covariance

  const SYMMETRY_TOLERANCE := 0.0000000001
  const DEFAULT_GYRO_VAR := 0.000001
  const DEFAULT_GYRO_BIAS_VAR := 0.000000000001

  // ----- the divergence test

  /** What isPositiveSemidefinite tests; the name promises more than that. */
  ghost predicate PassesTest(m: Mat33, tolerance: real) {
    && (forall i :: 0 <= i < 3 ==> Entry(m, i, i) >= 0.0)
    && (forall i, j :: 0 <= i < j < 3 ==> AbsR(Entry(m, i, j) - Entry(m, j, i)) <= tolerance)
  }

  method IsPositiveSemidefinite(m: Mat33, tolerance: real) returns (passes: bool)
    ensures passes <==> PassesTest(m, tolerance)
  {
    for i := 0 to 3
      invariant forall i' :: 0 <= i' < i ==> Entry(m, i', i') >= 0.0
    {
      if Entry(m, i, i) < 0.0 {
        return false;
      }
    }
    for i := 0 to 3
      invariant forall i', j' :: 0 <= i' < i && i' < j' < 3 ==> AbsR(Entry(m, i', j') - Entry(m, j', i')) <= tolerance
    {
      for j := i + 1 to 3
        invariant forall i', j' :: 0 <= i' < i && i' < j' < 3 ==> AbsR(Entry(m, i', j') - Entry(m, j', i')) <= tolerance
        invariant forall j' :: i < j' < j ==> AbsR(Entry(m, i, j') - Entry(m, j', i)) <= tolerance
      {
        if AbsR(Entry(m, i, j) - Entry(m, j, i)) > tolerance {
          return false;
        }
      }
    }
    return true;
  }

  ghost predicate KeepsCovariance(p: Block) {
    PassesTest(p.m00, SYMMETRY_TOLERANCE) && PassesTest(p.m11, SYMMETRY_TOLERANCE)
  }

  /** mP after checkState. */
  ghost function Checked(p: Block): Block { if KeepsCovariance(p) then p else ZERO66 }

  method CheckState(p: Block) returns (r: Block)
    ensures r == Checked(p)
  {
    var first := IsPositiveSemidefinite(p.m00, SYMMETRY_TOLERANCE);
    var second := IsPositiveSemidefinite(p.m11, SYMMETRY_TOLERANCE);
    r := if !first || !second then ZERO66 else p;
  }

  ghost predicate NonnegativeDiagonal(m: Mat33) { m.c0.x >= 0.0 && m.c1.y >= 0.0 && m.c2.z >= 0.0 }

  lemma SymmetricPasses(m: Mat33)
    requires Symmetric(m)
    ensures PassesTest(m, SYMMETRY_TOLERANCE) <==> NonnegativeDiagonal(m)
  {
    assert Entry(m, 0, 0) == m.c0.x && Entry(m, 1, 1) == m.c1.y && Entry(m, 2, 2) == m.c2.z;
    forall i, j | 0 <= i < j < 3 ensures AbsR(Entry(m, i, j) - Entry(m, j, i)) <= SYMMETRY_TOLERANCE {
    }
  }

  /** A symmetric covariance is reset if and only if it holds a negative variance; the test sees nothing else. */
  lemma ResetExactly(p: Block)
    requires SymmetricB(p)
    ensures KeepsCovariance(p) <==> NonnegativeDiagonal(p.m00) && NonnegativeDiagonal(p.m11)
    ensures SymmetricB(Checked(p))
  {
    SymmetricPasses(p.m00);
    SymmetricPasses(p.m11);
  }

  function Axis(k: nat): Vec3 {
    if k == 0 then Vec3(1.0, 0.0, 0.0) else if k == 1 then Vec3(0.0, 1.0, 0.0) else Vec3(0.0, 0.0, 1.0)
  }

  lemma AxisForm(m: Mat33)
    ensures Dot(Axis(0), MulV(m, Axis(0))) == m.c0.x
    ensures Dot(Axis(1), MulV(m, Axis(1))) == m.c1.y
    ensures Dot(Axis(2), MulV(m, Axis(2))) == m.c2.z
  {
  }

  lemma PositiveAlong(p: Block, k: nat)
    requires PositiveSemidefinite(p)
    ensures Dot(Axis(k), MulV(p.m00, Axis(k))) >= 0.0 && Dot(Axis(k), MulV(p.m11, Axis(k))) >= 0.0
  {
    HalfForms(p, Axis(k));
    assert Form(p, Vec6(Axis(k), ZERO3)) >= 0.0;
    assert Form(p, Vec6(ZERO3, Axis(k))) >= 0.0;
  }

  /** checkState never resets a proper covariance. */
  lemma PositiveIsKept(p: Block)
    requires SymmetricB(p) && PositiveSemidefinite(p)
    ensures Checked(p) == p
  {
    AxisForm(p.m00);
    AxisForm(p.m11);
    PositiveAlong(p, 0);
    PositiveAlong(p, 1);
    PositiveAlong(p, 2);
    ResetExactly(p);
  }

  lemma ZeroIsCovariance()
    ensures SymmetricB(ZERO66) && PositiveSemidefinite(ZERO66)
  {
    forall x ensures Form(ZERO66, x) >= 0.0 {
      ZeroForm(x);
    }
  }

  lemma ZeroForm(x: Vec6)
    ensures Form(ZERO66, x) == 0.0
  {
    ZeroDoubled();
    DoubledForm(ZERO66, x);
  }

  lemma ZeroDoubled()
    ensures AddB(ZERO66, ZERO66) == ZERO66
  {
  }

  lemma DoubledForm(a: Block, x: Vec6)
    requires AddB(a, a) == a
    ensures Form(a, x) == 0.0
  {
    AddForm(a, a, x);
  }

  // ----- process noise

  /** mGQGt for a gyroscope variance and a sampling time. */
  function ProcessNoise(gyroVar: real, dT: real): Block {
    var dT2 := dT * dT;
    var dT3 := dT2 * dT;
    var q00 := gyroVar * dT + 0.33333 * DEFAULT_GYRO_BIAS_VAR * dT3;
    var q11 := DEFAULT_GYRO_BIAS_VAR * dT;
    var q10 := 0.5 * DEFAULT_GYRO_BIAS_VAR * dT2;
    Block(Diagonal(q00), Diagonal(-q10), Diagonal(-q10), Diagonal(q11))
  }

  lemma DiagonalForm(a: real, b: real, d: real, x: Vec6)
    ensures Form(Block(Diagonal(a), Diagonal(b), Diagonal(b), Diagonal(d)), x)
         == a * Dot(x.v0, x.v0) + 2.0 * (b * Dot(x.v0, x.v1)) + d * Dot(x.v1, x.v1)
  {
    DiagonalApplied(a, x.v0);
    DiagonalApplied(b, x.v1);
    DiagonalApplied(b, x.v0);
    DiagonalApplied(d, x.v1);
    DotLinear(x.v0, Scale(x.v0, a), Scale(x.v1, b), 0.0);
    DotLinear(x.v1, Scale(x.v0, b), Scale(x.v1, d), 0.0);
    DotLinear(x.v0, x.v0, x.v0, a);
    DotLinear(x.v0, x.v1, x.v1, b);
    DotLinear(x.v1, x.v0, x.v0, b);
    DotLinear(x.v1, x.v1, x.v1, d);
  }

  function ScaledForm(b: real, d: real, p: real, q: real, r: real): real {
    b * b * p + 2.0 * (b * d) * q + d * d * r
  }

  lemma SquareOfSum(u: Vec3, v: Vec3, b: real, d: real)
    ensures ScaledForm(b, d, Dot(u, u), Dot(u, v), Dot(v, v)) >= 0.0
  {
    SquaresOf(u.x, v.x, b, d);
    SquaresOf(u.y, v.y, b, d);
    SquaresOf(u.z, v.z, b, d);
    DotTerms(u, v, b * b, 2.0 * (b * d), d * d);
  }

  lemma SquaresOf(u: real, v: real, b: real, d: real)
    ensures b * b * (u * u) + 2.0 * (b * d) * (u * v) + d * d * (v * v) >= 0.0
  {
    SquarePositive(b * u + d * v);
    assert Square(b * u + d * v) == b * b * (u * u) + 2.0 * (b * d) * (u * v) + d * d * (v * v);
  }

  lemma DotTerms(u: Vec3, v: Vec3, a: real, b: real, c: real)
    ensures a * Dot(u, u) + b * Dot(u, v) + c * Dot(v, v)
         == a * (u.x * u.x) + b * (u.x * v.x) + c * (v.x * v.x) + (a * (u.y * u.y) + b * (u.y * v.y) + c * (v.y * v.y))
            + (a * (u.z * u.z) + b * (u.z * v.z) + c * (v.z * v.z))
  {
  }

  /** A 2x2 form with nonnegative determinant, times its last coefficient. */
  lemma Discriminant(a: real, b: real, d: real, p: real, q: real, r: real)
    requires d > 0.0 && a * d >= b * b && p >= 0.0
    requires ScaledForm(b, d, p, q, r) >= 0.0
    ensures a * p + 2.0 * (b * q) + d * r >= 0.0
  {
    var f := a * p + 2.0 * (b * q) + d * r;
    assert d * f == (a * d - b * b) * p + ScaledForm(b, d, p, q, r);
    NonnegativeProduct(a * d - b * b, p);
    if f < 0.0 {
      PositiveProduct(d, -f);
    }
  }

  lemma DiagonalBlocksPositive(a: real, b: real, d: real)
    requires d > 0.0 && a * d >= b * b
    ensures PositiveSemidefinite(Block(Diagonal(a), Diagonal(b), Diagonal(b), Diagonal(d)))
  {
    hide Form, Dot, ScaledForm, Diagonal;
    forall x ensures Form(Block(Diagonal(a), Diagonal(b), Diagonal(b), Diagonal(d)), x) >= 0.0 {
      DiagonalForm(a, b, d, x);
      SquareOfSum(x.v0, x.v1, b, d);
      DotPositive(x.v0);
      Discriminant(a, b, d, Dot(x.v0, x.v0), Dot(x.v0, x.v1), Dot(x.v1, x.v1));
    }
  }

  lemma NoiseDeterminant(v: real, s: real, t: real, q00: real, q10: real, q11: real)
    requires v >= 0.0 && t > 0.0 && s > 0.0
    requires q00 == v * t + 0.33333 * s * ((t * t) * t) && q11 == s * t && q10 == 0.5 * s * (t * t)
    ensures q00 * q11 >= q10 * q10
  {
    var t2 := t * t;
    PositiveProduct(t, t);
    assert q00 * q11 - q10 * q10 == (v * s) * t2 + 0.08333 * ((s * t2) * (s * t2));
    NonnegativeProduct(v, s);
    NonnegativeProduct(v * s, t2);
    SquarePositive(s * t2);
    assert Square(s * t2) == (s * t2) * (s * t2);
  }

  lemma ProcessNoiseSymmetric(gyroVar: real, dT: real)
    ensures SymmetricB(ProcessNoise(gyroVar, dT))
  {
  }

  /** The process noise is a proper covariance if and only if the sampling time is not negative. */
  lemma ProcessNoiseExactly(gyroVar: real, dT: real)
    requires gyroVar >= 0.0
    ensures PositiveSemidefinite(ProcessNoise(gyroVar, dT)) <==> dT >= 0.0
  {
    var q := ProcessNoise(gyroVar, dT);
    if dT > 0.0 {
      var q00 := gyroVar * dT + 0.33333 * DEFAULT_GYRO_BIAS_VAR * ((dT * dT) * dT);
      var q10 := 0.5 * DEFAULT_GYRO_BIAS_VAR * (dT * dT);
      NoiseDeterminant(gyroVar, DEFAULT_GYRO_BIAS_VAR, dT, q00, q10, DEFAULT_GYRO_BIAS_VAR * dT);
      assert (-q10) * (-q10) == q10 * q10;
      DiagonalBlocksPositive(q00, -q10, DEFAULT_GYRO_BIAS_VAR * dT);
    } else if dT == 0.0 {
      assert q == ZERO66;
      ZeroIsCovariance();
    } else {
      HalfForms(q, Axis(0));
      AxisForm(q.m11);
      assert Form(q, Vec6(ZERO3, Axis(0))) == DEFAULT_GYRO_BIAS_VAR * dT;
    }
  }

  // ----- the time update

  /** mP before checkState: Phi * P * transpose(Phi) + GQGt. */
  function Predicted(phi: Block, p: Block, noise: Block): Block { AddB(Congruence(phi, p), noise) }

  /** Whatever the transition, a proper covariance stays one, and checkState leaves it alone. */
  lemma PredictedIsCovariance(phi: Block, p: Block, noise: Block)
    requires SymmetricB(p) && SymmetricB(noise)
    ensures SymmetricB(Predicted(phi, p, noise))
    ensures PositiveSemidefinite(p) && PositiveSemidefinite(noise) ==>
              PositiveSemidefinite(Predicted(phi, p, noise)) && Checked(Predicted(phi, p, noise)) == Predicted(phi, p, noise)
  {
    CongruenceKeepsSymmetry(phi, p);
    SumKeepsSymmetry(Congruence(phi, p), noise);
    if PositiveSemidefinite(p) && PositiveSemidefinite(noise) {
      CongruenceKeepsPositivity(phi, p);
      SumKeepsPositivity(Congruence(phi, p), noise);
      PositiveIsKept(Predicted(phi, p, noise));
    }
  }

  // ----- what the process noise is

  /** The transition over a time t without rotation: the orientation drifts by minus the bias. */
  function Coast(t: real): Block { Block(Diagonal(1.0), ZERO33, Diagonal(-t), Diagonal(1.0)) }

  lemma DiagonalProduct(a: real, b: real, c: real)
    requires c == a * b
    ensures Mul(Diagonal(a), Diagonal(b)) == Diagonal(c)
  {
  }

  lemma DiagonalSum(a: real, b: real, c: real)
    requires c == a + b
    ensures AddM(Diagonal(a), Diagonal(b)) == Diagonal(c)
  {
  }

  function Diagonals(p: real, q: real, r: real): Block { Block(Diagonal(p), Diagonal(q), Diagonal(q), Diagonal(r)) }

  lemma CoastBlocks(t: real, p: real, q: real, r: real)
    ensures MulB(Coast(t), Diagonals(p, q, r))
         == Block(Diagonal(p - t * q), Diagonal(q), Diagonal(q - t * r), Diagonal(r))
  {
    hide Mul, AddM, Diagonal;
    assert ZERO33 == Diagonal(0.0) by { ZeroDiagonal(); }
    DiagonalProduct(1.0, p, p);
    DiagonalProduct(-t, q, -(t * q));
    DiagonalSum(p, -(t * q), p - t * q);
    DiagonalProduct(0.0, p, 0.0);
    DiagonalProduct(1.0, q, q);
    DiagonalSum(0.0, q, q);
    DiagonalProduct(-t, r, -(t * r));
    DiagonalSum(q, -(t * r), q - t * r);
    DiagonalProduct(0.0, q, 0.0);
    DiagonalProduct(1.0, r, r);
    DiagonalSum(0.0, r, r);
  }

  lemma ZeroDiagonal()
    ensures ZERO33 == Diagonal(0.0)
  {
  }

  lemma DiagonalTransposed(d: real)
    ensures Transpose(Diagonal(d)) == Diagonal(d)
  {
  }

  lemma CoastTransposed(t: real)
    ensures TransposeB(Coast(t)) == Block(Diagonal(1.0), Diagonal(-t), Diagonal(0.0), Diagonal(1.0))
  {
    ZeroDiagonal();
    DiagonalTransposed(1.0);
    DiagonalTransposed(-t);
    DiagonalTransposed(0.0);
  }

  lemma CoastCongruence(t: real, p: real, q: real, r: real, p': real, q': real)
    requires q' == q - t * r && p' == p - t * q - t * q'
    ensures Congruence(Coast(t), Diagonals(p, q, r)) == Diagonals(p', q', r)
  {
    hide Mul, AddM, Diagonal, Coast, Diagonals;
    CoastBlocks(t, p, q, r);
    CoastTransposed(t);
    var a, b := p - t * q, q - t * r;
    DiagonalsAre(p', q', r);
    DiagonalProduct(a, 1.0, a);
    DiagonalProduct(b, -t, -(t * b));
    DiagonalSum(a, -(t * b), p');
    DiagonalProduct(q, 1.0, q);
    DiagonalProduct(r, -t, -(t * r));
    DiagonalSum(q, -(t * r), q');
    DiagonalProduct(a, 0.0, 0.0);
    DiagonalProduct(b, 1.0, b);
    DiagonalSum(0.0, b, b);
    DiagonalProduct(q, 0.0, 0.0);
    DiagonalProduct(r, 1.0, r);
    DiagonalSum(0.0, r, r);
  }

  lemma DiagonalsAre(p: real, q: real, r: real)
    ensures Diagonals(p, q, r) == Block(Diagonal(p), Diagonal(q), Diagonal(q), Diagonal(r))
  {
  }

  /** The three entries of the noise over a time t. */
  ghost predicate AreEntries(v: real, t: real, p: real, q: real, r: real) {
    && p == v * t + 0.33333 * DEFAULT_GYRO_BIAS_VAR * ((t * t) * t)
    && q == -(0.5 * DEFAULT_GYRO_BIAS_VAR * (t * t)) && r == DEFAULT_GYRO_BIAS_VAR * t
  }

  lemma NoiseIsDiagonals(v: real, t: real, p: real, q: real, r: real)
    requires AreEntries(v, t, p, q, r)
    ensures ProcessNoise(v, t) == Diagonals(p, q, r)
  {
    hide Diagonal;
  }

  lemma EntriesCompose(v: real, a: real, b: real, pa: real, qa: real, ra: real, pb: real, qb: real, rb: real,
                       p: real, q: real, r: real, q': real, p': real)
    requires AreEntries(v, a, pa, qa, ra) && AreEntries(v, b, pb, qb, rb) && AreEntries(v, a + b, p, q, r)
    requires q' == qa - b * ra && p' == pa - b * qa - b * q'
    ensures r == ra + rb && q == q' + qb && p' + pb == p + 0.00001 * DEFAULT_GYRO_BIAS_VAR * (a * b * (a + b))
  {
    Cube(a, b);
    SumSquared(a, b);
    var s := DEFAULT_GYRO_BIAS_VAR;
    var aa, ab, bb := a * a, a * b, b * b;
    assert b * qa == -(0.5 * s * (aa * b)) && b * (b * ra) == s * (ab * b);
    assert b * q' == b * qa - b * (b * ra);
    assert a * b * (a + b) == aa * b + ab * b;
  }

  lemma SumSquared(a: real, b: real)
    ensures (a + b) * (a + b) == a * a + 2.0 * (a * b) + b * b
  {
  }

  lemma Cube(a: real, b: real)
    ensures ((a + b) * (a + b)) * (a + b) == (a * a) * a + 3.0 * ((a * a) * b) + 3.0 * ((a * b) * b) + (b * b) * b
  {
    SumSquared(a, b);
  }

  /** Integrating over a time a and then over a time b without rotation gives the noise that the code computes for
      a + b, but for the code's 0.33333 in place of a third, which leaves it short on the orientation. */
  lemma ProcessNoiseComposes(gyroVar: real, a: real, b: real)
    ensures var q, t := ProcessNoise(gyroVar, a + b), Predicted(Coast(b), ProcessNoise(gyroVar, a), ProcessNoise(gyroVar, b));
      && t.m01 == q.m01 && t.m10 == q.m10 && t.m11 == q.m11
      && t.m00 == AddM(q.m00, Diagonal(0.00001 * DEFAULT_GYRO_BIAS_VAR * (a * b * (a + b))))
  {
    hide Mul, AddM, Diagonal, Coast, Congruence, ProcessNoise;
    var s, t := DEFAULT_GYRO_BIAS_VAR, a + b;
    var pa, qa, ra := gyroVar * a + 0.33333 * s * ((a * a) * a), -(0.5 * s * (a * a)), s * a;
    var pb, qb, rb := gyroVar * b + 0.33333 * s * ((b * b) * b), -(0.5 * s * (b * b)), s * b;
    var p, q, r := gyroVar * t + 0.33333 * s * ((t * t) * t), -(0.5 * s * (t * t)), s * t;
    var q' := qa - b * ra;
    var p' := pa - b * qa - b * q';
    var short := 0.00001 * s * (a * b * t);
    NoiseIsDiagonals(gyroVar, a, pa, qa, ra);
    NoiseIsDiagonals(gyroVar, b, pb, qb, rb);
    NoiseIsDiagonals(gyroVar, t, p, q, r);
    CoastCongruence(b, pa, qa, ra, p', q');
    EntriesCompose(gyroVar, a, b, pa, qa, ra, pb, qb, rb, p, q, r, q', p');
    SumOfDiagonals(p', q', ra, pb, qb, rb, p, q, r, short);
  }

  /** A gyroscope variance that is larger by d adds d times the sampling time to the orientation and nothing else. */
  lemma ProcessNoiseOfVariance(gyroVar: real, d: real, t: real)
    ensures ProcessNoise(gyroVar + d, t)
         == ProcessNoise(gyroVar, t).(m00 := AddM(ProcessNoise(gyroVar, t).m00, Diagonal(d * t)))
  {
    var q := 0.33333 * DEFAULT_GYRO_BIAS_VAR * ((t * t) * t);
    assert (gyroVar + d) * t + q == gyroVar * t + q + d * t;
    DiagonalSum(gyroVar * t + q, d * t, (gyroVar + d) * t + q);
  }

  lemma SumOfDiagonals(a: real, b: real, c: real, d: real, e: real, f: real, p: real, q: real, r: real, short: real)
    requires c + f == r && b + e == q && a + d == p + short
    ensures AddB(Diagonals(a, b, c), Diagonals(d, e, f))
         == Block(AddM(Diagonal(p), Diagonal(short)), Diagonal(q), Diagonal(q), Diagonal(r))
  {
    hide AddM, Diagonal;
    DiagonalSum(a, d, p + short);
    DiagonalSum(p, short, p + short);
    DiagonalSum(b, e, q);
    DiagonalSum(c, f, r);
  }
}
