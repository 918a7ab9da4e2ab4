/** The orientation side of the fusion (CompositeSensors.cpp, vec.h): the initial frame, the rotation by a
    gyroscope sample and the correction by a measurement, each as a function on values. */
module FusionSteps {
  import opened Reals
  import opened Space
  import opened Quaternion

  /** The library functions the fusion calls. Only these properties of them are used. */
  datatype Libm = Libm(sqrt: real -> real, sin: real -> real, cos: real -> real, exp: real -> real) {
    ghost predicate Sound() {
      && IsSqrt(sqrt)
      && (forall t :: Square(sin(t)) + Square(cos(t)) == 1.0)
      && (forall t :: exp(t) > 0.0)
    }
  }

  const WVEC_EPS := 0.0001 / 1.732

  function Length(libm: Libm, v: Vec3): real { libm.sqrt(Dot(v, v)) }

  // ----- lengths

  lemma LengthOf(libm: Libm, v: Vec3)
    requires libm.Sound()
    ensures Length(libm, v) >= 0.0 && Prod(Length(libm, v), Length(libm, v)) == Dot(v, v)
    ensures v != ZERO3 ==> Length(libm, v) > 0.0
  {
    DotPositive(v);
    var l := libm.sqrt(Dot(v, v));
    assert l >= 0.0 && l * l == Dot(v, v);
    if v != ZERO3 {
      NonzeroRoot(l, Dot(v, v));
    }
  }

  lemma NonzeroRoot(l: real, d: real)
    requires l >= 0.0 && l * l == d && d > 0.0
    ensures l > 0.0
  {
    if l == 0.0 {
      ZeroTimes(l, l);
    }
  }

  lemma ZeroTimes(a: real, b: real)
    requires a == 0.0
    ensures a * b == 0.0
  {
  }

  function Normalize(libm: Libm, v: Vec3): Vec3
    requires libm.Sound() && v != ZERO3
  {
    LengthOf(libm, v);
    Scale(v, 1.0 / Length(libm, v))
  }

  lemma ScaledDot(v: Vec3, w: Vec3, t: real)
    ensures Dot(Scale(v, t), w) == t * Dot(v, w) && Dot(w, Scale(v, t)) == t * Dot(w, v)
  {
    DotLinear(w, v, v, t);
    DotLinear(w, Scale(v, t), v, 0.0);
    DotLinear(w, v, v, 0.0);
  }

  lemma InverseSquare(l: real, t: real, d: real)
    requires l * t == 1.0 && l * l == d
    ensures t * (t * d) == 1.0
  {
    assert t * (t * (l * l)) == (l * t) * (l * t);
  }

  lemma NormalizeIsUnit(libm: Libm, v: Vec3)
    requires libm.Sound() && v != ZERO3
    ensures Dot(Normalize(libm, v), Normalize(libm, v)) == 1.0
  {
    LengthOf(libm, v);
    var l := Length(libm, v);
    var t := 1.0 / l;
    ScaledDot(v, Scale(v, t), t);
    ScaledDot(v, v, t);
    InverseSquare(l, t, Dot(v, v));
  }

  // ----- the initial frame

  function Perpendicular(v: Vec3): Vec3 {
    if AbsR(v.x) <= AbsR(v.y) && AbsR(v.x) <= AbsR(v.z) then Vec3(0.0, v.z, -v.y)
    else if AbsR(v.y) <= AbsR(v.z) then Vec3(v.z, 0.0, -v.x)
    else Vec3(v.y, -v.x, 0.0)
  }

  /** getOrthogonal never normalises a zero vector. */
  lemma PerpendicularIsNonzero(v: Vec3)
    requires v != ZERO3
    ensures Perpendicular(v) != ZERO3 && Dot(Perpendicular(v), v) == 0.0
  {
  }

  /** It drops the smallest entry, so what it normalises keeps at least two thirds of the squared length. */
  lemma PerpendicularIsLong(v: Vec3)
    ensures 3.0 * Dot(Perpendicular(v), Perpendicular(v)) >= 2.0 * Dot(v, v)
  {
    if AbsR(v.x) <= AbsR(v.y) && AbsR(v.x) <= AbsR(v.z) {
      SquareOfAbs(v.x, v.y);
      SquareOfAbs(v.x, v.z);
    } else if AbsR(v.y) <= AbsR(v.z) {
      SquareOfAbs(v.y, v.x);
      SquareOfAbs(v.y, v.z);
    } else {
      SquareOfAbs(v.z, v.x);
      SquareOfAbs(v.z, v.y);
    }
  }

  lemma UnitIsNonzero(v: Vec3)
    requires Dot(v, v) == 1.0
    ensures v != ZERO3
  {
  }

  lemma UpIsDefined(libm: Libm, acc: Vec3)
    requires libm.Sound() && acc != ZERO3
    ensures var up := Normalize(libm, acc); Dot(up, up) == 1.0 && up != ZERO3
  {
    NormalizeIsUnit(libm, acc);
    UnitIsNonzero(Normalize(libm, acc));
  }

  function GetOrthogonal(libm: Libm, v: Vec3): Vec3
    requires libm.Sound() && v != ZERO3
  {
    PerpendicularIsNonzero(v);
    Normalize(libm, Perpendicular(v))
  }

  /** The columns east, north and up of initRodrParams. */
  function Frame(libm: Libm, acc: Vec3): Mat33
    requires libm.Sound() && acc != ZERO3
  {
    UpIsDefined(libm, acc);
    var up := Normalize(libm, acc);
    var east := GetOrthogonal(libm, up);
    Mat33(east, Cross(up, east), up)
  }

  lemma TripleProductX(u: Vec3, v: Vec3, w: Vec3)
    ensures Cross(u, Cross(v, w)).x == v.x * Dot(u, w) - w.x * Dot(u, v)
  {
    var c := Cross(v, w);
    TripleEntry(u.x, u.y, u.z, v.x, v.y, v.z, w.x, w.y, w.z, c.y, c.z, Dot(u, w), Dot(u, v));
  }

  lemma TripleProduct(u: Vec3, v: Vec3, w: Vec3)
    ensures Cross(u, Cross(v, w)) == Sub(Scale(v, Dot(u, w)), Scale(w, Dot(u, v)))
  {
    hide Cross, Dot;
    TripleProductX(u, v, w);
    TripleProductTurned(u, v, w);
    TripleProductTurned(TurnV(u), TurnV(v), TurnV(w));
    TripleProductX(TurnV(u), TurnV(v), TurnV(w));
    TripleProductX(TurnV(TurnV(u)), TurnV(TurnV(v)), TurnV(TurnV(w)));
  }

  lemma TripleProductTurned(u: Vec3, v: Vec3, w: Vec3)
    ensures Cross(TurnV(u), Cross(TurnV(v), TurnV(w))) == TurnV(Cross(u, Cross(v, w)))
    ensures Dot(TurnV(u), TurnV(v)) == Dot(u, v) && Dot(TurnV(u), TurnV(w)) == Dot(u, w)
  {
    hide Cross, Dot;
    CrossTurns(v, w);
    CrossTurns(u, Cross(v, w));
    TurnKeepsDot(u, v);
    TurnKeepsDot(u, w);
  }

  lemma TripleEntry(a: real, b: real, c: real, d: real, e: real, f: real, g: real, h: real, i: real,
                    y: real, z: real, uw: real, uv: real)
    requires z == d * h - e * g && y == f * g - d * i
    requires uw == a * g + b * h + c * i && uv == a * d + b * e + c * f
    ensures b * z - c * y == d * uw - g * uv
  {
  }

  /** The rows of the frame are orthonormal too: a matrix times its adjugate is its determinant. */
  lemma AdjugateRow(ax: real, ay: real, az: real, bx: real, ey: real, bz: real, cx: real, cy: real, cz: real)
    requires ey * cz - bz * cy == ax && cy * az - cz * ay == bx && ay * bz - az * ey == cx
    requires bz * cx - bx * cz == ay && bx * cy - ey * cx == az
    requires ax * ax + ay * ay + az * az == 1.0
    ensures ax * ax + bx * bx + cx * cx == 1.0
    ensures ay * ax + ey * bx + cy * cx == 0.0 && az * ax + bz * bx + cz * cx == 0.0
  {
    Expansion(ax, ay, az, bx, ey, bz, cx, cy, cz, ax, bx, cx);
  }

  lemma Expansion(ax: real, ay: real, az: real, bx: real, ey: real, bz: real, cx: real, cy: real, cz: real,
                  p: real, q: real, r: real)
    requires p == ey * cz - bz * cy && q == cy * az - cz * ay && r == ay * bz - az * ey
    ensures ax * p + bx * q + cx * r
         == ax * p + ay * (bz * cx - bx * cz) + az * (bx * cy - ey * cx)
    ensures ay * p + ey * q + cy * r == 0.0 && az * p + bz * q + cz * r == 0.0
  {
  }

  lemma RowDots(a: Vec3, b: Vec3, c: Vec3, u: Vec3, v: Vec3, w: Vec3)
    requires Dot(a, a) == 1.0 && Cross(b, c) == a && Cross(c, a) == b && Cross(a, b) == c
    requires u == Vec3(a.x, b.x, c.x) && v == Vec3(a.y, b.y, c.y) && w == Vec3(a.z, b.z, c.z)
    ensures Dot(u, u) == 1.0 && Dot(v, u) == 0.0 && Dot(w, u) == 0.0
  {
    hide Cross;
    CrossEntriesOf(b, c, a);
    CrossEntriesOf(c, a, b);
    CrossEntriesOf(a, b, c);
    AdjugateRow(a.x, a.y, a.z, b.x, b.y, b.z, c.x, c.y, c.z);
  }

  lemma RowsOrthonormal(m: Mat33)
    requires Dot(m.c0, m.c0) == 1.0 && Cross(m.c1, m.c2) == m.c0 && Cross(m.c2, m.c0) == m.c1 && Cross(m.c0, m.c1) == m.c2
    ensures Mul(m, Transpose(m)) == Diagonal(1.0)
  {
    var t := Transpose(m);
    RowDots(m.c0, m.c1, m.c2, t.c0, t.c1, t.c2);
    CrossTurns(m.c0, m.c1);
    CrossTurns(m.c1, m.c2);
    CrossTurns(m.c2, m.c0);
    TurnKeepsDot(m.c0, m.c0);
    var a, b, c := TurnV(m.c0), TurnV(m.c1), TurnV(m.c2);
    RowDots(a, b, c, t.c1, t.c2, t.c0);
    CrossTurns(a, b);
    CrossTurns(b, c);
    CrossTurns(c, a);
    RowDots(TurnV(a), TurnV(b), TurnV(c), t.c2, t.c0, t.c1);
    RotationFromDots(t);
    TransposeAdd(m, m);
  }

  lemma RightHandedIsRotation(a: Vec3, b: Vec3, c: Vec3)
    requires Dot(a, a) == 1.0 && Dot(b, b) == 1.0 && Dot(c, c) == 1.0
    requires Dot(a, b) == 0.0 && Dot(b, c) == 0.0 && Dot(c, a) == 0.0
    requires Cross(b, c) == a && Cross(c, a) == b && Cross(a, b) == c
    ensures IsRotation(Mat33(a, b, c))
  {
    RotationFromDots(Mat33(a, b, c));
    RowsOrthonormal(Mat33(a, b, c));
  }

  lemma PerpendicularPair(u: Vec3, e: Vec3)
    requires Dot(u, u) == 1.0 && Dot(e, e) == 1.0 && Dot(e, u) == 0.0
    ensures IsRotation(Mat33(e, Cross(u, e), u))
  {
    var n := Cross(u, e);
    DotLinear(u, e, e, 0.0);
    LagrangeIdentity(u, e);
    CrossIsPerpendicular(u, e);
    TripleProduct(u, u, e);
    TripleProduct(e, u, e);
    assert Cross(e, n) == u;
    CrossTurnsSign(u, n);
    assert Cross(n, u) == e;
    RightHandedIsRotation(e, n, u);
  }

  lemma CrossTurnsSign(u: Vec3, v: Vec3)
    ensures Cross(v, u) == Scale(Cross(u, v), -1.0)
  {
  }

  lemma CrossIsPerpendicular(u: Vec3, e: Vec3)
    ensures Dot(u, Cross(u, e)) == 0.0 && Dot(Cross(u, e), u) == 0.0 && Dot(e, Cross(u, e)) == 0.0 && Dot(Cross(u, e), e) == 0.0
  {
  }

  lemma OrthogonalIsPerpendicular(libm: Libm, v: Vec3)
    requires libm.Sound() && v != ZERO3
    ensures var e := GetOrthogonal(libm, v); Dot(e, e) == 1.0 && Dot(e, v) == 0.0
  {
    PerpendicularIsNonzero(v);
    var w := Perpendicular(v);
    NormalizeIsUnit(libm, w);
    LengthOf(libm, w);
    ScaledDot(w, v, 1.0 / Length(libm, w));
  }

  /** The east, north, up frame of any nonzero accelerometer sample is a rotation. */
  lemma FrameIsRotation(libm: Libm, acc: Vec3)
    requires libm.Sound() && acc != ZERO3
    ensures IsRotation(Frame(libm, acc))
  {
    UpIsDefined(libm, acc);
    var up := Normalize(libm, acc);
    OrthogonalIsPerpendicular(libm, up);
    PerpendicularPair(up, GetOrthogonal(libm, up));
  }

  /** The orientation initRodrParams starts from. */
  function InitialOrientation(libm: Libm, acc: Vec3): Quat
    requires libm.Sound() && acc != ZERO3
  {
    MatrixToQuat(Frame(libm, acc), libm.sqrt)
  }

  // ----- rotation by a gyroscope sample

  /** The rate that predict integrates: too slow a rotation is replaced by one it can divide by. */
  function Rate(libm: Libm, we: Vec3): Vec3 {
    if Length(libm, we) < WVEC_EPS then
      var e := if we.x > 0.0 then WVEC_EPS else -WVEC_EPS;
      Vec3(e, e, e)
    else we
  }

  lemma LengthOfZero(libm: Libm)
    requires libm.Sound()
    ensures Length(libm, ZERO3) == 0.0
  {
    hide IsSqrt;
    SqrtUnique(libm.sqrt, 0.0, 0.0);
    assert Dot(ZERO3, ZERO3) == 0.0;
  }

  lemma RateIsNotZero(libm: Libm, we: Vec3)
    requires Length(libm, ZERO3) == 0.0
    ensures Rate(libm, we) != ZERO3
  {
    hide Length;
  }

  /** predict never divides by zero. */
  lemma RateIsNonzero(libm: Libm, we: Vec3)
    requires libm.Sound()
    ensures Rate(libm, we) != ZERO3 && Length(libm, Rate(libm, we)) > 0.0
  {
    hide IsSqrt, Length, Rate;
    LengthOfZero(libm);
    RateIsNotZero(libm, we);
    LengthOf(libm, Rate(libm, we));
  }

  /** The product O * q, O being built from the cosine k2 and the vector psi. */
  function TimesO(psi: Vec3, k2: real, q: Quat): Quat {
    Quat(k2 * q.x + psi.z * q.y - psi.y * q.z + psi.x * q.w,
         -psi.z * q.x + k2 * q.y + psi.x * q.z + psi.y * q.w,
         psi.y * q.x - psi.x * q.y + k2 * q.z + psi.z * q.w,
         -psi.x * q.x - psi.y * q.y - psi.z * q.z + k2 * q.w)
  }

  /** getF(q) * u. */
  function TimesF(q: Quat, u: Vec3): Quat {
    Quat(q.w * u.x - q.z * u.y + q.y * u.z,
         q.z * u.x + q.w * u.y - q.x * u.z,
         -q.y * u.x + q.x * u.y + q.w * u.z,
         -q.x * u.x - q.y * u.y - q.z * u.z)
  }

  function AddQ(p: Quat, q: Quat): Quat { Quat(p.x + q.x, p.y + q.y, p.z + q.z, p.w + q.w) }

  function DotQ(p: Quat, q: Quat): real { p.x * q.x + p.y * q.y + p.z * q.z + p.w * q.w }

  lemma SumLength(p: Quat, q: Quat)
    ensures NormSquared(AddQ(p, q)) == NormSquared(p) + 2.0 * DotQ(p, q) + NormSquared(q)
  {
    SquareOfSum(p.x, q.x);
    SquareOfSum(p.y, q.y);
    SquareOfSum(p.z, q.z);
    SquareOfSum(p.w, q.w);
  }

  lemma SquareOfSum(a: real, b: real)
    ensures (a + b) * (a + b) == a * a + 2.0 * (a * b) + b * b
  {
  }

  /** The columns of F are orthogonal to q. */
  lemma StepOrthogonal(q: Quat, u: Vec3)
    ensures DotQ(q, TimesF(q, u)) == 0.0
  {
  }

  function Imaginary(q: Quat): Vec3 { Vec3(q.x, q.y, q.z) }

  lemma NormOfParts(v: Vec3, w: real)
    ensures NormSquared(Quat(v.x, v.y, v.z, w)) == Dot(v, v) + w * w
  {
  }

  lemma StepParts(q: Quat, u: Vec3)
    ensures var s := Add(Scale(u, q.w), Cross(Imaginary(q), u));
      TimesF(q, u) == Quat(s.x, s.y, s.z, -Dot(Imaginary(q), u))
  {
    hide Add, Scale, Cross;
    ScaledPlusCross(Imaginary(q), q.w, u);
    StepEntries(q.x, q.y, q.z, q.w, u.x, u.y, u.z);
  }

  /** A vector scaled plus a cross product, entry by entry. */
  lemma ScaledPlusCross(v: Vec3, w: real, u: Vec3)
    ensures Add(Scale(u, w), Cross(v, u))
         == Vec3(u.x * w + (v.y * u.z - v.z * u.y), u.y * w + (v.z * u.x - v.x * u.z), u.z * w + (v.x * u.y - v.y * u.x))
  {
  }

  lemma StepEntries(x: real, y: real, z: real, w: real, a: real, b: real, c: real)
    ensures w * a - z * b + y * c == a * w + (y * c - z * b)
    ensures z * a + w * b - x * c == b * w + (z * a - x * c)
    ensures -y * a + x * b + w * c == c * w + (x * b - y * a)
    ensures -x * a - y * b - z * c == -(x * a + y * b + z * c)
  {
  }

  lemma DotOfSum(u: Vec3, t: real, c: Vec3)
    requires Dot(u, c) == 0.0
    ensures Dot(Add(Scale(u, t), c), Add(Scale(u, t), c)) == t * (t * Dot(u, u)) + Dot(c, c)
  {
    hide Dot, Add, Scale;
    var a := Scale(u, t);
    DotLinear(Add(a, c), a, c, 0.0);
    DotLinear(a, a, c, 0.0);
    DotLinear(c, a, c, 0.0);
    ScaledDot(u, a, t);
    ScaledDot(u, u, t);
    ScaledDot(u, c, t);
    DotLinear(Add(a, c), a, a, 0.0);
    DotLinear(Add(a, c), c, c, 0.0);
  }

  /** The step is as long as u times q. */
  lemma StepNorm(q: Quat, u: Vec3)
    ensures NormSquared(TimesF(q, u)) == Dot(u, u) * NormSquared(q)
  {
    hide Dot, Cross, Add, Scale, TimesF, NormSquared;
    var v := Imaginary(q);
    var c := Cross(v, u);
    var s := Add(Scale(u, q.w), c);
    StepParts(q, u);
    CrossIsPerpendicular(v, u);
    LagrangeIdentity(v, u);
    DotOfSum(u, q.w, c);
    NormOfParts(s, -Dot(v, u));
    NormOfParts(v, q.w);
    StepTotal(Dot(u, u), Dot(v, v), q.w, Dot(v, u), Dot(s, s));
  }

  lemma StepTotal(uu: real, vv: real, w: real, d: real, ss: real)
    requires ss == w * (w * uu) + (vv * uu - d * d)
    ensures ss + (-d) * (-d) == uu * (vv + w * w)
  {
  }

  lemma ScaleQLength(q: Quat, t: real)
    ensures NormSquared(ScaleQ(q, t)) == t * (t * NormSquared(q))
  {
    ScaleSquares(q.x, q.y, q.z, q.w, t, NormSquared(q));
  }

  lemma ScaleSquares(x: real, y: real, z: real, w: real, t: real, n: real)
    requires n == x * x + y * y + z * z + w * w
    ensures (x * t) * (x * t) + (y * t) * (y * t) + (z * t) * (z * t) + (w * t) * (w * t) == t * (t * n)
  {
  }

  /** O is orthogonal up to the length of (k2, psi): O * q is k2 * q plus the step along psi. */
  lemma TimesOLength(psi: Vec3, k2: real, q: Quat)
    ensures NormSquared(TimesO(psi, k2, q)) == (Square(k2) + Dot(psi, psi)) * NormSquared(q)
  {
    hide TimesF, AddQ, Dot, NormSquared, DotQ, TimesO, ScaleQ;
    TimesOIsSum(psi, k2, q);
    SumLength(ScaleQ(q, k2), TimesF(q, psi));
    ScaleQLength(q, k2);
    ScaleQDot(q, k2, TimesF(q, psi));
    StepOrthogonal(q, psi);
    StepNorm(q, psi);
    assert k2 * (k2 * NormSquared(q)) == Square(k2) * NormSquared(q);
  }

  lemma TimesOIsSum(psi: Vec3, k2: real, q: Quat)
    ensures TimesO(psi, k2, q) == AddQ(ScaleQ(q, k2), TimesF(q, psi))
  {
  }

  lemma ScaleQDot(q: Quat, t: real, p: Quat)
    ensures DotQ(ScaleQ(q, t), p) == t * DotQ(q, p)
  {
  }

  function HalfAngle(libm: Libm, we: Vec3, dT: real): real { 0.5 * (Length(libm, we) * dT) }

  function PsiFactorOf(libm: Libm, lwe: real, h: real): real
    requires lwe != 0.0
  {
    libm.sin(h) * (1.0 / lwe)
  }

  function PsiFactor(libm: Libm, we: Vec3, dT: real): real
    requires Length(libm, we) != 0.0
  {
    PsiFactorOf(libm, Length(libm, we), HalfAngle(libm, we, dT))
  }

  function Psi(libm: Libm, we: Vec3, dT: real): Vec3
    requires Length(libm, we) != 0.0
  {
    Scale(we, PsiFactor(libm, we, dT))
  }

  lemma PsiLength(libm: Libm, we: Vec3, dT: real)
    requires libm.Sound() && Length(libm, we) > 0.0
    ensures Dot(Psi(libm, we, dT), Psi(libm, we, dT)) == Square(libm.sin(HalfAngle(libm, we, dT)))
  {
    LengthOf(libm, we);
    var s, l := libm.sin(HalfAngle(libm, we, dT)), Length(libm, we);
    var t := PsiFactor(libm, we, dT);
    ScaledDot(we, Scale(we, t), t);
    ScaledDot(we, we, t);
    SineSquare(s, l, 1.0 / l, Dot(we, we));
  }

  lemma SineSquare(s: real, l: real, i: real, d: real)
    requires l * i == 1.0 && l * l == d
    ensures (s * i) * ((s * i) * d) == Square(s)
  {
    assert (s * i) * ((s * i) * (l * l)) == (s * s) * ((l * i) * (l * i));
  }

  /** mX0 after predict: O * q, with the sign that makes w nonnegative. */
  function Turned(libm: Libm, q: Quat, w: Vec3, dT: real): Quat
    requires libm.Sound()
  {
    var we := Rate(libm, w);
    RateIsNonzero(libm, w);
    var r := TimesO(Psi(libm, we, dT), libm.cos(HalfAngle(libm, we, dT)), q);
    if r.w < 0.0 then Negate(r) else r
  }

  lemma NegateKeepsLength(q: Quat)
    ensures NormSquared(Negate(q)) == NormSquared(q)
  {
  }

  lemma UnitTurn(psi: Vec3, k2: real, q: Quat)
    requires IsUnit(q) && Square(k2) + Dot(psi, psi) == 1.0
    ensures IsUnit(TimesO(psi, k2, q)) && IsUnit(Negate(TimesO(psi, k2, q)))
  {
    hide TimesO, Square, Dot;
    TimesOLength(psi, k2, q);
    NegateKeepsLength(TimesO(psi, k2, q));
  }

  lemma TurnedIsUnit(libm: Libm, q: Quat, w: Vec3, dT: real)
    requires libm.Sound() && IsUnit(q)
    ensures IsUnit(Turned(libm, q, w, dT)) && Turned(libm, q, w, dT).w >= 0.0
  {
    var we := Rate(libm, w);
    RateIsNonzero(libm, w);
    PsiLength(libm, we, dT);
    UnitTurn(Psi(libm, we, dT), libm.cos(HalfAngle(libm, we, dT)), q);
  }

  // ----- correction by a measurement

  /** The step is orthogonal to q and as long as u times q, so it can only lengthen q. */
  lemma StepLength(q: Quat, u: Vec3)
    ensures NormSquared(AddQ(q, TimesF(q, u))) == (1.0 + Dot(u, u)) * NormSquared(q)
  {
    hide TimesF, AddQ, Dot, NormSquared, DotQ;
    SumLength(q, TimesF(q, u));
    StepOrthogonal(q, u);
    StepNorm(q, u);
  }

  lemma StepNeverZero(q: Quat, u: Vec3)
    requires IsUnit(q)
    ensures NormSquared(AddQ(q, TimesF(q, u))) >= 1.0
  {
    hide AddQ, TimesF, Dot, NormSquared;
    StepLength(q, u);
    DotPositive(u);
  }

  lemma RootPositive(libm: Libm, v: real)
    requires libm.Sound() && v > 0.0
    ensures libm.sqrt(v) > 0.0 && libm.sqrt(v) * libm.sqrt(v) == v
  {
    NonzeroRoot(libm.sqrt(v), v);
  }

  /** mX0 after update: the normalised sum of q and half the step. */
  function Corrected(libm: Libm, q: Quat, dq: Vec3): Quat
    requires libm.Sound() && IsUnit(q)
  {
    var r := AddQ(q, TimesF(q, Scale(dq, 0.5)));
    StepNeverZero(q, Scale(dq, 0.5));
    NegateKeepsLength(r);
    RootPositive(libm, NormSquared(r));
    NormalizeQuat(r, libm.sqrt)
  }

  lemma NormalizeQuatIsUnit(libm: Libm, q: Quat)
    requires libm.Sound() && NormSquared(q) > 0.0
    ensures libm.sqrt(NormSquared(if q.w < 0.0 then Negate(q) else q)) > 0.0
    ensures IsUnit(NormalizeQuat(q, libm.sqrt)) && NormalizeQuat(q, libm.sqrt).w >= 0.0
  {
    hide NormSquared, IsSqrt;
    var r := if q.w < 0.0 then Negate(q) else q;
    NegateKeepsLength(q);
    RootPositive(libm, NormSquared(r));
    var l := libm.sqrt(NormSquared(r));
    ScaleQLength(r, 1.0 / l);
    InverseSquare(l, 1.0 / l, NormSquared(r));
    if r.w > 0.0 {
      PositiveProduct(r.w, 1.0 / l);
    }
  }

  lemma CorrectedIsUnit(libm: Libm, q: Quat, dq: Vec3)
    requires libm.Sound() && IsUnit(q)
    ensures IsUnit(Corrected(libm, q, dq)) && Corrected(libm, q, dq).w >= 0.0
  {
    StepNeverZero(q, Scale(dq, 0.5));
    NormalizeQuatIsUnit(libm, AddQ(q, TimesF(q, Scale(dq, 0.5))));
  }

  const ZERO_QUAT := Quat(0.0, 0.0, 0.0, 0.0)

  lemma ZeroStep(q: Quat, h: Vec3)
    requires h.x == 0.0 && h.y == 0.0 && h.z == 0.0
    ensures TimesF(q, h) == ZERO_QUAT
  {
    ThreeZeros(q.w, -q.z, q.y, h.x, h.y, h.z);
    ThreeZeros(q.z, q.w, -q.x, h.x, h.y, h.z);
    ThreeZeros(-q.y, q.x, q.w, h.x, h.y, h.z);
    ThreeZeros(-q.x, -q.y, -q.z, h.x, h.y, h.z);
  }

  lemma AddZeroQ(q: Quat)
    ensures AddQ(q, ZERO_QUAT) == q
  {
  }

  lemma StepByZero(q: Quat, h: Vec3)
    requires h.x == 0.0 && h.y == 0.0 && h.z == 0.0
    ensures AddQ(q, TimesF(q, h)) == q
  {
    ZeroStep(q, h);
    AddZeroQ(q);
  }

  lemma ThreeZeros(a: real, b: real, c: real, x: real, y: real, z: real)
    requires x == 0.0 && y == 0.0 && z == 0.0
    ensures a * x + b * y + c * z == 0.0
  {
  }

  lemma ScaleByOne(q: Quat, t: real)
    requires t == 1.0
    ensures ScaleQ(q, t) == q
  {
  }

  lemma NormalizeUnitQuat(libm: Libm, q: Quat)
    requires libm.Sound() && IsUnit(q) && q.w >= 0.0
    ensures libm.sqrt(NormSquared(q)) == 1.0 && NormalizeQuat(q, libm.sqrt) == q
  {
    SqrtUnique(libm.sqrt, 1.0, 1.0);
    ScaleByOne(q, 1.0 / libm.sqrt(NormSquared(q)));
  }

  lemma UnchangedSum(libm: Libm, q: Quat, dq: Vec3)
    requires libm.Sound() && IsUnit(q) && q.w >= 0.0 && AddQ(q, TimesF(q, Scale(dq, 0.5))) == q
    ensures Corrected(libm, q, dq) == q
  {
    NormalizeUnitQuat(libm, q);
  }

  lemma HalfOfZero()
    ensures Scale(ZERO3, 0.5) == ZERO3
  {
  }

  /** A measurement that agrees with the orientation leaves it alone. */
  lemma NoCorrection(libm: Libm, q: Quat)
    requires libm.Sound() && IsUnit(q) && q.w >= 0.0
    ensures Corrected(libm, q, ZERO3) == q
  {
    HalfOfZero();
    StepByZero(q, Scale(ZERO3, 0.5));
    UnchangedSum(libm, q, ZERO3);
  }

  // ----- whole runs

  datatype Step = Start(acc: Vec3) | Correct(dq: Vec3) | Turn(w: Vec3, dT: real)

  predicate CanTake(step: Step) { step.Start? ==> step.acc != ZERO3 }

  function Take(libm: Libm, q: Quat, step: Step): Quat
    requires libm.Sound() && IsUnit(q) && CanTake(step)
  {
    match step
    case Start(acc) => InitialOrientation(libm, acc)
    case Correct(dq) => Corrected(libm, q, dq)
    case Turn(w, dT) => Turned(libm, q, w, dT)
  }

  lemma TakeIsUnit(libm: Libm, q: Quat, step: Step)
    requires libm.Sound() && IsUnit(q) && CanTake(step)
    ensures IsUnit(Take(libm, q, step)) && Take(libm, q, step).w >= 0.0
  {
    match step
    case Start(acc) =>
      FrameIsRotation(libm, acc);
      MatrixToQuatIsUnit(Frame(libm, acc), libm.sqrt);
    case Correct(dq) => CorrectedIsUnit(libm, q, dq);
    case Turn(w, dT) => TurnedIsUnit(libm, q, w, dT);
  }

  /** The orientations of a run that starts from an accelerometer sample and takes the steps in order. */
  ghost predicate IsRun(libm: Libm, acc: Vec3, steps: seq<Step>, qs: seq<Quat>)
    requires libm.Sound() && acc != ZERO3
  {
    && |qs| == |steps| + 1 && qs[0] == InitialOrientation(libm, acc)
    && forall i :: 0 <= i < |steps| ==>
         CanTake(steps[i]) && (IsUnit(qs[i]) ==> qs[i + 1] == Take(libm, qs[i], steps[i]))
  }

  /** Over every run from a nonzero first sample the orientation is a unit quaternion with w >= 0. */
  lemma {:induction false} OrientationStaysUnit(libm: Libm, acc: Vec3, steps: seq<Step>, qs: seq<Quat>, k: nat)
    requires libm.Sound() && acc != ZERO3 && IsRun(libm, acc, steps, qs) && k < |qs|
    ensures IsUnit(qs[k]) && qs[k].w >= 0.0
  {
    if k == 0 {
      FrameIsRotation(libm, acc);
      MatrixToQuatIsUnit(Frame(libm, acc), libm.sqrt);
    } else {
      OrientationStaysUnit(libm, acc, steps, qs, k - 1);
      TakeIsUnit(libm, qs[k - 1], steps[k - 1]);
    }
  }

  const NOMINAL_GRAVITY := 9.80665

  /** The gravity reported for an orientation. */
  function GravityOf(q: Quat): Vec3 { Scale(QuatToMatrix(q).c2, NOMINAL_GRAVITY) }

  /** Whatever the sensors say, the reported gravity is exactly as long as standard gravity. */
  lemma GravityLength(q: Quat)
    requires IsUnit(q)
    ensures Dot(GravityOf(q), GravityOf(q)) == NOMINAL_GRAVITY * NOMINAL_GRAVITY
  {
    UnitColumnsOfQuat(q);
    var v := QuatToMatrix(q).c2;
    ScaledDot(v, Scale(v, NOMINAL_GRAVITY), NOMINAL_GRAVITY);
    ScaledDot(v, v, NOMINAL_GRAVITY);
  }

  lemma UnitColumnsOfQuat(q: Quat)
    requires IsUnit(q)
    ensures Dot(QuatToMatrix(q).c2, QuatToMatrix(q).c2) == 1.0
  {
    hide QuatToMatrix, HasColumns, Dot;
    QuatToMatrixColumns(q);
    UnitColumnsOf(QuatToMatrix(q), q.x, q.y, q.z, q.w);
  }

  /** The perpendicular that getOrthogonal builds is as steep as the vector leans only if the vector does not lean. */
  lemma LeanVanishes(u: Vec3, l: real, t: real)
    requires Dot(u, u) == 1.0 && l > 0.0 && l * t == 1.0 && l * l == Dot(Perpendicular(u), Perpendicular(u))
    requires Perpendicular(u).z * t == u.x
    ensures u.x == 0.0 && u.y == 0.0
  {
    hide Dot;
    var z := Perpendicular(u).z;
    TimesBack(z, l, t, u.x);
    if AbsR(u.x) <= AbsR(u.y) && AbsR(u.x) <= AbsR(u.z) {
      FirstPerpendicular(u);
      SquareOfAbs(u.x, u.y);
      LeanSquares(u.x, u.y, l);
    } else {
      LeansAway(u.x, l, z);
    }
  }

  lemma TimesBack(z: real, l: real, t: real, x: real)
    requires l * t == 1.0 && z * t == x
    ensures z == x * l
  {
    assert (z * t) * l == z * (l * t);
  }

  lemma FirstPerpendicular(u: Vec3)
    requires Dot(u, u) == 1.0
    ensures var p := Vec3(0.0, u.z, -u.y); Dot(p, p) == 1.0 - u.x * u.x
  {
  }

  lemma LeansAway(x: real, l: real, z: real)
    requires l > 0.0 && z == x * l && (z == -x || z == 0.0)
    ensures x == 0.0
  {
    if x > 0.0 {
      PositiveProduct(x, l);
    } else if x < 0.0 {
      PositiveProduct(-x, l);
    }
  }

  lemma LeanSquares(x: real, y: real, l: real)
    requires -y == x * l && x * x <= y * y && l * l == 1.0 - x * x
    ensures x == 0.0 && y == 0.0
  {
    var x2 := x * x;
    assert y * y == x2 * (l * l);
    assert x2 * x2 <= 0.0;
    SquareVanishes(x2);
    SquareVanishes(x);
  }

  lemma SquareOfAbs(a: real, b: real)
    requires AbsR(a) <= AbsR(b)
    ensures a * a <= b * b
  {
    assert AbsR(a) * AbsR(a) <= AbsR(b) * AbsR(b);
  }

  lemma SquareVanishes(a: real)
    requires a * a <= 0.0
    ensures a == 0.0
  {
    SquarePositive(a);
  }

  /** The only initial frame that is a half turn is that of a sample pointing straight down. */
  lemma HalfTurnFramePointsDown(libm: Libm, acc: Vec3)
    requires libm.Sound() && acc != ZERO3 && RadicandsOf(Frame(libm, acc)).w == 0.0
    ensures Normalize(libm, acc).x == 0.0 && Normalize(libm, acc).y == 0.0
  {
    hide Dot, Cross, IsRotation, Perpendicular, Normalize, Length;
    var m, up := Frame(libm, acc), Normalize(libm, acc);
    var r := RadicandsOf(m);
    FrameIsRotation(libm, acc);
    RadicandProducts(m);
    ZeroDifference(r.y, r.w, r.e);
    UpIsDefined(libm, acc);
    var l := EastIs(libm, up);
    LeanVanishes(up, l, 1.0 / l);
  }

  lemma EastIs(libm: Libm, up: Vec3) returns (l: real)
    requires libm.Sound() && up != ZERO3
    ensures l > 0.0 && l * l == Dot(Perpendicular(up), Perpendicular(up))
    ensures GetOrthogonal(libm, up).z == Perpendicular(up).z * (1.0 / l)
  {
    hide Dot, Perpendicular, Length;
    PerpendicularIsNonzero(up);
    LengthOf(libm, Perpendicular(up));
    l := Length(libm, Perpendicular(up));
  }

  /** Right after initialisation the orientation says that up is where the accelerometer pointed. */
  lemma InitialOrientationPointsUp(libm: Libm, acc: Vec3)
    requires libm.Sound() && acc != ZERO3
    ensures QuatToMatrix(InitialOrientation(libm, acc)).c2 == Normalize(libm, acc)
  {
    hide IsRotation, QuatToMatrix, MatrixToQuat;
    var m := Frame(libm, acc);
    FrameIsRotation(libm, acc);
    MatrixRoundTripExactly(m, libm.sqrt);
    RadicandsNonnegative(m);
    if RadicandsOf(m).w == 0.0 {
      HalfTurnFramePointsDown(libm, acc);
      HorizontalHalfTurn(m, libm.sqrt);
    }
  }

  /** So the gravity reported there is standard gravity along the sample, and a sample of that length minus it is zero:
      a device at rest has no linear acceleration. */
  lemma InitialGravity(libm: Libm, acc: Vec3)
    requires libm.Sound() && acc != ZERO3
    ensures Length(libm, acc) > 0.0
    ensures GravityOf(InitialOrientation(libm, acc)) == Scale(acc, NOMINAL_GRAVITY / Length(libm, acc))
    ensures Length(libm, acc) == NOMINAL_GRAVITY ==> Sub(acc, GravityOf(InitialOrientation(libm, acc))) == ZERO3
  {
    hide Length, IsSqrt, InitialOrientation, QuatToMatrix, Dot;
    LengthOf(libm, acc);
    InitialOrientationPointsUp(libm, acc);
    var l := Length(libm, acc);
    TimesQuotient(acc.x, l, NOMINAL_GRAVITY);
    TimesQuotient(acc.y, l, NOMINAL_GRAVITY);
    TimesQuotient(acc.z, l, NOMINAL_GRAVITY);
  }

  lemma TimesQuotient(x: real, l: real, n: real)
    requires l > 0.0
    ensures (x * (1.0 / l)) * n == x * (n / l)
    ensures l == n ==> x * (n / l) == x
  {
    assert n / l == n * (1.0 / l);
    assert (x * (1.0 / l)) * n == x * (n * (1.0 / l));
  }

  /** The rate that predict integrates is the measured one if and only if that is fast enough to divide by; otherwise it
      points along the diagonal, to the side of the measured x, with entries of a tenth of a milliradian over 1.732. */
  lemma RateExactly(libm: Libm, we: Vec3)
    requires libm.Sound()
    ensures var r := Rate(libm, we);
      && (r == we <==> Length(libm, we) >= 0.0001 / 1.732)
      && (r != we ==> r.x == r.y == r.z && AbsR(r.x) == 0.0001 / 1.732 && (r.x > 0.0 <==> we.x > 0.0))
  {
    hide IsSqrt;
    if Length(libm, we) < WVEC_EPS && Rate(libm, we) == we {
      LengthOf(libm, we);
      DiagonalIsLonger(Length(libm, we), we.x, Dot(we, we));
    }
  }

  lemma DiagonalIsLonger(l: real, e: real, d: real)
    requires l >= 0.0 && Prod(l, l) == d && d == e * e + e * e + e * e && (e == WVEC_EPS || e == -WVEC_EPS)
    ensures l >= WVEC_EPS
  {
    if l < WVEC_EPS {
      SquareGrows(l, WVEC_EPS);
    }
  }
}
