/** quat.h over exact reals. Square root is any function with the defining property of one. */
module Quaternion {
  import opened Reals
  import opened Space

  datatype Quat = Quat(x: real, y: real, z: real, w: real)

  function NormSquared(q: Quat): real { q.x * q.x + q.y * q.y + q.z * q.z + q.w * q.w }

  function Negate(q: Quat): Quat { Quat(-q.x, -q.y, -q.z, -q.w) }

  function ScaleQ(q: Quat, t: real): Quat { Quat(q.x * t, q.y * t, q.z * t, q.w * t) }

  ghost predicate IsUnit(q: Quat) { NormSquared(q) == 1.0 }

  function QuatToMatrix(q: Quat): Mat33 {
    var q1_q2 := 2.0 * q.x * q.y;
    var q3_q0 := 2.0 * q.z * q.w;
    var q1_q3 := 2.0 * q.x * q.z;
    var q2_q0 := 2.0 * q.y * q.w;
    var q2_q3 := 2.0 * q.y * q.z;
    var q1_q0 := 2.0 * q.x * q.w;
    var sq_q1, sq_q2, sq_q3 := 2.0 * q.x * q.x, 2.0 * q.y * q.y, 2.0 * q.z * q.z;
    Mat33(Vec3(1.0 - sq_q2 - sq_q3, q1_q2 - q3_q0, q1_q3 + q2_q0),
          Vec3(q1_q2 + q3_q0, 1.0 - sq_q1 - sq_q3, q2_q3 - q1_q0),
          Vec3(q1_q3 - q2_q0, q2_q3 + q1_q0, 1.0 - sq_q1 - sq_q2))
  }

  function Clamp(v: real): real { if v < 0.0 then 0.0 else v }

  function CopySign(magnitude: real, sign: real): real {
    var m := if magnitude < 0.0 then -magnitude else magnitude;
    if sign < 0.0 then -m else m
  }

  function Root(sqrt: real -> real, radicand: real): real { sqrt(Clamp(radicand) * 0.25) }

  function MatrixToQuat(m: Mat33, sqrt: real -> real): Quat {
    var hx, my, az := m.c0.x, m.c1.y, m.c2.z;
    Quat(CopySign(Root(sqrt, hx - my - az + 1.0), m.c2.y - m.c1.z),
         CopySign(Root(sqrt, -hx + my - az + 1.0), m.c0.z - m.c2.x),
         CopySign(Root(sqrt, -hx - my + az + 1.0), m.c1.x - m.c0.y),
         Root(sqrt, hx + my + az + 1.0))
  }

  /** normalize_quat: the sign is fixed first, then the length. */
  function NormalizeQuat(q: Quat, sqrt: real -> real): Quat
    requires sqrt(NormSquared(if q.w < 0.0 then Negate(q) else q)) != 0.0
  {
    var r := if q.w < 0.0 then Negate(q) else q;
    ScaleQ(r, 1.0 / sqrt(NormSquared(r)))
  }

  // ----- from quaternion to matrix: every unit quaternion gives a rotation

  lemma LengthIdentity(x: real, y: real, z: real, w: real)
    ensures (w * w + x * x - y * y - z * z) * (w * w + x * x - y * y - z * z)
            + (2.0 * x * y - 2.0 * z * w) * (2.0 * x * y - 2.0 * z * w)
            + (2.0 * x * z + 2.0 * y * w) * (2.0 * x * z + 2.0 * y * w)
         == (x * x + y * y + z * z + w * w) * (x * x + y * y + z * z + w * w)
  {
  }

  lemma ColumnLength(x: real, y: real, z: real, w: real, c: Vec3)
    requires x * x + y * y + z * z + w * w == 1.0
    requires c == FirstColumn(x, y, z, w)
    ensures Dot(c, c) == 1.0
  {
    ColumnLengthEntries(x, y, z, w, c.x, c.y, c.z);
  }

  lemma ColumnLengthEntries(x: real, y: real, z: real, w: real, p: real, q: real, r: real)
    requires x * x + y * y + z * z + w * w == 1.0
    requires p == 1.0 - 2.0 * y * y - 2.0 * z * z && q == 2.0 * x * y - 2.0 * z * w && r == 2.0 * x * z + 2.0 * y * w
    ensures p * p + q * q + r * r == 1.0
  {
    var n := x * x + y * y + z * z + w * w;
    assert p == w * w + x * x - y * y - z * z;
    LengthIdentity(x, y, z, w);
    assert n * n == 1.0;
  }

  lemma OrthogonalIdentity(x: real, y: real, z: real, w: real)
    ensures (w * w + x * x - y * y - z * z) * (2.0 * x * y + 2.0 * z * w)
            + (2.0 * x * y - 2.0 * z * w) * (w * w - x * x + y * y - z * z)
            + (2.0 * x * z + 2.0 * y * w) * (2.0 * y * z - 2.0 * x * w) == 0.0
  {
  }

  lemma ColumnsOrthogonalEntries(x: real, y: real, z: real, w: real, p: real, q: real, r: real, p': real, q': real, r': real)
    requires x * x + y * y + z * z + w * w == 1.0
    requires p == 1.0 - 2.0 * y * y - 2.0 * z * z && q == 2.0 * x * y - 2.0 * z * w && r == 2.0 * x * z + 2.0 * y * w
    requires p' == 2.0 * x * y + 2.0 * z * w && q' == 1.0 - 2.0 * x * x - 2.0 * z * z && r' == 2.0 * y * z - 2.0 * x * w
    ensures p * p' + q * q' + r * r' == 0.0
  {
    assert p == w * w + x * x - y * y - z * z;
    assert q' == w * w - x * x + y * y - z * z;
    OrthogonalIdentity(x, y, z, w);
  }

  lemma ColumnsOrthogonal(x: real, y: real, z: real, w: real, c: Vec3, d: Vec3)
    requires x * x + y * y + z * z + w * w == 1.0
    requires c == FirstColumn(x, y, z, w) && TurnV(d) == FirstColumn(y, z, x, w)
    ensures Dot(c, d) == 0.0
  {
    ColumnsOrthogonalEntries(x, y, z, w, c.x, c.y, c.z, d.x, d.y, d.z);
  }

  lemma CrossIdentity(x: real, y: real, z: real, w: real)
    ensures (w * w - x * x + y * y - z * z) * (w * w - x * x - y * y + z * z)
            - (2.0 * y * z - 2.0 * x * w) * (2.0 * y * z + 2.0 * x * w)
         == (x * x + y * y + z * z + w * w) * (w * w + x * x - y * y - z * z)
  {
  }

  lemma CrossIdentity'(x: real, y: real, z: real, w: real)
    ensures (2.0 * y * z - 2.0 * x * w) * (2.0 * x * z - 2.0 * y * w)
            - (2.0 * x * y + 2.0 * z * w) * (w * w - x * x - y * y + z * z)
         == (x * x + y * y + z * z + w * w) * (2.0 * x * y - 2.0 * z * w)
  {
  }

  /** The first column of quatToMatrix; the others are the same under a cyclic renaming of the axes. */
  function FirstColumn(x: real, y: real, z: real, w: real): Vec3 {
    Vec3(1.0 - 2.0 * y * y - 2.0 * z * z, 2.0 * x * y - 2.0 * z * w, 2.0 * x * z + 2.0 * y * w)
  }

  function TurnV(v: Vec3): Vec3 { Vec3(v.y, v.z, v.x) }

  /** A matrix with the three columns of quatToMatrix for the quaternion (x, y, z, w). */
  ghost predicate HasColumns(m: Mat33, x: real, y: real, z: real, w: real) {
    && m.c0 == FirstColumn(x, y, z, w)
    && TurnV(m.c1) == FirstColumn(y, z, x, w)
    && TurnV(TurnV(m.c2)) == FirstColumn(z, x, y, w)
  }

  lemma FirstColumnIs(q: Quat)
    ensures QuatToMatrix(q).c0 == FirstColumn(q.x, q.y, q.z, q.w)
  {
  }

  lemma SecondColumnIs(q: Quat)
    ensures TurnV(QuatToMatrix(q).c1) == FirstColumn(q.y, q.z, q.x, q.w)
  {
  }

  lemma ThirdColumnIs(q: Quat)
    ensures TurnV(TurnV(QuatToMatrix(q).c2)) == FirstColumn(q.z, q.x, q.y, q.w)
  {
  }

  lemma QuatToMatrixColumns(q: Quat)
    ensures HasColumns(QuatToMatrix(q), q.x, q.y, q.z, q.w)
  {
    hide QuatToMatrix, FirstColumn;
    FirstColumnIs(q);
    SecondColumnIs(q);
    ThirdColumnIs(q);
  }

  lemma FirstRowIs(q: Quat)
    ensures Transpose(QuatToMatrix(q)).c0 == FirstColumn(-q.x, -q.y, -q.z, q.w)
  {
    hide FirstColumn;
    ReversedColumn(q.x, q.y, q.z, q.w);
  }

  lemma SecondRowIs(q: Quat)
    ensures TurnV(Transpose(QuatToMatrix(q)).c1) == FirstColumn(-q.y, -q.z, -q.x, q.w)
  {
    hide FirstColumn;
    ReversedColumn(q.y, q.z, q.x, q.w);
  }

  lemma ThirdRowIs(q: Quat)
    ensures TurnV(TurnV(Transpose(QuatToMatrix(q)).c2)) == FirstColumn(-q.z, -q.x, -q.y, q.w)
  {
    hide FirstColumn;
    ReversedColumn(q.z, q.x, q.y, q.w);
  }

  lemma QuatToMatrixRows(q: Quat)
    ensures HasColumns(Transpose(QuatToMatrix(q)), -q.x, -q.y, -q.z, q.w)
  {
    hide QuatToMatrix, FirstColumn;
    FirstRowIs(q);
    SecondRowIs(q);
    ThirdRowIs(q);
  }

  lemma ReversedColumn(x: real, y: real, z: real, w: real)
    ensures FirstColumn(-x, -y, -z, w)
         == Vec3(1.0 - 2.0 * y * y - 2.0 * z * z, 2.0 * x * y + 2.0 * z * w, 2.0 * x * z - 2.0 * y * w)
  {
  }

  lemma TurnKeepsDot(u: Vec3, v: Vec3)
    ensures Dot(TurnV(u), TurnV(v)) == Dot(u, v)
    ensures Dot(TurnV(TurnV(u)), TurnV(TurnV(v))) == Dot(u, v)
  {
  }

  lemma UnitColumnsOf(m: Mat33, x: real, y: real, z: real, w: real)
    requires x * x + y * y + z * z + w * w == 1.0 && HasColumns(m, x, y, z, w)
    ensures Dot(m.c0, m.c0) == 1.0 && Dot(m.c1, m.c1) == 1.0 && Dot(m.c2, m.c2) == 1.0
  {
    ColumnLength(x, y, z, w, m.c0);
    ColumnLength(y, z, x, w, TurnV(m.c1));
    ColumnLength(z, x, y, w, TurnV(TurnV(m.c2)));
    TurnKeepsDot(m.c1, m.c1);
    TurnKeepsDot(m.c2, m.c2);
  }

  lemma OrthogonalColumnsOf(m: Mat33, x: real, y: real, z: real, w: real)
    requires x * x + y * y + z * z + w * w == 1.0 && HasColumns(m, x, y, z, w)
    ensures Dot(m.c0, m.c1) == 0.0 && Dot(m.c1, m.c2) == 0.0 && Dot(m.c2, m.c0) == 0.0
  {
    ColumnsOrthogonal(x, y, z, w, m.c0, m.c1);
    ColumnsOrthogonal(y, z, x, w, TurnV(m.c1), TurnV(m.c2));
    ColumnsOrthogonal(z, x, y, w, TurnV(TurnV(m.c2)), TurnV(TurnV(m.c0)));
    TurnKeepsDot(m.c1, m.c2);
    TurnKeepsDot(m.c2, m.c0);
  }

  lemma ColumnEntries(m: Mat33, x: real, y: real, z: real, w: real)
    requires HasColumns(m, x, y, z, w)
    ensures m.c0 == Vec3(1.0 - 2.0 * y * y - 2.0 * z * z, 2.0 * x * y - 2.0 * z * w, 2.0 * x * z + 2.0 * y * w)
    ensures m.c1.x == 2.0 * y * x + 2.0 * z * w && m.c1.y == 1.0 - 2.0 * z * z - 2.0 * x * x && m.c1.z == 2.0 * y * z - 2.0 * x * w
    ensures m.c2.x == 2.0 * z * x - 2.0 * y * w && m.c2.y == 2.0 * z * y + 2.0 * x * w && m.c2.z == 1.0 - 2.0 * x * x - 2.0 * y * y
  {
  }

  lemma CrossOfColumns(m: Mat33, x: real, y: real, z: real, w: real)
    requires x * x + y * y + z * z + w * w == 1.0 && HasColumns(m, x, y, z, w)
    ensures Cross(m.c1, m.c2) == m.c0
  {
    ColumnEntries(m, x, y, z, w);
    hide HasColumns;
    FirstEntry(x, y, z, w, m.c1.y, m.c1.z, m.c2.y, m.c2.z);
    SecondEntry(x, y, z, w, m.c1.x, m.c1.z, m.c2.x, m.c2.z);
    ThirdEntry(x, y, z, w, m.c1.x, m.c1.y, m.c2.x, m.c2.y);
  }

  lemma TimesSame(a: real, b: real, p: real, q: real)
    requires a == p && b == q
    ensures a * b == p * q
  {
  }

  lemma FirstEntry(x: real, y: real, z: real, w: real, b: real, c: real, e: real, f: real)
    requires x * x + y * y + z * z + w * w == 1.0
    requires b == 1.0 - 2.0 * z * z - 2.0 * x * x && c == 2.0 * y * z - 2.0 * x * w
    requires e == 2.0 * y * z + 2.0 * x * w && f == 1.0 - 2.0 * x * x - 2.0 * y * y
    ensures b * f - c * e == 1.0 - 2.0 * y * y - 2.0 * z * z
  {
    var n := x * x + y * y + z * z + w * w;
    TimesSame(b, f, w * w - x * x + y * y - z * z, w * w - x * x - y * y + z * z);
    TimesSame(c, e, 2.0 * y * z - 2.0 * x * w, 2.0 * y * z + 2.0 * x * w);
    CrossIdentity(x, y, z, w);
    OneTimes(n, w * w + x * x - y * y - z * z);
  }

  lemma SecondEntry(x: real, y: real, z: real, w: real, a: real, c: real, d: real, f: real)
    requires x * x + y * y + z * z + w * w == 1.0
    requires a == 2.0 * x * y + 2.0 * z * w && c == 2.0 * y * z - 2.0 * x * w
    requires d == 2.0 * x * z - 2.0 * y * w && f == 1.0 - 2.0 * x * x - 2.0 * y * y
    ensures c * d - a * f == 2.0 * x * y - 2.0 * z * w
  {
    var n := x * x + y * y + z * z + w * w;
    TimesSame(c, d, 2.0 * y * z - 2.0 * x * w, 2.0 * x * z - 2.0 * y * w);
    TimesSame(a, f, 2.0 * x * y + 2.0 * z * w, w * w - x * x - y * y + z * z);
    CrossIdentity'(x, y, z, w);
    OneTimes(n, 2.0 * x * y - 2.0 * z * w);
  }

  /** The third entry is the second one with y and z exchanged and w reversed. */
  lemma ThirdEntry(x: real, y: real, z: real, w: real, a: real, b: real, d: real, e: real)
    requires x * x + y * y + z * z + w * w == 1.0
    requires a == 2.0 * x * y + 2.0 * z * w && b == 1.0 - 2.0 * z * z - 2.0 * x * x
    requires d == 2.0 * x * z - 2.0 * y * w && e == 2.0 * y * z + 2.0 * x * w
    ensures a * e - b * d == 2.0 * x * z + 2.0 * y * w
  {
    TimesReversed(x, w);
    TimesReversed(y, w);
    TimesReversed(z, w);
    assert (-w) * (-w) == w * w;
    SecondEntry(x, z, y, -w, d, e, a, b);
  }

  lemma TimesReversed(y: real, w: real)
    ensures 2.0 * y * (-w) == -(2.0 * y * w)
  {
  }

  lemma OneTimes(n: real, v: real)
    requires n == 1.0
    ensures n * v == v
  {
  }

  lemma RotationFromDots(m: Mat33)
    requires Dot(m.c0, m.c0) == 1.0 && Dot(m.c1, m.c1) == 1.0 && Dot(m.c2, m.c2) == 1.0
    requires Dot(m.c0, m.c1) == 0.0 && Dot(m.c1, m.c2) == 0.0 && Dot(m.c2, m.c0) == 0.0
    ensures Mul(Transpose(m), m) == Diagonal(1.0)
  {
    assert Transpose(Transpose(m)) == m;
    assert Dot(m.c1, m.c0) == Dot(m.c0, m.c1) && Dot(m.c2, m.c1) == Dot(m.c1, m.c2) && Dot(m.c0, m.c2) == Dot(m.c2, m.c0);
  }

  /** quatToMatrix of a unit quaternion is orthogonal, in rows and in columns, with determinant 1. */
  lemma QuatToMatrixIsRotation(q: Quat)
    requires IsUnit(q)
    ensures IsRotation(QuatToMatrix(q))
  {
    hide QuatToMatrix, HasColumns, IsRotation;
    QuatToMatrixColumns(q);
    QuatToMatrixRows(q);
    ColumnsMakeRotation(QuatToMatrix(q), q.x, q.y, q.z, q.w);
  }

  lemma ColumnsMakeRotation(m: Mat33, x: real, y: real, z: real, w: real)
    requires x * x + y * y + z * z + w * w == 1.0
    requires HasColumns(m, x, y, z, w) && HasColumns(Transpose(m), -x, -y, -z, w)
    ensures IsRotation(m)
  {
    hide HasColumns, Dot, Cross, Mul;
    NegatedSquares(x, y, z, w);
    OrthonormalColumns(m, x, y, z, w);
    OrthonormalColumns(Transpose(m), -x, -y, -z, w);
    CrossOfColumns(m, x, y, z, w);
    UnitColumnsOf(m, x, y, z, w);
    assert Transpose(Transpose(m)) == m;
  }

  lemma NegatedSquares(x: real, y: real, z: real, w: real)
    ensures (-x) * (-x) + (-y) * (-y) + (-z) * (-z) + w * w == x * x + y * y + z * z + w * w
  {
  }

  lemma OrthonormalColumns(m: Mat33, x: real, y: real, z: real, w: real)
    requires x * x + y * y + z * z + w * w == 1.0 && HasColumns(m, x, y, z, w)
    ensures Mul(Transpose(m), m) == Diagonal(1.0)
  {
    hide HasColumns, Dot, Mul;
    UnitColumnsOf(m, x, y, z, w);
    OrthogonalColumnsOf(m, x, y, z, w);
    RotationFromDots(m);
  }

  // ----- from matrix to quaternion and back

  /** What matrixToQuat looks at: the radicands x, y, z, w, the entry differences d, e, f that give the signs,
      and beside them the entry sums g, h, i. */
  datatype Radicands = Radicands(x: real, y: real, z: real, w: real, d: real, e: real, f: real, g: real, h: real, i: real) {
    ghost predicate Nonnegative() { x >= 0.0 && y >= 0.0 && z >= 0.0 && w >= 0.0 }

    /** The products with w are the squares of the differences. */
    ghost predicate Signs() { x * w == d * d && y * w == e * e && z * w == f * f }

    /** The products among x, y and z are the squares of the sums. */
    ghost predicate Pairs() { x * y == g * g && y * z == h * h && z * x == i * i }

    ghost predicate Mixed() { d * e == w * g && e * f == w * h && f * d == w * i }
  }

  function RadicandsOf(m: Mat33): Radicands {
    Radicands(m.c0.x - m.c1.y - m.c2.z + 1.0, -m.c0.x + m.c1.y - m.c2.z + 1.0,
              -m.c0.x - m.c1.y + m.c2.z + 1.0, m.c0.x + m.c1.y + m.c2.z + 1.0,
              m.c2.y - m.c1.z, m.c0.z - m.c2.x, m.c1.x - m.c0.y,
              m.c0.y + m.c1.x, m.c1.z + m.c2.y, m.c2.x + m.c0.z)
  }

  function FromRadicands(r: Radicands, sqrt: real -> real): Quat {
    Quat(CopySign(Root(sqrt, r.x), r.d), CopySign(Root(sqrt, r.y), r.e), CopySign(Root(sqrt, r.z), r.f), Root(sqrt, r.w))
  }

  lemma MatrixToQuatIs(m: Mat33, sqrt: real -> real)
    ensures MatrixToQuat(m, sqrt) == FromRadicands(RadicandsOf(m), sqrt)
  {
  }

  lemma TraceIdentity(q: Quat)
    ensures RadicandsOf(QuatToMatrix(q)).w == 4.0 - 4.0 * (q.x * q.x + q.y * q.y + q.z * q.z)
  {
  }

  lemma ImaginaryRadicands(q: Quat)
    ensures var r := RadicandsOf(QuatToMatrix(q));
      && r.x == 4.0 * q.x * q.x && r.y == 4.0 * q.y * q.y && r.z == 4.0 * q.z * q.z
      && r.d == 4.0 * q.x * q.w && r.e == 4.0 * q.y * q.w && r.f == 4.0 * q.z * q.w
  {
  }

  lemma TraceRadicand(q: Quat)
    requires IsUnit(q)
    ensures RadicandsOf(QuatToMatrix(q)).w == 4.0 * q.w * q.w
  {
    hide QuatToMatrix;
    TraceIdentity(q);
    assert q.w * q.w == 1.0 - (q.x * q.x + q.y * q.y + q.z * q.z);
  }

  /** What matrixToQuat recovers from the matrix of a unit quaternion, component by component. */
  lemma RecoveredComponents(q: Quat, sqrt: real -> real)
    requires IsUnit(q) && IsSqrt(sqrt)
    ensures MatrixToQuat(QuatToMatrix(q), sqrt)
         == Quat(CopySign(q.x, 4.0 * q.x * q.w), CopySign(q.y, 4.0 * q.y * q.w), CopySign(q.z, 4.0 * q.z * q.w), AbsR(q.w))
  {
    hide QuatToMatrix, MatrixToQuat, RadicandsOf, IsUnit, CopySign, Root;
    var r := RadicandsOf(QuatToMatrix(q));
    ImaginaryRadicands(q);
    TraceRadicand(q);
    MatrixToQuatIs(QuatToMatrix(q), sqrt);
    RecoverOne(sqrt, r.x, q.x, r.d);
    RecoverOne(sqrt, r.y, q.y, r.e);
    RecoverOne(sqrt, r.z, q.z, r.f);
    RecoverOne(sqrt, r.w, q.w, 0.0);
  }

  lemma RecoverOne(sqrt: real -> real, radicand: real, r: real, sign: real)
    requires IsSqrt(sqrt) && radicand == 4.0 * r * r
    ensures Root(sqrt, radicand) == AbsR(r) && CopySign(Root(sqrt, radicand), sign) == CopySign(r, sign)
  {
    assert r * r >= 0.0;
    RootOfSquare(sqrt, Clamp(radicand) * 0.25, r);
  }

  lemma SignRestored(v: real, w: real)
    requires w != 0.0
    ensures CopySign(v, 4.0 * v * w) == if w > 0.0 then v else -v
  {
    if v > 0.0 {
      PositiveProduct(v, AbsR(w));
    } else if v < 0.0 {
      PositiveProduct(-v, AbsR(w));
    }
  }

  /** The round trip gives the quaternion back, up to the sign that does not matter for the rotation,
      if and only if w is nonzero or the three other components agree in sign. */
  lemma QuatRoundTripExactly(q: Quat, sqrt: real -> real)
    requires IsUnit(q) && IsSqrt(sqrt)
    ensures q.w > 0.0 ==> MatrixToQuat(QuatToMatrix(q), sqrt) == q
    ensures q.w < 0.0 ==> MatrixToQuat(QuatToMatrix(q), sqrt) == Negate(q)
    ensures MatrixToQuat(QuatToMatrix(q), sqrt) in {q, Negate(q)} <==>
              || q.w != 0.0
              || (q.x >= 0.0 && q.y >= 0.0 && q.z >= 0.0)
              || (q.x <= 0.0 && q.y <= 0.0 && q.z <= 0.0)
  {
    hide QuatToMatrix, MatrixToQuat, IsUnit;
    RecoveredComponents(q, sqrt);
    if q.w != 0.0 {
      SignRestored(q.x, q.w);
      SignRestored(q.y, q.w);
      SignRestored(q.z, q.w);
    } else {
      assert 4.0 * q.x * q.w == 4.0 * q.y * q.w == 4.0 * q.z * q.w == 0.0;
    }
  }

  ghost predicate UnitColumns(m: Mat33) {
    && Dot(m.c0, m.c0) == 1.0 && Dot(m.c1, m.c1) == 1.0 && Dot(m.c2, m.c2) == 1.0
    && Dot(m.c0, m.c1) == 0.0 && Dot(m.c1, m.c2) == 0.0 && Dot(m.c2, m.c0) == 0.0
  }

  /** The equations between the entries of a right-handed orthonormal matrix. */
  ghost predicate Orthonormal(m: Mat33) {
    && UnitColumns(m) && UnitColumns(Transpose(m))
    && Cross(m.c1, m.c2) == m.c0 && Cross(m.c2, m.c0) == m.c1 && Cross(m.c0, m.c1) == m.c2
  }

  lemma LagrangeIdentity(b: Vec3, c: Vec3)
    ensures Dot(Cross(b, c), Cross(b, c)) == Dot(b, b) * Dot(c, c) - Dot(b, c) * Dot(b, c)
  {
    hide Cross;
    var v := Cross(b, c);
    CrossEntriesOf(b, c, v);
    Lagrange(b.x, b.y, b.z, c.x, c.y, c.z, v.x, v.y, v.z, Dot(b, b), Dot(c, c), Dot(b, c));
  }

  lemma Lagrange(x: real, y: real, z: real, u: real, v: real, w: real,
                 p: real, q: real, r: real, bb: real, cc: real, bc: real)
    requires p == y * w - z * v && q == z * u - x * w && r == x * v - y * u
    requires bb == x * x + y * y + z * z && cc == u * u + v * v + w * w && bc == x * u + y * v + z * w
    ensures p * p + q * q + r * r == bb * cc - bc * bc
  {
  }

  lemma CrossFromDeterminant(a: Vec3, b: Vec3, c: Vec3)
    requires Dot(a, a) == 1.0 && Dot(b, b) == 1.0 && Dot(c, c) == 1.0 && Dot(b, c) == 0.0
    requires Dot(a, Cross(b, c)) == 1.0
    ensures a == Cross(b, c)
  {
    var v := Cross(b, c);
    LagrangeIdentity(b, c);
    DifferenceLength(a, v);
    SumOfSquaresZero(a.x - v.x, a.y - v.y, a.z - v.z);
  }

  lemma DifferenceLength(a: Vec3, v: Vec3)
    ensures Square(a.x - v.x) + Square(a.y - v.y) + Square(a.z - v.z)
         == Dot(a, a) - 2.0 * Dot(a, v) + Dot(v, v)
  {
  }

  lemma TripleTurns(a: Vec3, b: Vec3, c: Vec3)
    ensures Dot(a, Cross(b, c)) == Dot(b, Cross(c, a))
  {
  }

  lemma UnitColumnsFrom(m: Mat33)
    requires Mul(Transpose(m), m) == Diagonal(1.0)
    ensures UnitColumns(m)
  {
    assert Transpose(Transpose(m)) == m;
    var p := Mul(Transpose(m), m);
    assert p.c0 == Vec3(Dot(m.c0, m.c0), Dot(m.c1, m.c0), Dot(m.c2, m.c0));
    assert p.c1 == Vec3(Dot(m.c0, m.c1), Dot(m.c1, m.c1), Dot(m.c2, m.c1));
    assert p.c2 == Vec3(Dot(m.c0, m.c2), Dot(m.c1, m.c2), Dot(m.c2, m.c2));
  }

  lemma RotationIsOrthonormal(m: Mat33)
    requires IsRotation(m)
    ensures Orthonormal(m)
  {
    hide Mul, Dot, Cross, Diagonal;
    UnitColumnsFrom(m);
    TransposeAdd(m, m);
    UnitColumnsFrom(Transpose(m));
    TripleTurns(m.c0, m.c1, m.c2);
    TripleTurns(m.c1, m.c2, m.c0);
    CrossFromDeterminant(m.c0, m.c1, m.c2);
    CrossFromDeterminant(m.c1, m.c2, m.c0);
    CrossFromDeterminant(m.c2, m.c0, m.c1);
  }

  /** The matrix with its axes renamed cyclically. */
  function TurnM(m: Mat33): Mat33 { Mat33(TurnV(m.c1), TurnV(m.c2), TurnV(m.c0)) }

  lemma CrossTurns(u: Vec3, v: Vec3)
    ensures Cross(TurnV(u), TurnV(v)) == TurnV(Cross(u, v))
  {
  }

  lemma UnitColumnsTurn(m: Mat33)
    requires UnitColumns(m)
    ensures UnitColumns(TurnM(m))
  {
    hide Dot;
    TurnKeepsDot(m.c0, m.c0);
    TurnKeepsDot(m.c1, m.c1);
    TurnKeepsDot(m.c2, m.c2);
    TurnKeepsDot(m.c0, m.c1);
    TurnKeepsDot(m.c1, m.c2);
    TurnKeepsDot(m.c2, m.c0);
  }

  lemma OrthonormalTurns(m: Mat33)
    requires Orthonormal(m)
    ensures Orthonormal(TurnM(m))
  {
    hide Dot, Cross, UnitColumns;
    UnitColumnsTurn(m);
    UnitColumnsTurn(Transpose(m));
    assert Transpose(TurnM(m)) == TurnM(Transpose(m));
    CrossTurns(m.c0, m.c1);
    CrossTurns(m.c1, m.c2);
    CrossTurns(m.c2, m.c0);
  }

  // ----- every rotation gives a unit quaternion with w >= 0

  /** The products of the radicands x, y and w, and of the differences d and e. */
  lemma FirstProducts(m: Mat33, r: Radicands)
    requires Orthonormal(m) && r == RadicandsOf(m)
    ensures r.x * r.w == r.d * r.d && r.x * r.y == r.g * r.g && r.d * r.e == r.w * r.g
  {
    FirstSign(m, r);
    FirstPair(m, r);
    FirstMixed(m, r);
  }

  lemma FirstSign(m: Mat33, r: Radicands)
    requires Orthonormal(m) && r == RadicandsOf(m)
    ensures r.x * r.w == r.d * r.d
  {
    TraceTimesXEntries(m.c0.x, m.c1.x, m.c2.x, m.c1.y, m.c1.z, m.c2.y, m.c2.z, r.x, r.w, r.d);
  }

  lemma FirstPair(m: Mat33, r: Radicands)
    requires Orthonormal(m) && r == RadicandsOf(m)
    ensures r.x * r.y == r.g * r.g
  {
    XTimesYEntries(m.c0.x, m.c0.y, m.c0.z, m.c1.x, m.c1.y, m.c1.z, m.c2.z, r.x, r.y, r.g);
  }

  lemma FirstMixed(m: Mat33, r: Radicands)
    requires Orthonormal(m) && r == RadicandsOf(m)
    ensures r.d * r.e == r.w * r.g
  {
    MixedEntries(m.c0.x, m.c0.y, m.c0.z, m.c1.x, m.c1.y, m.c1.z, m.c2.x, m.c2.y, m.c2.z, r.d, r.e, r.w, r.g);
  }

  lemma TraceTimesXEntries(ux: real, vx: real, wx: real, vy: real, vz: real, wy: real, wz: real, x: real, t: real, d: real)
    requires ux * ux + vx * vx + wx * wx == 1.0
    requires vx * vx + vy * vy + vz * vz == 1.0 && wx * wx + wy * wy + wz * wz == 1.0
    requires vy * wz - vz * wy == ux
    requires t == ux + vy + wz + 1.0 && x == ux - vy - wz + 1.0 && d == wy - vz
    ensures x * t == d * d
  {
    assert x * t == 1.0 + 2.0 * ux + ux * ux - vy * vy - wz * wz - 2.0 * (vy * wz);
    assert d * d == wy * wy + vz * vz - 2.0 * (vz * wy);
  }

  lemma XTimesYEntries(ux: real, uy: real, uz: real, vx: real, vy: real, vz: real, wz: real, x: real, y: real, g: real)
    requires ux * ux + uy * uy + uz * uz == 1.0 && vx * vx + vy * vy + vz * vz == 1.0
    requires uz * uz + vz * vz + wz * wz == 1.0
    requires ux * vy - uy * vx == wz
    requires x == ux - vy - wz + 1.0 && y == -ux + vy - wz + 1.0 && g == uy + vx
    ensures x * y == g * g
  {
    assert x * y == 1.0 - 2.0 * wz + wz * wz - ux * ux - vy * vy + 2.0 * (ux * vy);
    assert g * g == uy * uy + vx * vx + 2.0 * (uy * vx);
  }

  lemma MixedEntries(ux: real, uy: real, uz: real, vx: real, vy: real, vz: real, wx: real, wy: real, wz: real,
                     d: real, e: real, t: real, g: real)
    requires ux * uy + vx * vy + wx * wy == 0.0 && ux * vx + uy * vy + uz * vz == 0.0
    requires uy == vz * wx - vx * wz && vx == wy * uz - wz * uy
    requires d == wy - vz && e == uz - wx && t == ux + vy + wz + 1.0 && g == uy + vx
    ensures d * e == t * g
  {
    assert d * e == wy * uz - wx * wy - uz * vz + vz * wx;
    assert t * g == ux * uy + ux * vx + uy * vy + vx * vy + wz * uy + vx * wz + uy + vx;
  }

  /** Renaming the axes renames the radicands. */
  lemma RadicandsTurn(m: Mat33)
    ensures var r, t := RadicandsOf(m), RadicandsOf(TurnM(m));
      t == Radicands(r.y, r.z, r.x, r.w, r.e, r.f, r.d, r.h, r.i, r.g)
  {
  }

  lemma AllNonnegative(p: real, q: real, r: real, s: real)
    requires p + q + r + s > 0.0
    requires p * q >= 0.0 && p * r >= 0.0 && p * s >= 0.0 && q * r >= 0.0 && q * s >= 0.0 && r * s >= 0.0
    ensures p >= 0.0 && q >= 0.0 && r >= 0.0 && s >= 0.0
  {
    if p < 0.0 { OppositeSign(p, q); OppositeSign(p, r); OppositeSign(p, s); }
    if q < 0.0 { OppositeSign(q, p); OppositeSign(q, r); OppositeSign(q, s); }
    if r < 0.0 { OppositeSign(r, p); OppositeSign(r, q); OppositeSign(r, s); }
    if s < 0.0 { OppositeSign(s, p); OppositeSign(s, q); OppositeSign(s, r); }
  }

  lemma OppositeSign(p: real, q: real)
    requires p < 0.0 && p * q >= 0.0
    ensures q <= 0.0
  {
    if q > 0.0 {
      PositiveProduct(-p, q);
    }
  }

  lemma RadicandProducts(m: Mat33)
    requires IsRotation(m)
    ensures RadicandsOf(m).Signs() && RadicandsOf(m).Pairs() && RadicandsOf(m).Mixed()
  {
    hide IsRotation, Orthonormal, RadicandsOf, TurnM;
    var m', m'' := TurnM(m), TurnM(TurnM(m));
    RotationIsOrthonormal(m);
    OrthonormalTurns(m);
    OrthonormalTurns(m');
    RadicandsTurn(m);
    RadicandsTurn(m');
    FirstProducts(m, RadicandsOf(m));
    FirstProducts(m', RadicandsOf(m'));
    FirstProducts(m'', RadicandsOf(m''));
  }

  lemma PairwiseSquares(r: Radicands)
    requires r.x + r.y + r.z + r.w > 0.0 && r.Signs() && r.Pairs()
    ensures r.Nonnegative()
  {
    SquarePositive(r.d);
    SquarePositive(r.e);
    SquarePositive(r.f);
    SquarePositive(r.g);
    SquarePositive(r.h);
    SquarePositive(r.i);
    AllNonnegative(r.x, r.y, r.z, r.w);
  }

  /** For a rotation the clamp in matrixToQuat never acts. */
  lemma RadicandsNonnegative(m: Mat33)
    requires IsRotation(m)
    ensures RadicandsOf(m).Nonnegative()
  {
    hide IsRotation;
    RadicandProducts(m);
    PairwiseSquares(RadicandsOf(m));
  }

  lemma ComponentSquare(sqrt: real -> real, radicand: real, sign: real)
    requires IsSqrt(sqrt) && radicand >= 0.0
    ensures 4.0 * Square(CopySign(Root(sqrt, radicand), sign)) == radicand
    ensures 4.0 * Square(Root(sqrt, radicand)) == radicand && Root(sqrt, radicand) >= 0.0
  {
    var s := sqrt(radicand * 0.25);
    assert s >= 0.0 && s * s == radicand * 0.25;
    assert (-s) * (-s) == s * s;
  }

  ghost predicate HasSquares(q: Quat, r: Radicands) {
    4.0 * Square(q.x) == r.x && 4.0 * Square(q.y) == r.y && 4.0 * Square(q.z) == r.z && 4.0 * Square(q.w) == r.w && q.w >= 0.0
  }

  lemma ComponentSquares(r: Radicands, sqrt: real -> real)
    requires r.Nonnegative() && IsSqrt(sqrt)
    ensures HasSquares(FromRadicands(r, sqrt), r)
  {
    hide CopySign, Root, Square;
    ComponentSquare(sqrt, r.x, r.d);
    ComponentSquare(sqrt, r.y, r.e);
    ComponentSquare(sqrt, r.z, r.f);
    ComponentSquare(sqrt, r.w, 0.0);
  }

  lemma FourSquaresUnit(q: Quat, r: Radicands)
    requires HasSquares(q, r) && r.x + r.y + r.z + r.w == 4.0
    ensures IsUnit(q)
  {
    assert NormSquared(q) == Square(q.x) + Square(q.y) + Square(q.z) + Square(q.w);
  }

  /** matrixToQuat of a rotation is a unit quaternion with w >= 0, as its closing comment promises. */
  lemma MatrixToQuatIsUnit(m: Mat33, sqrt: real -> real)
    requires IsRotation(m) && IsSqrt(sqrt)
    ensures IsUnit(MatrixToQuat(m, sqrt)) && MatrixToQuat(m, sqrt).w >= 0.0
  {
    hide IsRotation, MatrixToQuat, FromRadicands, IsUnit;
    MatrixToQuatIs(m, sqrt);
    RadicandsNonnegative(m);
    ComponentSquares(RadicandsOf(m), sqrt);
    FourSquaresUnit(MatrixToQuat(m, sqrt), RadicandsOf(m));
  }

  // ----- and that quaternion stands for the same rotation, unless the rotation is a half turn

  lemma FourProduct(a: real, w: real, x: real, t: real)
    requires 4.0 * Square(a) == x && 4.0 * Square(w) == t
    ensures (4.0 * a * w) * (4.0 * a * w) == x * t
  {
    assert (4.0 * a * w) * (4.0 * a * w) == (4.0 * (a * a)) * (4.0 * (w * w));
  }

  lemma FourNonnegative(a: real, b: real)
    requires a >= 0.0 && b >= 0.0
    ensures 4.0 * a * b >= 0.0
  {
    NonnegativeProduct(a, b);
  }

  /** A product of two components from the product of their radicands. */
  lemma SignedProduct(v: real, w: real, x: real, t: real, d: real)
    requires w >= 0.0 && 4.0 * Square(v) == x && 4.0 * Square(w) == t && x * t == d * d
    requires if d < 0.0 then v <= 0.0 else v >= 0.0
    ensures 4.0 * v * w == d
  {
    var a, e := AbsR(v), AbsR(d);
    assert Square(a) == Square(v) by { SquareOfNegative(v); }
    FourProduct(a, w, x, t);
    assert e * e == d * d;
    FourNonnegative(a, w);
    RootsAgree(4.0 * a * w, e);
  }

  lemma SignOfRoot(sqrt: real -> real, radicand: real, d: real)
    requires IsSqrt(sqrt) && radicand >= 0.0
    ensures var v := CopySign(Root(sqrt, radicand), d); if d < 0.0 then v <= 0.0 else v >= 0.0
  {
    ComponentSquare(sqrt, radicand, d);
  }

  /** The products of the components with w are the entry differences. */
  lemma ProductsWithW(r: Radicands, q: Quat, sqrt: real -> real)
    requires IsSqrt(sqrt) && q == FromRadicands(r, sqrt) && r.Nonnegative() && r.Signs() && HasSquares(q, r)
    ensures 4.0 * q.x * q.w == r.d && 4.0 * q.y * q.w == r.e && 4.0 * q.z * q.w == r.f
  {
    hide CopySign, Root, Square;
    SignOfRoot(sqrt, r.x, r.d);
    SignOfRoot(sqrt, r.y, r.e);
    SignOfRoot(sqrt, r.z, r.f);
    SignedProduct(q.x, q.w, r.x, r.w, r.d);
    SignedProduct(q.y, q.w, r.y, r.w, r.e);
    SignedProduct(q.z, q.w, r.z, r.w, r.f);
  }

  lemma CancelPositive(t: real, p: real, q: real)
    requires t > 0.0 && t * p == t * q
    ensures p == q
  {
    if p < q {
      PositiveProduct(t, q - p);
    } else if q < p {
      PositiveProduct(t, p - q);
    }
  }

  /** A product of two other components from their products with w. */
  lemma OffDiagonal(x: real, y: real, w: real, t: real, d: real, e: real, g: real)
    requires 4.0 * x * w == d && 4.0 * y * w == e && 4.0 * Square(w) == t && t > 0.0
    requires d * e == t * g
    ensures 4.0 * x * y == g
  {
    assert d * e == (4.0 * x * w) * (4.0 * y * w) == (4.0 * (w * w)) * (4.0 * x * y);
    CancelPositive(t, 4.0 * x * y, g);
  }

  lemma OffDiagonals(q: Quat, r: Radicands)
    requires HasSquares(q, r) && r.w > 0.0 && r.Mixed()
    requires 4.0 * q.x * q.w == r.d && 4.0 * q.y * q.w == r.e && 4.0 * q.z * q.w == r.f
    ensures 4.0 * q.x * q.y == r.g && 4.0 * q.y * q.z == r.h && 4.0 * q.z * q.x == r.i
  {
    OffDiagonal(q.x, q.y, q.w, r.w, r.d, r.e, r.g);
    OffDiagonal(q.y, q.z, q.w, r.w, r.e, r.f, r.h);
    OffDiagonal(q.z, q.x, q.w, r.w, r.f, r.d, r.i);
  }

  /** A matrix with the radicands of q is the matrix of q. */
  lemma WithProducts(m: Mat33, q: Quat, r: Radicands)
    requires r == RadicandsOf(m) && HasSquares(q, r)
    requires 4.0 * q.x * q.w == r.d && 4.0 * q.y * q.w == r.e && 4.0 * q.z * q.w == r.f
    requires 4.0 * q.x * q.y == r.g && 4.0 * q.y * q.z == r.h && 4.0 * q.z * q.x == r.i
    ensures QuatToMatrix(q) == m
  {
    hide Square, QuatToMatrix;
    MatrixFromSquares(q);
    MatrixFromProducts(q);
  }

  lemma MatrixFromSquares(q: Quat)
    ensures var m := QuatToMatrix(q);
      && m.c0.x == 1.0 - 2.0 * Square(q.y) - 2.0 * Square(q.z)
      && m.c1.y == 1.0 - 2.0 * Square(q.x) - 2.0 * Square(q.z)
      && m.c2.z == 1.0 - 2.0 * Square(q.x) - 2.0 * Square(q.y)
  {
  }

  lemma MatrixFromProducts(q: Quat)
    ensures var m := QuatToMatrix(q);
      && 2.0 * m.c0.y == 4.0 * q.x * q.y - 4.0 * q.z * q.w && 2.0 * m.c1.x == 4.0 * q.x * q.y + 4.0 * q.z * q.w
      && 2.0 * m.c1.z == 4.0 * q.y * q.z - 4.0 * q.x * q.w && 2.0 * m.c2.y == 4.0 * q.y * q.z + 4.0 * q.x * q.w
      && 2.0 * m.c2.x == 4.0 * q.z * q.x - 4.0 * q.y * q.w && 2.0 * m.c0.z == 4.0 * q.z * q.x + 4.0 * q.y * q.w
  {
  }

  // ----- half turns

  lemma ZeroDifference(x: real, w: real, d: real)
    requires w == 0.0 && x * w == d * d
    ensures d == 0.0
  {
    SquarePositive(d);
    assert Square(d) == 0.0;
  }

  lemma HalfTurnSigns(r: Radicands, q: Quat, sqrt: real -> real)
    requires IsSqrt(sqrt) && q == FromRadicands(r, sqrt) && r.Nonnegative() && r.Signs() && r.w == 0.0
    ensures r.d == 0.0 && r.e == 0.0 && r.f == 0.0 && q.x >= 0.0 && q.y >= 0.0 && q.z >= 0.0
  {
    hide CopySign, Root;
    ZeroDifference(r.x, r.w, r.d);
    ZeroDifference(r.y, r.w, r.e);
    ZeroDifference(r.z, r.w, r.f);
    SignOfRoot(sqrt, r.x, r.d);
    SignOfRoot(sqrt, r.y, r.e);
    SignOfRoot(sqrt, r.z, r.f);
  }

  /** Among nonnegative components the products are the entry sums when those are nonnegative. */
  lemma HalfTurnProducts(q: Quat, r: Radicands)
    requires HasSquares(q, r) && r.Pairs() && q.x >= 0.0 && q.y >= 0.0 && q.z >= 0.0
    requires r.g >= 0.0 && r.h >= 0.0 && r.i >= 0.0
    ensures 4.0 * q.x * q.y == r.g && 4.0 * q.y * q.z == r.h && 4.0 * q.z * q.x == r.i
  {
    hide Square;
    SignedProduct(q.x, q.y, r.x, r.y, r.g);
    SignedProduct(q.y, q.z, r.y, r.z, r.h);
    SignedProduct(q.z, q.x, r.z, r.x, r.i);
  }

  lemma MatrixEntries(q: Quat)
    ensures var r := RadicandsOf(QuatToMatrix(q)); r.g == 4.0 * q.x * q.y && r.h == 4.0 * q.y * q.z && r.i == 4.0 * q.z * q.x
  {
  }

  lemma RecoveredMatrix(m: Mat33, r: Radicands, q: Quat, sqrt: real -> real)
    requires IsSqrt(sqrt) && r == RadicandsOf(m) && q == FromRadicands(r, sqrt)
    requires r.Nonnegative() && r.Signs() && r.Pairs() && r.Mixed()
    ensures QuatToMatrix(q) == m <==> r.w > 0.0 || (r.g >= 0.0 && r.h >= 0.0 && r.i >= 0.0)
  {
    hide FromRadicands, QuatToMatrix, HasSquares;
    ComponentSquares(r, sqrt);
    ProductsWithW(r, q, sqrt);
    if r.w > 0.0 {
      OffDiagonals(q, r);
      WithProducts(m, q, r);
    } else {
      HalfTurnSigns(r, q, sqrt);
      MatrixEntries(q);
      FourNonnegative(q.x, q.y);
      FourNonnegative(q.y, q.z);
      FourNonnegative(q.z, q.x);
      if r.g >= 0.0 && r.h >= 0.0 && r.i >= 0.0 {
        HalfTurnProducts(q, r);
        WithProducts(m, q, r);
      }
    }
  }

  /** quatToMatrix undoes matrixToQuat on every rotation that is not a half turn, and on a half turn if and
      only if no off-diagonal entry is negative. */
  lemma MatrixRoundTripExactly(m: Mat33, sqrt: real -> real)
    requires IsRotation(m) && IsSqrt(sqrt)
    ensures QuatToMatrix(MatrixToQuat(m, sqrt)) == m <==>
              m.c0.x + m.c1.y + m.c2.z > -1.0 || (m.c0.y >= 0.0 && m.c1.z >= 0.0 && m.c2.x >= 0.0)
  {
    hide QuatToMatrix, MatrixToQuat, IsRotation;
    var r, q := RadicandsOf(m), MatrixToQuat(m, sqrt);
    MatrixToQuatIs(m, sqrt);
    RadicandsNonnegative(m);
    RadicandProducts(m);
    RecoveredMatrix(m, r, q, sqrt);
    if r.w == 0.0 {
      HalfTurnSigns(r, q, sqrt);
    }
  }

  /** A half turn about a horizontal axis that lies between x and -y: neither round trip gives it back. */
  lemma HalfTurnIsLost(sqrt: real -> real)
    requires IsSqrt(sqrt)
    ensures var q := Quat(0.6, -0.8, 0.0, 0.0); var m := QuatToMatrix(q);
      && IsUnit(q) && MatrixToQuat(m, sqrt) !in {q, Negate(q)}
      && IsRotation(m) && QuatToMatrix(MatrixToQuat(m, sqrt)) != m
  {
    hide MatrixToQuat, IsRotation;
    var q := Quat(0.6, -0.8, 0.0, 0.0);
    QuatRoundTripExactly(q, sqrt);
    QuatToMatrixIsRotation(q);
    MatrixRoundTripExactly(QuatToMatrix(q), sqrt);
  }

  /** A half turn about a horizontal axis: the third column survives even where the first two do not. */
  lemma HorizontalHalfTurn(m: Mat33, sqrt: real -> real)
    requires IsRotation(m) && IsSqrt(sqrt) && m.c0.x + m.c1.y + m.c2.z == -1.0 && m.c2.x == 0.0 && m.c2.y == 0.0
    ensures QuatToMatrix(MatrixToQuat(m, sqrt)).c2 == m.c2
  {
    hide QuatToMatrix, MatrixToQuat, IsRotation, FromRadicands, HasSquares;
    var r, q := RadicandsOf(m), MatrixToQuat(m, sqrt);
    MatrixToQuatIs(m, sqrt);
    RadicandsNonnegative(m);
    RadicandProducts(m);
    ComponentSquares(r, sqrt);
    HalfTurnSigns(r, q, sqrt);
    ProductsWithW(r, q, sqrt);
    HorizontalColumn(m, r, q);
  }

  lemma HorizontalColumn(m: Mat33, r: Radicands, q: Quat)
    requires r == RadicandsOf(m) && HasSquares(q, r) && r.Pairs() && m.c2.x == 0.0 && m.c2.y == 0.0
    requires r.d == 0.0 && r.e == 0.0 && r.f == 0.0 && q.x >= 0.0 && q.y >= 0.0 && q.z >= 0.0
    requires 4.0 * q.x * q.w == r.d && 4.0 * q.y * q.w == r.e
    ensures QuatToMatrix(q).c2 == m.c2
  {
    hide QuatToMatrix, Square;
    SignedProduct(q.y, q.z, r.y, r.z, r.h);
    SignedProduct(q.z, q.x, r.z, r.x, r.i);
    MatrixFromSquares(q);
    MatrixFromProducts(q);
  }
}
