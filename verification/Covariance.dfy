/** The covariance side of the fusion: the measurement covariance S, the gain, the update of the 6x6
    covariance and the divergence test (CompositeSensors.cpp, mat.h). */
module Covariance {
  import opened Reals
  import opened Space
  import opened Blocks

  // ----- entries in the code's indexing: Entry(m, c, r) is m[c][r]

  function At(v: Vec3, r: nat): real
    requires r < 3
  {
    if r == 0 then v.x else if r == 1 then v.y else v.z
  }

  function Entry(m: Mat33, c: nat, r: nat): real
    requires c < 3 && r < 3
  {
    At(if c == 0 then m.c0 else if c == 1 then m.c1 else m.c2, r)
  }

  function CrossMatrix(p: Vec3, diag: real): Mat33 {
    Mat33(Vec3(diag, p.z, -p.y), Vec3(-p.z, diag, p.x), Vec3(p.y, -p.x, diag))
  }

  lemma CrossMatrixIsCrossProduct(p: Vec3, diag: real, v: Vec3)
    ensures MulV(CrossMatrix(p, diag), v) == Add(Scale(v, diag), Cross(p, v))
  {
  }

  // ----- scaleCovariance

  /** Row r of a. */
  function RowOf(a: Mat33, r: nat): Vec3
    requires r < 3
  {
    Vec3(Entry(a, 0, r), Entry(a, 1, r), Entry(a, 2, r))
  }

  /** v after its inner loop has reached k, for row u. */
  function InnerSum(u: Vec3, p: Mat33, c: nat, k: nat): real
    requires c < k <= 3
    decreases k
  {
    if k == c + 1 then At(u, c) * Entry(p, c, c) * 0.5 else InnerSum(u, p, c, k - 1) + At(u, k - 1) * Entry(p, c, k - 1)
  }

  /** apat after its loop has reached c, for rows u and w. */
  function OuterSum(u: Vec3, w: Vec3, p: Mat33, c: nat): real
    requires c <= 3
    decreases c
  {
    if c == 0 then 0.0 else OuterSum(u, w, p, c - 1) + 2.0 * InnerSum(u, p, c - 1, 3) * At(w, c - 1)
  }

  function ScaledEntry(a: Mat33, p: Mat33, r: nat, j: nat): real
    requires r < 3 && j < 3
  {
    OuterSum(RowOf(a, r), RowOf(a, j), p, 3)
  }

  function ScaledCovariance(a: Mat33, p: Mat33): Mat33 {
    var s := (r: nat, j: nat) requires r < 3 && j < 3 => ScaledEntry(a, p, r, j);
    Mat33(Vec3(s(0, 0), s(0, 1), s(0, 2)), Vec3(s(0, 1), s(1, 1), s(1, 2)), Vec3(s(0, 2), s(1, 2), s(2, 2)))
  }

  method ScaleCovariance(a: Mat33, p: Mat33) returns (s: Mat33)
    ensures s == ScaledCovariance(a, p)
  {
    var apat := new real[3, 3];
    for r := 0 to 3
      invariant forall r', j' :: 0 <= r' < r && r' <= j' < 3 ==>
                  apat[r', j'] == ScaledEntry(a, p, r', j') && apat[j', r'] == ScaledEntry(a, p, r', j')
    {
      for j := r to 3
        invariant forall r', j' :: 0 <= r' < r && r' <= j' < 3 ==>
                    apat[r', j'] == ScaledEntry(a, p, r', j') && apat[j', r'] == ScaledEntry(a, p, r', j')
        invariant forall j' :: r <= j' < j ==>
                    apat[r, j'] == ScaledEntry(a, p, r, j') && apat[j', r] == ScaledEntry(a, p, r, j')
      {
        var sum := SumOverColumns(a, p, r, j);
        apat[j, r] := sum;
        apat[r, j] := sum;
      }
    }
    s := Mat33(Vec3(apat[0, 0], apat[0, 1], apat[0, 2]), Vec3(apat[1, 0], apat[1, 1], apat[1, 2]),
               Vec3(apat[2, 0], apat[2, 1], apat[2, 2]));
  }

  /** The two inner loops of scaleCovariance. */
  method SumOverColumns(a: Mat33, p: Mat33, r: nat, j: nat) returns (sum: real)
    requires r < 3 && j < 3
    ensures sum == ScaledEntry(a, p, r, j)
  {
    ghost var u, w := RowOf(a, r), RowOf(a, j);
    sum := 0.0;
    for c := 0 to 3
      invariant sum == OuterSum(u, w, p, c)
    {
      var v := Entry(a, c, r) * Entry(p, c, c) * 0.5;
      for k := c + 1 to 3
        invariant v == InnerSum(u, p, c, k)
      {
        v := v + Entry(a, k, r) * Entry(p, c, k);
      }
      sum := sum + 2.0 * v * Entry(a, c, j);
    }
  }

  /** The combination of off-diagonal covariances that scaleCovariance mixes in by mistake. */
  function Twist(b: Vec3, p: Mat33): real { b.x * p.c1.z - b.y * p.c0.z + b.z * p.c0.y }

  function TwistError(b: Vec3, t: real): Mat33 {
    Mat33(Vec3(0.0, -b.z * t, b.y * t), Vec3(-b.z * t, 0.0, -b.x * t), Vec3(b.y * t, -b.x * t, 0.0))
  }

  function Sandwich(a: Mat33, p: Mat33): Mat33 { Mul(Mul(a, p), Transpose(a)) }

  lemma InnerSums(u: Vec3, p: Mat33)
    ensures InnerSum(u, p, 0, 3) == u.x * p.c0.x * 0.5 + u.y * p.c0.y + u.z * p.c0.z
    ensures InnerSum(u, p, 1, 3) == u.y * p.c1.y * 0.5 + u.z * p.c1.z
    ensures InnerSum(u, p, 2, 3) == u.z * p.c2.z * 0.5
  {
    assert InnerSum(u, p, 0, 2) == InnerSum(u, p, 0, 1) + u.y * p.c0.y;
  }

  lemma OuterSums(u: Vec3, w: Vec3, p: Mat33)
    ensures OuterSum(u, w, p, 3) == 2.0 * InnerSum(u, p, 0, 3) * w.x + 2.0 * InnerSum(u, p, 1, 3) * w.y + 2.0 * InnerSum(u, p, 2, 3) * w.z
  {
    assert OuterSum(u, w, p, 1) == OuterSum(u, w, p, 0) + 2.0 * InnerSum(u, p, 0, 3) * w.x;
    assert OuterSum(u, w, p, 2) == OuterSum(u, w, p, 1) + 2.0 * InnerSum(u, p, 1, 3) * w.y;
  }

  /** scaleCovariance differs from the quadratic form of the two rows by their cross product against
      the off-diagonal entries of p. */
  lemma OuterSumDiffers(u: Vec3, w: Vec3, p: Mat33)
    requires Symmetric(p)
    ensures OuterSum(u, w, p, 3) == Dot(u, MulV(p, w)) - Twist(Cross(u, w), p)
  {
    InnerSums(u, p);
    OuterSums(u, w, p);
    ClosedForm(u.x, u.y, u.z, w.x, w.y, w.z, p.c0.x, p.c1.y, p.c2.z, p.c0.y, p.c0.z, p.c1.z,
               InnerSum(u, p, 0, 3), InnerSum(u, p, 1, 3), InnerSum(u, p, 2, 3));
    QuadraticForm(u, w, p);
  }

  lemma ClosedForm(a: real, b: real, c: real, d: real, e: real, f: real, p: real, q: real, r: real, s: real, t: real, u: real,
                   v0: real, v1: real, v2: real)
    requires v0 == a * p * 0.5 + b * s + c * t && v1 == b * q * 0.5 + c * u && v2 == c * r * 0.5
    ensures 2.0 * v0 * d + 2.0 * v1 * e + 2.0 * v2 * f
         == a * p * d + b * q * e + c * r * f + 2.0 * (b * s * d + c * t * d + c * u * e)
  {
  }

  lemma QuadraticForm(u: Vec3, w: Vec3, p: Mat33)
    requires Symmetric(p)
    ensures Dot(u, MulV(p, w)) - Twist(Cross(u, w), p)
         == u.x * p.c0.x * w.x + u.y * p.c1.y * w.y + u.z * p.c2.z * w.z
            + 2.0 * (u.y * p.c0.y * w.x + u.z * p.c0.z * w.x + u.z * p.c1.z * w.y)
  {
    QuadraticScalars(u.x, u.y, u.z, w.x, w.y, w.z, p.c0.x, p.c1.y, p.c2.z, p.c0.y, p.c0.z, p.c1.z);
  }

  lemma QuadraticScalars(a: real, b: real, c: real, d: real, e: real, f: real, p: real, q: real, r: real, s: real, t: real, u: real)
    ensures a * (p * d + s * e + t * f) + b * (s * d + q * e + u * f) + c * (t * d + u * e + r * f)
            - ((b * f - c * e) * u - (c * d - a * f) * t + (a * e - b * d) * s)
         == a * p * d + b * q * e + c * r * f + 2.0 * (b * s * d + c * t * d + c * u * e)
  {
  }

  lemma SandwichEntry(a: Mat33, p: Mat33, r: nat, j: nat)
    requires r < 3 && j < 3 && Symmetric(p)
    ensures Entry(Sandwich(a, p), j, r) == Dot(RowOf(a, r), MulV(p, RowOf(a, j)))
  {
    var w := RowOf(a, j);
    MulVAssoc(a, p, w);
    Adjoint(Transpose(a), RowOf(a, r), w);
  }

  lemma TwistScales(b: Vec3, t: real, p: Mat33)
    ensures Twist(Scale(b, t), p) == t * Twist(b, p)
  {
  }

  lemma NoTwist(p: Mat33)
    ensures Twist(ZERO3, p) == 0.0
  {
  }

  lemma CrossOfRows(b: Vec3)
    ensures var l := CrossMatrix(b, 0.0);
      && Cross(RowOf(l, 0), RowOf(l, 0)) == Cross(RowOf(l, 1), RowOf(l, 1)) == Cross(RowOf(l, 2), RowOf(l, 2)) == ZERO3
      && Cross(RowOf(l, 0), RowOf(l, 1)) == Scale(b, b.z)
      && Cross(RowOf(l, 0), RowOf(l, 2)) == Scale(b, -b.y)
      && Cross(RowOf(l, 1), RowOf(l, 2)) == Scale(b, b.x)
  {
  }

  lemma SandwichSymmetric(a: Mat33, p: Mat33)
    requires Symmetric(p)
    ensures Symmetric(Sandwich(a, p))
  {
    TransposeMul(Mul(a, p), Transpose(a));
    TransposeMul(a, p);
    TransposeAdd(a, a);
    MulAssoc(a, p, Transpose(a));
  }

  /** For the code's L the error is the off-diagonal matrix below. */
  lemma ScaledCross(b: Vec3, p: Mat33)
    requires Symmetric(p)
    ensures ScaledCovariance(CrossMatrix(b, 0.0), p)
         == AddM(Sandwich(CrossMatrix(b, 0.0), p), TwistError(b, Twist(b, p)))
  {
    hide Sandwich, Twist, TwistError, ScaledEntry, RowOf, Cross, CrossMatrix, Scale;
    var l := CrossMatrix(b, 0.0);
    CrossOfRows(b);
    TwistScales(b, b.x, p);
    TwistScales(b, -b.y, p);
    TwistScales(b, b.z, p);
    NoTwist(p);
    SandwichSymmetric(l, p);
    ScaledEntryIs(l, p, 0, 0);
    ScaledEntryIs(l, p, 0, 1);
    ScaledEntryIs(l, p, 0, 2);
    ScaledEntryIs(l, p, 1, 1);
    ScaledEntryIs(l, p, 1, 2);
    ScaledEntryIs(l, p, 2, 2);
    SameEntries(ScaledCovariance(l, p), Sandwich(l, p), b, Twist(b, p));
  }

  lemma ScaledEntryIs(a: Mat33, p: Mat33, r: nat, j: nat)
    requires r < 3 && j < 3 && Symmetric(p)
    ensures ScaledEntry(a, p, r, j) == Entry(Sandwich(a, p), j, r) - Twist(Cross(RowOf(a, r), RowOf(a, j)), p)
  {
    OuterSumDiffers(RowOf(a, r), RowOf(a, j), p);
    SandwichEntry(a, p, r, j);
  }

  lemma SameEntries(s: Mat33, e: Mat33, b: Vec3, t: real)
    requires Symmetric(s) && Symmetric(e)
    requires s.c0.x == e.c0.x && s.c1.y == e.c1.y && s.c2.z == e.c2.z
    requires s.c0.y == e.c1.x - b.z * t && s.c0.z == e.c2.x + b.y * t && s.c1.z == e.c2.y - b.x * t
    ensures s == AddM(e, TwistError(b, t))
  {
  }

  lemma ProductZero(a: real, t: real)
    requires a * t == 0.0
    ensures a == 0.0 || t == 0.0
  {
  }

  lemma ErrorVanishes(e: Mat33, b: Vec3, t: real)
    ensures AddM(e, TwistError(b, t)) == e <==> b == ZERO3 || t == 0.0
  {
    if AddM(e, TwistError(b, t)) == e {
      ProductZero(b.x, t);
      ProductZero(b.y, t);
      ProductZero(b.z, t);
    }
  }

  /** scaleCovariance computes A*P*transpose(A), as its comment says, if and only if the measured vector is
      zero or the off-diagonal covariances cancel along it. */
  lemma ScaledCovarianceExactly(b: Vec3, p: Mat33)
    requires Symmetric(p)
    ensures ScaledCovariance(CrossMatrix(b, 0.0), p) == Sandwich(CrossMatrix(b, 0.0), p)
       <==> b == ZERO3 || Twist(b, p) == 0.0
  {
    ScaledCross(b, p);
    ErrorVanishes(Sandwich(CrossMatrix(b, 0.0), p), b, Twist(b, p));
  }
}
