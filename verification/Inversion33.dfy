/** The general inversion applied to the 3x3 matrix S of the fusion. */
module Inversion33 {
  import opened Basics
  import opened Space
  import G = GaussJordan
  import L = LinearSystems

  ghost predicate InKernel33(s: Mat33, x: Vec3) { MulV(s, x) == ZERO3 }

  ghost predicate Singular33(s: Mat33) { exists x :: x != ZERO3 && InKernel33(s, x) }

  ghost predicate IsInverse(s: Mat33, si: Mat33) {
    Mul(s, si) == Diagonal(1.0) && Mul(si, s) == Diagonal(1.0)
  }

  lemma InverseIsUnique(s: Mat33, a: Mat33, b: Mat33)
    requires IsInverse(s, a) && IsInverse(s, b)
    ensures a == b
  {
    hide Mul, Diagonal;
    MulAssoc(a, s, b);
    MulIdentity(a);
    MulIdentity(b);
  }

  // ----- rows and vectors as sequences

  function ToSeq(v: Vec3): (r: L.Vec)
    ensures |r| == 3
  {
    [v.x, v.y, v.z]
  }

  /** Row i of the sequence form is what the code indexes as m[i]. */
  function ToRows(m: Mat33): (r: L.Matrix)
    ensures L.IsSquare(r, 3)
  {
    [ToSeq(m.c0), ToSeq(m.c1), ToSeq(m.c2)]
  }

  function ToVec(r: L.Vec): Vec3
    requires |r| == 3
  {
    Vec3(r[0], r[1], r[2])
  }

  function ToMat(r: L.Matrix): Mat33
    requires L.IsSquare(r, 3)
  {
    Mat33(ToVec(r[0]), ToVec(r[1]), ToVec(r[2]))
  }

  lemma DotOfSeq(a: L.Vec, b: L.Vec)
    requires |a| == 3 && |b| == 3
    ensures L.Dot(a, b) == Dot(ToVec(a), ToVec(b))
  {
    assert L.DotTo(a, b, 1) == L.DotTo(a, b, 0) + a[0] * b[0];
    assert L.DotTo(a, b, 2) == L.DotTo(a, b, 1) + a[1] * b[1];
    assert L.DotTo(a, b, 3) == L.DotTo(a, b, 2) + a[2] * b[2];
  }

  /** A product of sequence forms is the product the other way round. */
  lemma ProductOfRows(a: L.Matrix, b: L.Matrix)
    requires L.IsSquare(a, 3) && L.IsSquare(b, 3)
    ensures ToMat(L.Product(a, b, 3)) == Mul(ToMat(b), ToMat(a))
  {
    var p := L.Product(a, b, 3);
    forall r, c | 0 <= r < 3 && 0 <= c < 3
      ensures p[r][c] == Dot(ToVec(L.Column(b, 3, c)), ToVec(a[r]))
    {
      DotOfSeq(a[r], L.Column(b, 3, c));
      DotLinear(ToVec(a[r]), ToVec(L.Column(b, 3, c)), ZERO3, 0.0);
    }
    hide Dot;
    assert Transpose(ToMat(b)).c0 == ToVec(L.Column(b, 3, 0));
    assert Transpose(ToMat(b)).c1 == ToVec(L.Column(b, 3, 1));
    assert Transpose(ToMat(b)).c2 == ToVec(L.Column(b, 3, 2));
  }

  lemma IdentityOfRows()
    ensures ToMat(L.Identity(3)) == Diagonal(1.0)
  {
  }

  lemma KernelOfRows(s: Mat33, x: L.Vec)
    requires Symmetric(s) && |x| == 3
    ensures L.InKernel(ToRows(s), x) <==> InKernel33(s, ToVec(x))
  {
    DotOfSeq(ToSeq(s.c0), x);
    DotOfSeq(ToSeq(s.c1), x);
    DotOfSeq(ToSeq(s.c2), x);
    hide Dot;
    assert ToRows(s)[0] == ToSeq(s.c0) && ToRows(s)[1] == ToSeq(s.c1) && ToRows(s)[2] == ToSeq(s.c2);
  }

  lemma SingularOfRows(s: Mat33)
    requires Symmetric(s)
    ensures L.Singular(ToRows(s)) <==> Singular33(s)
  {
    hide MulV;
    if L.Singular(ToRows(s)) {
      var x :| L.InKernel(ToRows(s), x) && x != L.Zeros(3);
      KernelOfRows(s, x);
      assert ToVec(x) != ZERO3;
    }
    if Singular33(s) {
      var v :| v != ZERO3 && InKernel33(s, v);
      KernelOfRows(s, ToSeq(v));
      assert ToVec(ToSeq(v)) == v;
      assert ToSeq(v) != L.Zeros(3);
    }
  }

  /** invert on a symmetric 3x3 matrix: the two-sided inverse, exactly when there is one. */
  method Invert33(s: Mat33) returns (result: Option<Mat33>)
    requires Symmetric(s)
    ensures result.Some? <==> !Singular33(s)
    ensures result.Some? ==> IsInverse(s, result.value)
  {
    var r := G.Invert(ToRows(s), 3);
    SingularOfRows(s);
    if r.Some? {
      ProductOfRows(r.value, ToRows(s));
      ProductOfRows(ToRows(s), r.value);
      IdentityOfRows();
      assert ToMat(ToRows(s)) == s;
      result := Some(ToMat(r.value));
    } else {
      result := None;
    }
  }
}
