/** Quadratic forms of symmetric 3x3 matrices, and when a symmetric system can be solved. */
module Forms33 {
  import opened Reals
  import opened Space
  import opened Quaternion
  import opened FusionSteps
  import opened Inversion33

  function Form33(m: Mat33, y: Vec3): real { Dot(y, MulV(m, y)) }

  ghost predicate Positive33(m: Mat33) { forall y :: Form33(m, y) >= 0.0 }

  ghost predicate Definite33(m: Mat33) { forall y :: y != ZERO3 ==> Form33(m, y) > 0.0 }

  lemma FormAt(m: Mat33, y: Vec3)
    requires Positive33(m)
    ensures Form33(m, y) >= 0.0
  {
  }

  lemma FormAdds(a: Mat33, b: Mat33, y: Vec3)
    ensures Form33(AddM(a, b), y) == Form33(a, y) + Form33(b, y)
  {
    hide MulV, Dot;
    MulVAdd(a, b, y);
    DotLinear(y, MulV(a, y), MulV(b, y), 0.0);
  }

  lemma SymmetricAdjoint(m: Mat33, u: Vec3, v: Vec3)
    requires Symmetric(m)
    ensures Dot(u, MulV(m, v)) == Dot(MulV(m, u), v) && Dot(u, MulV(m, v)) == Dot(v, MulV(m, u))
  {
    hide MulV, Dot;
    Adjoint(m, u, v);
    DotLinear(MulV(m, u), v, v, 0.0);
  }

  lemma FormOfSum(m: Mat33, u: Vec3, v: Vec3, t: real)
    requires Symmetric(m)
    ensures Form33(m, Add(u, Scale(v, t))) == Form33(m, u) + 2.0 * (t * Dot(u, MulV(m, v))) + t * (t * Form33(m, v))
  {
    hide MulV, Dot, Add, Scale, Symmetric;
    var mu, mv := MulV(m, u), MulV(m, v);
    MulVLinear(m, u, Scale(v, t), 0.0);
    MulVLinear(m, v, v, t);
    DotDistributes(u, Scale(v, t), Add(mu, Scale(mv, t)));
    DotLinear(u, mu, Scale(mv, t), 0.0);
    DotLinear(u, mv, mv, t);
    DotLinear(Scale(v, t), mu, Scale(mv, t), 0.0);
    DotLinear(Scale(v, t), mv, mv, t);
    ScaledDot(v, mu, t);
    ScaledDot(v, mv, t);
    SymmetricAdjoint(m, u, v);
    Regroup(Dot(u, mu), Dot(u, mv), Dot(v, mv), t);
  }

  lemma Regroup(a: real, b: real, c: real, t: real)
    ensures a + b * t + (t * b + (t * c) * t) == a + 2.0 * (t * b) + t * (t * c)
  {
  }

  /** The inequality of Cauchy and Schwarz for a positive form. */
  lemma CauchySchwarz(m: Mat33, u: Vec3, v: Vec3)
    requires Symmetric(m) && Positive33(m)
    ensures Dot(u, MulV(m, v)) * Dot(u, MulV(m, v)) <= Form33(m, u) * Form33(m, v)
  {
    hide MulV, Dot, Add, Scale, Symmetric, Form33;
    var a, b, c := Form33(m, u), Dot(u, MulV(m, v)), Form33(m, v);
    FormAt(m, u);
    FormAt(m, v);
    if c > 0.0 {
      FormOfSum(m, u, v, -(b / c));
      FormAt(m, Add(u, Scale(v, -(b / c))));
      AtMinimum(a, b, c, b / c);
    } else if b != 0.0 {
      var t := -(a + 1.0) / (2.0 * b);
      FormOfSum(m, u, v, t);
      FormAt(m, Add(u, Scale(v, t)));
    }
  }

  lemma AtMinimum(a: real, b: real, c: real, t: real)
    requires c > 0.0 && t * c == b && a + 2.0 * (-t * b) + -t * (-t * c) >= 0.0
    ensures b * b <= a * c
  {
    assert a - t * b >= 0.0 by { assert -t * (-t * c) == t * b; }
    NonnegativeProduct(a - t * b, c);
    assert (a - t * b) * c == a * c - b * (t * c);
  }

  // ----- kernels of positive forms

  lemma ZeroFormIsKernel(m: Mat33, y: Vec3)
    requires Symmetric(m) && Positive33(m) && Form33(m, y) == 0.0
    ensures InKernel33(m, y)
  {
    hide MulV, Dot, Symmetric, Positive33, Form33;
    var w := MulV(m, y);
    CauchySchwarz(m, w, y);
    SymmetricAdjoint(m, w, y);
    assert Dot(w, w) * Dot(w, w) <= 0.0;
    SquareVanishes(Dot(w, w));
    DotPositive(w);
  }

  lemma KernelForm(m: Mat33, y: Vec3)
    requires InKernel33(m, y)
    ensures Form33(m, y) == 0.0
  {
    TimesZero(m, y);
  }

  // ----- nonsingular systems: the solution by cofactors

  function Rows(m: Mat33): Mat33 { Transpose(m) }

  function Solution(m: Mat33, h: Vec3): Vec3 {
    var r := Rows(m);
    Add(Add(Scale(Cross(r.c1, r.c2), h.x), Scale(Cross(r.c2, r.c0), h.y)), Scale(Cross(r.c0, r.c1), h.z))
  }

  function RowVolume(m: Mat33): real { Dot(Rows(m).c0, Cross(Rows(m).c1, Rows(m).c2)) }

  lemma RowCombination(r: Vec3, a: Vec3, b: Vec3, c: Vec3, x: real, y: real, z: real)
    ensures Dot(r, Add(Add(Scale(a, x), Scale(b, y)), Scale(c, z))) == Dot(r, a) * x + Dot(r, b) * y + Dot(r, c) * z
  {
    hide Dot, Add, Scale;
    DotLinear(r, Add(Scale(a, x), Scale(b, y)), Scale(c, z), 0.0);
    DotLinear(r, Scale(a, x), Scale(b, y), 0.0);
    DotLinear(r, a, a, x);
    DotLinear(r, b, b, y);
    DotLinear(r, c, c, z);
  }

  lemma SelfTriple(u: Vec3, v: Vec3)
    ensures Dot(u, Cross(u, v)) == 0.0 && Dot(v, Cross(u, v)) == 0.0
  {
  }

  lemma SolutionSolves(m: Mat33, h: Vec3)
    ensures MulV(m, Solution(m, h)) == Scale(h, RowVolume(m))
  {
    hide Dot, Cross, Add, Scale;
    var r := Rows(m);
    var a, b, c := Cross(r.c1, r.c2), Cross(r.c2, r.c0), Cross(r.c0, r.c1);
    RowCombination(r.c0, a, b, c, h.x, h.y, h.z);
    RowCombination(r.c1, a, b, c, h.x, h.y, h.z);
    RowCombination(r.c2, a, b, c, h.x, h.y, h.z);
    SelfTriple(r.c1, r.c2);
    SelfTriple(r.c2, r.c0);
    SelfTriple(r.c0, r.c1);
    TripleTurns(r.c0, r.c1, r.c2);
    TripleTurns(r.c1, r.c2, r.c0);
    ScaleParts(h, RowVolume(m));
  }

  lemma ScaleParts(h: Vec3, t: real)
    ensures Scale(h, t) == Vec3(t * h.x, t * h.y, t * h.z)
  {
  }

  /** Rows without volume have a common perpendicular. */
  lemma NoVolumeIsSingular(m: Mat33)
    requires RowVolume(m) == 0.0
    ensures Singular33(m)
  {
    hide Dot, Cross;
    var r := Rows(m);
    if Cross(r.c1, r.c2) != ZERO3 {
      SelfTriple(r.c1, r.c2);
      PerpendicularToRows(m, Cross(r.c1, r.c2));
    } else if r.c1 != ZERO3 || r.c2 != ZERO3 {
      var v := if r.c1 != ZERO3 then r.c1 else r.c2;
      ParallelRows(r.c1, r.c2, v);
      var w := AcrossBoth(v, r.c0);
      AlsoPerpendicular(r.c1, v, w);
      AlsoPerpendicular(r.c2, v, w);
      PerpendicularToRows(m, w);
    } else {
      var w := AcrossBoth(Vec3(1.0, 0.0, 0.0), r.c0);
      DotZero(w);
      PerpendicularToRows(m, w);
    }
  }

  lemma DotZero(w: Vec3)
    ensures Dot(ZERO3, w) == 0.0
  {
  }

  lemma PerpendicularToRows(m: Mat33, w: Vec3)
    requires w != ZERO3 && Dot(Rows(m).c0, w) == 0.0 && Dot(Rows(m).c1, w) == 0.0 && Dot(Rows(m).c2, w) == 0.0
    ensures Singular33(m)
  {
    assert InKernel33(m, w);
  }

  /** A nonzero vector perpendicular to two vectors. */
  lemma AcrossBoth(v: Vec3, u: Vec3) returns (w: Vec3)
    requires v != ZERO3
    ensures w != ZERO3 && Dot(v, w) == 0.0 && Dot(u, w) == 0.0
  {
    hide Dot, Cross, Perpendicular;
    if Cross(v, u) != ZERO3 {
      w := Cross(v, u);
      SelfTriple(v, u);
    } else {
      w := Perpendicular(v);
      PerpendicularIsNonzero(v);
      DotLinear(v, w, w, 0.0);
      ParallelRows(v, u, v);
      AlsoPerpendicular(u, v, w);
    }
  }

  /** u is v times a number, in the form of an equation. */
  ghost predicate Along(u: Vec3, v: Vec3) { exists k: real, l: real :: l != 0.0 && Scale(u, l) == Scale(v, k) }

  lemma ParallelRows(a: Vec3, b: Vec3, v: Vec3)
    requires Cross(a, b) == ZERO3 && v != ZERO3 && (v == a || v == b)
    ensures Along(a, v) && Along(b, v)
  {
    hide Along, Cross, Scale;
    AlongSelf(v);
    if v == a {
      AlongOther(a, b);
    } else {
      CrossTurnsSign(a, b);
      MinusZero();
      AlongOther(b, a);
    }
  }

  lemma MinusZero()
    ensures Scale(ZERO3, -1.0) == ZERO3
  {
  }

  lemma AlongSelf(v: Vec3)
    ensures Along(v, v)
  {
    hide Scale;
    assert Scale(v, 1.0) == Scale(v, 1.0);
  }

  lemma AlongOther(v: Vec3, u: Vec3)
    requires v != ZERO3 && Cross(v, u) == ZERO3
    ensures Along(u, v)
  {
    hide Dot, Cross;
    DotPositive(v);
    TripleProduct(v, v, u);
    CrossOfZero(v);
    assert Sub(Scale(v, Dot(v, u)), Scale(u, Dot(v, v))) == ZERO3;
    assert Scale(u, Dot(v, v)) == Scale(v, Dot(v, u));
  }

  lemma CrossOfZero(v: Vec3)
    ensures Cross(v, ZERO3) == ZERO3
  {
  }

  lemma AlsoPerpendicular(u: Vec3, v: Vec3, w: Vec3)
    requires Along(u, v) && Dot(v, w) == 0.0
    ensures Dot(u, w) == 0.0
  {
    hide Dot;
    var k, l :| l != 0.0 && Scale(u, l) == Scale(v, k);
    ScaledDot(u, w, l);
    ScaledDot(v, w, k);
    assert l * Dot(u, w) == 0.0;
  }

  lemma NonsingularSolvable(m: Mat33, h: Vec3)
    requires !Singular33(m)
    ensures exists y :: MulV(m, y) == h
  {
    hide MulV, Dot, Cross;
    if RowVolume(m) == 0.0 {
      NoVolumeIsSingular(m);
    }
    var t := RowVolume(m);
    SolutionSolves(m, h);
    MulVLinear(m, Solution(m, h), h, 1.0 / t);
    ScaledThere(h, t, 1.0 / t);
    assert MulV(m, Scale(Solution(m, h), 1.0 / t)) == h;
  }

  lemma ScaledThere(h: Vec3, t: real, i: real)
    requires t * i == 1.0
    ensures Scale(Scale(h, t), i) == h
  {
    assert (h.x * t) * i == h.x * (t * i) && (h.y * t) * i == h.y * (t * i) && (h.z * t) * i == h.z * (t * i);
  }

  /** A nonsingular symmetric matrix has an inverse. */
  lemma InverseExists(s: Mat33) returns (si: Mat33)
    requires Symmetric(s) && !Singular33(s)
    ensures IsInverse(s, si)
  {
    hide MulV, Singular33;
    NonsingularSolvable(s, Diagonal(1.0).c0);
    NonsingularSolvable(s, Diagonal(1.0).c1);
    NonsingularSolvable(s, Diagonal(1.0).c2);
    var x :| MulV(s, x) == Diagonal(1.0).c0;
    var y :| MulV(s, y) == Diagonal(1.0).c1;
    var z :| MulV(s, z) == Diagonal(1.0).c2;
    si := Mat33(x, y, z);
    assert Mul(s, si) == Diagonal(1.0);
    LeftInverse(s, si);
  }

  lemma LeftInverse(s: Mat33, a: Mat33)
    requires Symmetric(s) && Mul(s, a) == Diagonal(1.0)
    ensures Mul(a, s) == Diagonal(1.0)
  {
    hide Mul;
    TransposeMul(s, a);
    MulAssoc(Transpose(a), s, a);
    MulIdentity(a);
    MulIdentity(Transpose(a));
    assert Transpose(Diagonal(1.0)) == Diagonal(1.0);
  }

  // ----- singular systems: solvable if the right-hand side is perpendicular to the kernel

  /** The outer product of v with itself. */
  function Outer(v: Vec3): Mat33 { Mat33(Scale(v, v.x), Scale(v, v.y), Scale(v, v.z)) }

  lemma OuterApplied(v: Vec3, x: Vec3)
    ensures MulV(Outer(v), x) == Scale(v, Dot(v, x))
  {
    OuterEntry(v, x, v.x);
    OuterEntry(v, x, v.y);
    OuterEntry(v, x, v.z);
    OuterRows(v);
    hide Dot, Scale;
    ScaleParts(v, Dot(v, x));
  }

  lemma OuterRows(v: Vec3)
    ensures Transpose(Outer(v)) == Outer(v)
  {
  }

  lemma OuterEntry(v: Vec3, x: Vec3, t: real)
    ensures Dot(Scale(v, t), x) == Dot(v, x) * t
  {
    ScaledDot(v, x, t);
  }

  lemma OuterForm(v: Vec3, y: Vec3)
    ensures Form33(Outer(v), y) == Square(Dot(v, y))
  {
    hide MulV, Dot, Outer, Scale;
    OuterApplied(v, y);
    DotLinear(y, v, v, Dot(v, y));
    DotLinear(y, v, v, 0.0);
  }

  /** Everything m maps to zero is perpendicular to k. */
  ghost predicate Avoids(m: Mat33, k: Vec3) { forall z :: InKernel33(m, z) ==> Dot(k, z) == 0.0 }

  /** m with k added to its range. */
  function Plus(m: Mat33, k: Vec3): Mat33 { AddM(m, Outer(k)) }

  lemma PlusForm(m: Mat33, k: Vec3, y: Vec3)
    ensures Form33(Plus(m, k), y) == Form33(m, y) + Square(Dot(k, y))
  {
    hide Form33, Outer, AddM;
    FormAdds(m, Outer(k), y);
    OuterForm(k, y);
  }

  lemma PlusKeepsPositive(m: Mat33, k: Vec3)
    requires Symmetric(m) && Positive33(m)
    ensures Symmetric(Plus(m, k)) && Positive33(Plus(m, k))
  {
    hide Form33, MulV, Dot, Outer;
    OuterRows(k);
    TransposeAdd(m, Outer(k));
    forall y ensures Form33(Plus(m, k), y) >= 0.0 {
      PlusForm(m, k, y);
      FormAt(m, y);
      SquarePositive(Dot(k, y));
    }
  }

  lemma PlusKernel(m: Mat33, k: Vec3, z: Vec3)
    requires Symmetric(m) && Positive33(m) && InKernel33(Plus(m, k), z)
    ensures InKernel33(m, z) && Dot(k, z) == 0.0
  {
    hide Form33, MulV, Dot, Plus, Symmetric, Positive33;
    KernelForm(Plus(m, k), z);
    PlusForm(m, k, z);
    FormAt(m, z);
    SquarePositive(Dot(k, z));
    ZeroFormIsKernel(m, z);
  }

  lemma PlusAvoids(m: Mat33, k: Vec3, j: Vec3)
    requires Symmetric(m) && Positive33(m) && (j == k || Avoids(m, j))
    ensures Avoids(Plus(m, k), j)
  {
    hide InKernel33, Dot, Plus, Symmetric, Positive33;
    forall z | InKernel33(Plus(m, k), z) ensures Dot(j, z) == 0.0 {
      PlusKernel(m, k, z);
    }
  }

  /** A solution of the larger system solves the smaller one. */
  lemma PlusSolved(m: Mat33, k: Vec3, h: Vec3, y: Vec3)
    requires Symmetric(m) && k != ZERO3 && InKernel33(m, k) && Dot(k, h) == 0.0 && MulV(Plus(m, k), y) == h
    ensures MulV(m, y) == h
  {
    hide MulV, Dot, Scale, Outer, Symmetric;
    var t := Dot(k, y);
    MulVAdd(m, Outer(k), y);
    OuterApplied(k, y);
    DotLinear(k, MulV(m, y), Scale(k, t), 0.0);
    DotLinear(k, k, k, t);
    SymmetricAdjoint(m, k, y);
    DotZero(y);
    DotPositive(k);
    assert Dot(k, k) * t == 0.0;
    NothingAdded(k, t, MulV(m, y));
  }

  lemma NothingAdded(k: Vec3, t: real, v: Vec3)
    requires t == 0.0
    ensures Add(v, Scale(k, t)) == v
  {
  }

  /** Three nonzero vectors perpendicular to one another leave no room for a fourth. */
  lemma NoFourth(a: Vec3, b: Vec3, c: Vec3, z: Vec3)
    requires a != ZERO3 && b != ZERO3 && c != ZERO3 && Dot(a, b) == 0.0 && Dot(a, c) == 0.0 && Dot(b, c) == 0.0
    requires Dot(a, z) == 0.0 && Dot(b, z) == 0.0 && Dot(c, z) == 0.0
    ensures z == ZERO3
  {
    hide Dot, Cross;
    var w := Cross(a, b);
    LagrangeIdentity(a, b);
    DotPositive(a);
    DotPositive(b);
    PositiveProduct(Dot(a, a), Dot(b, b));
    PerpendicularToBoth(a, b, c);
    PerpendicularToBoth(a, b, z);
    DotLinear(w, c, c, 0.0);
    if z != ZERO3 {
      AlongOther(w, c);
      AlongOther(w, z);
      WNonzero(w);
      CancelAlong(w, c, z);
    }
  }

  lemma WNonzero(w: Vec3)
    ensures Dot(w, w) > 0.0 ==> w != ZERO3
  {
  }

  lemma PerpendicularToBoth(a: Vec3, b: Vec3, c: Vec3)
    requires Dot(a, c) == 0.0 && Dot(b, c) == 0.0
    ensures Cross(Cross(a, b), c) == ZERO3
  {
    hide Dot, Cross;
    TripleProduct(c, a, b);
    DotLinear(c, a, a, 0.0);
    DotLinear(c, b, b, 0.0);
    ZeroScales(a, b);
    CrossTurnsSign(c, Cross(a, b));
    MinusZero();
  }

  lemma ZeroScales(a: Vec3, b: Vec3)
    ensures Sub(Scale(a, 0.0), Scale(b, 0.0)) == ZERO3
  {
  }

  lemma CancelAlong(w: Vec3, c: Vec3, z: Vec3)
    requires Along(c, w) && Along(z, w) && c != ZERO3 && Dot(c, z) == 0.0
    ensures z == ZERO3
  {
    hide Dot;
    var k, l :| l != 0.0 && Scale(c, l) == Scale(w, k);
    var k', l' :| l' != 0.0 && Scale(z, l') == Scale(w, k');
    ScaledDot(w, z, k);
    ScaledDot(c, z, l);
    if k == 0.0 {
      ZeroScaled(c, l, w);
      assert false;
    }
    assert Dot(w, z) == 0.0 by { ZeroFactor(k, Dot(w, z)); }
    ScaledDot(w, z, k');
    ScaledDot(z, z, l');
    DotLinear(z, w, w, k');
    assert Dot(Scale(z, l'), z) == Dot(Scale(w, k'), z);
    assert l' * Dot(z, z) == 0.0;
    ZeroFactor(l', Dot(z, z));
    DotPositive(z);
  }

  lemma ZeroScaled(c: Vec3, l: real, w: Vec3)
    requires l != 0.0 && Scale(c, l) == Scale(w, 0.0)
    ensures c == ZERO3
  {
  }

  lemma ZeroFactor(k: real, v: real)
    requires k != 0.0 && k * v == 0.0
    ensures v == 0.0
  {
  }

  ghost predicate Solvable(m: Mat33, h: Vec3) { exists y :: MulV(m, y) == h }

  /** One step of the search for a nonsingular system with the same solutions. */
  lemma AddKernelVector(m: Mat33, h: Vec3) returns (k: Vec3)
    requires Symmetric(m) && Positive33(m) && Avoids(m, h) && Singular33(m)
    ensures k != ZERO3 && InKernel33(m, k)
    ensures Symmetric(Plus(m, k)) && Positive33(Plus(m, k)) && Avoids(Plus(m, k), h) && Avoids(Plus(m, k), k)
    ensures Solvable(Plus(m, k), h) ==> Solvable(m, h)
  {
    hide InKernel33, Dot, Plus, Symmetric, Positive33, MulV;
    k :| k != ZERO3 && InKernel33(m, k);
    PlusKeepsPositive(m, k);
    PlusAvoids(m, k, h);
    PlusAvoids(m, k, k);
    assert Dot(k, h) == 0.0 by { DotLinear(h, k, k, 0.0); }
    if Solvable(Plus(m, k), h) {
      var y :| MulV(Plus(m, k), y) == h;
      PlusSolved(m, k, h, y);
    }
  }

  /** A symmetric positive system is solvable whenever its right-hand side is perpendicular to the kernel. */
  lemma SolvableAcrossKernel(m: Mat33, h: Vec3)
    requires Symmetric(m) && Positive33(m) && Avoids(m, h)
    ensures Solvable(m, h)
  {
    hide InKernel33, Dot, Plus, Symmetric, Positive33, MulV;
    if !Singular33(m) {
      NonsingularSolvable(m, h);
      return;
    }
    var a := AddKernelVector(m, h);
    var m1 := Plus(m, a);
    if !Singular33(m1) {
      NonsingularSolvable(m1, h);
      return;
    }
    var b := AddKernelVector(m1, h);
    var m2 := Plus(m1, b);
    PlusAvoids(m1, b, a);
    if !Singular33(m2) {
      NonsingularSolvable(m2, h);
      return;
    }
    var c := AddKernelVector(m2, h);
    var m3 := Plus(m2, c);
    PlusAvoids(m2, c, a);
    PlusAvoids(m2, c, b);
    if Singular33(m3) {
      var z :| z != ZERO3 && InKernel33(m3, z);
      NoFourth(a, b, c, z);
      assert false;
    }
    NonsingularSolvable(m3, h);
  }
}
