/** Vectors and matrices of size three over exact reals, in the code's column-of-vectors layout:
    c0, c1 and c2 are what the code calls m[0], m[1] and m[2]. */
module Space {
  import opened Reals

  datatype Vec3 = Vec3(x: real, y: real, z: real)

  datatype Mat33 = Mat33(c0: Vec3, c1: Vec3, c2: Vec3)

  const ZERO3 := Vec3(0.0, 0.0, 0.0)

  const ZERO33 := Mat33(ZERO3, ZERO3, ZERO3)

  function Diagonal(d: real): Mat33 {
    Mat33(Vec3(d, 0.0, 0.0), Vec3(0.0, d, 0.0), Vec3(0.0, 0.0, d))
  }

  function Add(u: Vec3, v: Vec3): Vec3 { Vec3(u.x + v.x, u.y + v.y, u.z + v.z) }

  function Sub(u: Vec3, v: Vec3): Vec3 { Vec3(u.x - v.x, u.y - v.y, u.z - v.z) }

  function Scale(u: Vec3, t: real): Vec3 { Vec3(u.x * t, u.y * t, u.z * t) }

  function Dot(u: Vec3, v: Vec3): real { u.x * v.x + u.y * v.y + u.z * v.z }

  function Cross(u: Vec3, v: Vec3): Vec3 {
    Vec3(u.y * v.z - u.z * v.y, u.z * v.x - u.x * v.z, u.x * v.y - u.y * v.x)
  }

  function AddM(a: Mat33, b: Mat33): Mat33 { Mat33(Add(a.c0, b.c0), Add(a.c1, b.c1), Add(a.c2, b.c2)) }

  function SubM(a: Mat33, b: Mat33): Mat33 { Mat33(Sub(a.c0, b.c0), Sub(a.c1, b.c1), Sub(a.c2, b.c2)) }

  function ScaleM(a: Mat33, t: real): Mat33 { Mat33(Scale(a.c0, t), Scale(a.c1, t), Scale(a.c2, t)) }

  function MulV(a: Mat33, v: Vec3): Vec3 {
    Vec3(Dot(Transpose(a).c0, v), Dot(Transpose(a).c1, v), Dot(Transpose(a).c2, v))
  }

  function Mul(a: Mat33, b: Mat33): Mat33 { Mat33(MulV(a, b.c0), MulV(a, b.c1), MulV(a, b.c2)) }

  function Transpose(a: Mat33): Mat33 {
    Mat33(Vec3(a.c0.x, a.c1.x, a.c2.x), Vec3(a.c0.y, a.c1.y, a.c2.y), Vec3(a.c0.z, a.c1.z, a.c2.z))
  }

  function Determinant(a: Mat33): real { Dot(a.c0, Cross(a.c1, a.c2)) }

  ghost predicate Symmetric(a: Mat33) { Transpose(a) == a }

  /** Right-handed orthonormal: the columns are unit, mutually orthogonal and c2 = c0 x c1. */
  ghost predicate IsRotation(a: Mat33) {
    Mul(Transpose(a), a) == Diagonal(1.0) && Mul(a, Transpose(a)) == Diagonal(1.0) && Determinant(a) == 1.0
  }

  lemma CrossEntriesOf(u: Vec3, v: Vec3, w: Vec3)
    requires Cross(u, v) == w
    ensures w.x == u.y * v.z - u.z * v.y && w.y == u.z * v.x - u.x * v.z && w.z == u.x * v.y - u.y * v.x
  {
  }

  lemma ScaledBy(v: Vec3, t: real)
    ensures Scale(v, t) == Vec3(Prod(v.x, t), Prod(v.y, t), Prod(v.z, t))
  {
  }

  lemma DotLinear(u: Vec3, v: Vec3, w: Vec3, t: real)
    ensures Dot(u, Add(v, w)) == Dot(u, v) + Dot(u, w)
    ensures Dot(u, Sub(v, w)) == Dot(u, v) - Dot(u, w)
    ensures Dot(u, Scale(v, t)) == Dot(u, v) * t
    ensures Dot(u, v) == Dot(v, u)
  {
  }

  lemma MulVLinear(a: Mat33, u: Vec3, v: Vec3, t: real)
    ensures MulV(a, Add(u, v)) == Add(MulV(a, u), MulV(a, v))
    ensures MulV(a, Sub(u, v)) == Sub(MulV(a, u), MulV(a, v))
    ensures MulV(a, Scale(u, t)) == Scale(MulV(a, u), t)
  {
    hide Dot;
    DotLinear(Transpose(a).c0, u, v, t);
    DotLinear(Transpose(a).c1, u, v, t);
    DotLinear(Transpose(a).c2, u, v, t);
  }

  lemma MulVAdd(a: Mat33, b: Mat33, v: Vec3)
    ensures MulV(AddM(a, b), v) == Add(MulV(a, v), MulV(b, v))
    ensures MulV(SubM(a, b), v) == Sub(MulV(a, v), MulV(b, v))
  {
    TransposeAdd(a, b);
    DotDistributes(Transpose(a).c0, Transpose(b).c0, v);
    DotDistributes(Transpose(a).c1, Transpose(b).c1, v);
    DotDistributes(Transpose(a).c2, Transpose(b).c2, v);
  }

  lemma DotDistributes(u: Vec3, v: Vec3, w: Vec3)
    ensures Dot(Add(u, v), w) == Dot(u, w) + Dot(v, w)
    ensures Dot(Sub(u, v), w) == Dot(u, w) - Dot(v, w)
  {
  }

  lemma MulVAssoc(a: Mat33, b: Mat33, v: Vec3)
    ensures MulV(Mul(a, b), v) == MulV(a, MulV(b, v))
  {
  }

  lemma MulAssoc(a: Mat33, b: Mat33, c: Mat33)
    ensures Mul(Mul(a, b), c) == Mul(a, Mul(b, c))
  {
    MulVAssoc(a, b, c.c0);
    MulVAssoc(a, b, c.c1);
    MulVAssoc(a, b, c.c2);
  }

  lemma MulIdentity(a: Mat33)
    ensures Mul(a, Diagonal(1.0)) == a && Mul(Diagonal(1.0), a) == a
  {
  }

  lemma TransposeMul(a: Mat33, b: Mat33)
    ensures Transpose(Mul(a, b)) == Mul(Transpose(b), Transpose(a))
  {
  }

  lemma TransposeAdd(a: Mat33, b: Mat33)
    ensures Transpose(AddM(a, b)) == AddM(Transpose(a), Transpose(b))
    ensures Transpose(SubM(a, b)) == SubM(Transpose(a), Transpose(b))
    ensures Transpose(Transpose(a)) == a
  {
  }

  lemma Adjoint(a: Mat33, u: Vec3, v: Vec3)
    ensures Dot(u, MulV(a, v)) == Dot(MulV(Transpose(a), u), v)
  {
  }

  lemma DotPositive(v: Vec3)
    ensures Dot(v, v) >= 0.0 && (v != ZERO3 ==> Dot(v, v) > 0.0)
  {
    SquarePositive(v.x);
    SquarePositive(v.y);
    SquarePositive(v.z);
    assert Dot(v, v) == Square(v.x) + Square(v.y) + Square(v.z);
  }

  lemma DiagonalApplied(d: real, u: Vec3)
    ensures MulV(Diagonal(d), u) == Scale(u, d)
  {
  }

  lemma TimesZero(a: Mat33, u: Vec3)
    ensures MulV(a, ZERO3) == ZERO3 && Dot(ZERO3, u) == 0.0 && Dot(u, ZERO3) == 0.0
    ensures Add(u, ZERO3) == u && Add(ZERO3, u) == u
  {
  }

  lemma ZeroApplied(u: Vec3)
    ensures MulV(ZERO33, u) == ZERO3
  {
  }
}
