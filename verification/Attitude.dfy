/** predict turns the attitude by the very matrix it puts into the covariance transition. */
module Attitude {
  import opened Reals
  import opened Space
  import opened Quaternion
  import opened FusionSteps
  import opened Covariance
  import opened Transition

  /** The two further properties of sine and cosine that tie the half angle of O to the full angle of Phi00. */
  ghost predicate DoubleAngles(libm: Libm) {
    && (forall h, t :: t == 2.0 * h ==> libm.sin(t) == 2.0 * Prod(libm.sin(h), libm.cos(h)))
    && (forall h, t :: t == 2.0 * h ==> libm.cos(t) == 1.0 - 2.0 * Square(libm.sin(h)))
  }

  /** The Hamilton product. */
  function Product(p: Quat, q: Quat): Quat {
    Quat(p.w * q.x + p.x * q.w + p.y * q.z - p.z * q.y,
         p.w * q.y + p.y * q.w + p.z * q.x - p.x * q.z,
         p.w * q.z + p.z * q.w + p.x * q.y - p.y * q.x,
         p.w * q.w - p.x * q.x - p.y * q.y - p.z * q.z)
  }

  function Conjugate(q: Quat): Quat { Quat(-q.x, -q.y, -q.z, q.w) }

  function Pure(v: Vec3): Quat { Quat(v.x, v.y, v.z, 0.0) }

  function Sandwiched(q: Quat, v: Quat): Quat { Product(Product(Conjugate(q), v), q) }

  /** The imaginary part of a product, from the parts of its factors. */
  function ImaginaryProduct(u: Vec3, s: real, v: Vec3, t: real): Vec3 {
    Add(Add(Scale(v, s), Scale(u, t)), Cross(u, v))
  }

  lemma ProductEntry(a: real, s: real, b: real, t: real, c: real, d: real, e: real, f: real)
    ensures s * a + b * t + c * d - e * f == a * s + b * t + (c * d - e * f)
  {
  }

  lemma ProductImaginary(p: Quat, q: Quat)
    ensures Imaginary(Product(p, q)) == ImaginaryProduct(Imaginary(p), p.w, Imaginary(q), q.w)
  {
    hide Add, Scale, Cross;
    var u, v := Imaginary(p), Imaginary(q);
    var c := Cross(u, v);
    ThreeEntries(v, p.w, u, q.w, c);
    CrossEntriesOf(u, v, c);
    ProductEntry(q.x, p.w, p.x, q.w, p.y, q.z, p.z, q.y);
    ProductEntry(q.y, p.w, p.y, q.w, p.z, q.x, p.x, q.z);
    ProductEntry(q.z, p.w, p.z, q.w, p.x, q.y, p.y, q.x);
  }

  lemma ProductReal(p: Quat, q: Quat)
    ensures Product(p, q).w == p.w * q.w - Dot(Imaginary(p), Imaginary(q))
  {
  }

  lemma ProductParts(p: Quat, q: Quat)
    ensures Imaginary(Product(p, q)) == ImaginaryProduct(Imaginary(p), p.w, Imaginary(q), q.w)
    ensures Product(p, q).w == p.w * q.w - Dot(Imaginary(p), Imaginary(q))
  {
    hide Product, ImaginaryProduct, Dot, Imaginary;
    ProductImaginary(p, q);
    ProductReal(p, q);
  }

  lemma SameParts(p: Quat, q: Quat)
    requires Imaginary(p) == Imaginary(q) && p.w == q.w
    ensures p == q
  {
  }

  lemma DotOfThree(u: Vec3, s: real, v: Vec3, t: real, x: Vec3, c: Vec3)
    ensures Dot(Add(Add(Scale(u, s), Scale(v, t)), x), c) == s * Dot(u, c) + t * Dot(v, c) + Dot(x, c)
  {
    hide Dot, Add, Scale;
    DotDistributes(Add(Scale(u, s), Scale(v, t)), x, c);
    DotDistributes(Scale(u, s), Scale(v, t), c);
    ScaledDot(u, c, s);
    ScaledDot(v, c, t);
  }

  lemma CrossAdd(u: Vec3, v: Vec3, c: Vec3)
    ensures Cross(Add(u, v), c) == Add(Cross(u, c), Cross(v, c))
  {
  }

  lemma CrossScale(u: Vec3, t: real, c: Vec3)
    ensures Cross(Scale(u, t), c) == Scale(Cross(u, c), t)
  {
    hide Cross, Scale, Prod;
    var x, s := Cross(u, c), Scale(u, t);
    CrossEntriesOf(u, c, x);
    CrossEntriesOf(s, c, Cross(s, c));
    ScaledBy(u, t);
    ScaledBy(x, t);
    CrossEntryScales(u.y, u.z, c.y, c.z, t, s.y, s.z, x.x);
    CrossEntryScales(u.z, u.x, c.z, c.x, t, s.z, s.x, x.y);
    CrossEntryScales(u.x, u.y, c.x, c.y, t, s.x, s.y, x.z);
  }

  lemma CrossEntryScales(a: real, b: real, c: real, d: real, t: real, e: real, f: real, x: real)
    requires e == Prod(a, t) && f == Prod(b, t) && x == a * d - b * c
    ensures e * d - f * c == Prod(x, t)
  {
    assert x * t == (a * d) * t - (b * c) * t;
    assert e * d == (a * t) * d && f * c == (b * t) * c;
  }

  lemma CrossOfThree(u: Vec3, s: real, v: Vec3, t: real, x: Vec3, c: Vec3)
    ensures Cross(Add(Add(Scale(u, s), Scale(v, t)), x), c)
         == Add(Add(Scale(Cross(u, c), s), Scale(Cross(v, c), t)), Cross(x, c))
    ensures Cross(c, Add(Add(Scale(u, s), Scale(v, t)), x))
         == Add(Add(Scale(Cross(c, u), s), Scale(Cross(c, v), t)), Cross(c, x))
  {
    hide Cross, Add, Scale;
    var w := Add(Add(Scale(u, s), Scale(v, t)), x);
    CrossAdd(Add(Scale(u, s), Scale(v, t)), x, c);
    CrossAdd(Scale(u, s), Scale(v, t), c);
    CrossScale(u, s, c);
    CrossScale(v, t, c);
    CrossTurnsSign(w, c);
    CrossTurnsSign(u, c);
    CrossTurnsSign(v, c);
    CrossTurnsSign(x, c);
    NegatedThree(Cross(u, c), s, Cross(v, c), t, Cross(x, c));
  }

  lemma NegatedThree(u: Vec3, s: real, v: Vec3, t: real, x: Vec3)
    ensures Scale(Add(Add(Scale(u, s), Scale(v, t)), x), -1.0)
         == Add(Add(Scale(Scale(u, -1.0), s), Scale(Scale(v, -1.0), t)), Scale(x, -1.0))
  {
  }

  lemma AssociativeReal(aw: real, bw: real, cw: real, ab: real, bc: real, ac: real, t: real)
    ensures (aw * bw - ab) * cw - (aw * bc + bw * ac + t) == aw * (bw * cw - bc) - (bw * ac + cw * ab + t)
  {
  }

  lemma AssociativeEntry(a: real, b: real, c: real, aw: real, bw: real, cw: real, bc: real, ac: real, ab: real,
                         p: real, q: real, r: real, s: real, t: real, x: real, y: real)
    requires s == b * aw + a * bw + r && t == c * bw + b * cw + p && x == aw * bw - ab && y == bw * cw - bc
    ensures c * x + s * cw + (p * aw + q * bw + (b * ac - a * bc)) == t * aw + a * y + (q * bw + r * cw + (b * ac - c * ab))
  {
    assert s * cw == (b * aw) * cw + (a * bw) * cw + r * cw;
    assert t * aw == (c * bw) * aw + (b * cw) * aw + p * aw;
    assert c * x == c * (aw * bw) - c * ab && a * y == a * (bw * cw) - a * bc;
  }

  function Left(a: Vec3, b: Vec3, c: Vec3, aw: real, bw: real, cw: real, bc: real, ac: real,
                p: Vec3, q: Vec3, s: Vec3, x: real): Vec3 {
    Add(Add(Scale(c, x), Scale(s, cw)), Add(Add(Scale(p, aw), Scale(q, bw)), Sub(Scale(b, ac), Scale(a, bc))))
  }

  function Right(a: Vec3, b: Vec3, c: Vec3, aw: real, bw: real, cw: real, ac: real, ab: real,
                 q: Vec3, r: Vec3, t: Vec3, y: real): Vec3 {
    Add(Add(Scale(t, aw), Scale(a, y)), Add(Add(Scale(q, bw), Scale(r, cw)), Sub(Scale(b, ac), Scale(c, ab))))
  }

  lemma LeftEntries(a: Vec3, b: Vec3, c: Vec3, aw: real, bw: real, cw: real, bc: real, ac: real,
                    p: Vec3, q: Vec3, s: Vec3, x: real)
    ensures Left(a, b, c, aw, bw, cw, bc, ac, p, q, s, x)
         == Vec3(c.x * x + s.x * cw + (p.x * aw + q.x * bw + (b.x * ac - a.x * bc)),
                 c.y * x + s.y * cw + (p.y * aw + q.y * bw + (b.y * ac - a.y * bc)),
                 c.z * x + s.z * cw + (p.z * aw + q.z * bw + (b.z * ac - a.z * bc)))
  {
  }

  lemma RightEntries(a: Vec3, b: Vec3, c: Vec3, aw: real, bw: real, cw: real, ac: real, ab: real,
                     q: Vec3, r: Vec3, t: Vec3, y: real)
    ensures Right(a, b, c, aw, bw, cw, ac, ab, q, r, t, y)
         == Vec3(t.x * aw + a.x * y + (q.x * bw + r.x * cw + (b.x * ac - c.x * ab)),
                 t.y * aw + a.y * y + (q.y * bw + r.y * cw + (b.y * ac - c.y * ab)),
                 t.z * aw + a.z * y + (q.z * bw + r.z * cw + (b.z * ac - c.z * ab)))
  {
  }

  lemma ThreeEntries(u: Vec3, s: real, v: Vec3, t: real, x: Vec3)
    ensures Add(Add(Scale(u, s), Scale(v, t)), x)
         == Vec3(u.x * s + v.x * t + x.x, u.y * s + v.y * t + x.y, u.z * s + v.z * t + x.z)
  {
  }

  lemma AssociativeVector(a: Vec3, b: Vec3, c: Vec3, aw: real, bw: real, cw: real, bc: real, ac: real, ab: real,
                          p: Vec3, q: Vec3, r: Vec3, s: Vec3, t: Vec3, x: real, y: real)
    requires s == Add(Add(Scale(b, aw), Scale(a, bw)), r) && t == Add(Add(Scale(c, bw), Scale(b, cw)), p)
    requires x == aw * bw - ab && y == bw * cw - bc
    ensures Left(a, b, c, aw, bw, cw, bc, ac, p, q, s, x) == Right(a, b, c, aw, bw, cw, ac, ab, q, r, t, y)
  {
    hide Left, Right, Add, Scale;
    ThreeEntries(b, aw, a, bw, r);
    ThreeEntries(c, bw, b, cw, p);
    LeftEntries(a, b, c, aw, bw, cw, bc, ac, p, q, s, x);
    RightEntries(a, b, c, aw, bw, cw, ac, ab, q, r, t, y);
    AssociativeEntry(a.x, b.x, c.x, aw, bw, cw, bc, ac, ab, p.x, q.x, r.x, s.x, t.x, x, y);
    AssociativeEntry(a.y, b.y, c.y, aw, bw, cw, bc, ac, ab, p.y, q.y, r.y, s.y, t.y, x, y);
    AssociativeEntry(a.z, b.z, c.z, aw, bw, cw, bc, ac, ab, p.z, q.z, r.z, s.z, t.z, x, y);
  }

  lemma AssociativeW(a: Quat, b: Quat, c: Quat)
    ensures Product(Product(a, b), c).w == Product(a, Product(b, c)).w
  {
    hide Product, Dot, Cross, Add, Scale, Imaginary;
    var u, v, w := Imaginary(a), Imaginary(b), Imaginary(c);
    ProductParts(a, b);
    ProductParts(b, c);
    ProductParts(Product(a, b), c);
    ProductParts(a, Product(b, c));
    DotOfThree(v, a.w, u, b.w, Cross(u, v), w);
    DotOfThree(w, b.w, v, c.w, Cross(v, w), u);
    TripleTurns(w, u, v);
    DotLinear(u, v, w, 0.0);
    DotLinear(u, w, w, 0.0);
    DotLinear(u, Cross(v, w), w, 0.0);
    DotLinear(Cross(u, v), w, w, 0.0);
    DotLinear(Imaginary(Product(b, c)), u, u, 0.0);
    AssociativeReal(a.w, b.w, c.w, Dot(u, v), Dot(v, w), Dot(u, w), Dot(Cross(u, v), w));
  }

  lemma AssociativeImaginary(a: Quat, b: Quat, c: Quat)
    ensures Imaginary(Product(Product(a, b), c)) == Imaginary(Product(a, Product(b, c)))
  {
    hide Product, Dot, Cross, Add, Scale, Sub, Imaginary;
    var u, v, w := Imaginary(a), Imaginary(b), Imaginary(c);
    ProductParts(a, b);
    ProductParts(b, c);
    ProductParts(Product(a, b), c);
    ProductParts(a, Product(b, c));
    CrossOfThree(v, a.w, u, b.w, Cross(u, v), w);
    CrossOfThree(w, b.w, v, c.w, Cross(v, w), u);
    TripleProduct(u, v, w);
    TripleProduct(w, u, v);
    CrossTurnsSign(w, Cross(u, v));
    OppositeDifference(Scale(u, Dot(w, v)), Scale(v, Dot(w, u)));
    DotLinear(w, v, v, 0.0);
    DotLinear(w, u, u, 0.0);
    AssociativeVector(u, v, w, a.w, b.w, c.w, Dot(v, w), Dot(u, w), Dot(u, v), Cross(v, w), Cross(u, w), Cross(u, v),
                      Imaginary(Product(a, b)), Imaginary(Product(b, c)), Product(a, b).w, Product(b, c).w);
  }

  lemma OppositeDifference(u: Vec3, v: Vec3)
    ensures Scale(Sub(u, v), -1.0) == Sub(v, u)
  {
  }

  lemma Associative(a: Quat, b: Quat, c: Quat)
    ensures Product(Product(a, b), c) == Product(a, Product(b, c))
  {
    hide Product;
    AssociativeW(a, b, c);
    AssociativeImaginary(a, b, c);
    SameParts(Product(Product(a, b), c), Product(a, Product(b, c)));
  }

  lemma ConjugateParts(u: Vec3, s: real, v: Vec3, t: real)
    ensures Scale(ImaginaryProduct(u, s, v, t), -1.0) == ImaginaryProduct(Scale(v, -1.0), t, Scale(u, -1.0), s)
    ensures Dot(Scale(v, -1.0), Scale(u, -1.0)) == Dot(u, v)
  {
    hide Cross, Dot, Scale, Add;
    var u', v', c := Scale(u, -1.0), Scale(v, -1.0), Cross(u, v);
    NegatedThree(v, s, u, t, c);
    AddCommutes(Scale(v', s), Scale(u', t));
    CrossScale(v, -1.0, u');
    CrossTurnsSign(u', v);
    CrossScale(u, -1.0, v);
    NegatedTwice(Scale(c, -1.0));
    ScaledDot(v, u', -1.0);
    ScaledDot(u, v, -1.0);
    DotLinear(u, v, v, 0.0);
  }

  lemma AddCommutes(u: Vec3, v: Vec3)
    ensures Add(u, v) == Add(v, u)
  {
  }

  lemma NegatedTwice(v: Vec3)
    ensures Scale(Scale(v, -1.0), -1.0) == v
  {
  }

  lemma ImaginaryOfConjugate(q: Quat)
    ensures Imaginary(Conjugate(q)) == Scale(Imaginary(q), -1.0) && Conjugate(q).w == q.w
  {
  }

  lemma ConjugateOfProduct(p: Quat, q: Quat)
    ensures Conjugate(Product(p, q)) == Product(Conjugate(q), Conjugate(p))
  {
    hide Product, Conjugate, Dot, Imaginary, Scale, ImaginaryProduct;
    ProductParts(p, q);
    ProductParts(Conjugate(q), Conjugate(p));
    ImaginaryOfConjugate(p);
    ImaginaryOfConjugate(q);
    ImaginaryOfConjugate(Product(p, q));
    ConjugateParts(Imaginary(p), p.w, Imaginary(q), q.w);
    SameParts(Conjugate(Product(p, q)), Product(Conjugate(q), Conjugate(p)));
  }

  lemma SandwichOfProduct(q: Quat, p: Quat, v: Quat)
    ensures Sandwiched(Product(q, p), v) == Sandwiched(p, Sandwiched(q, v))
  {
    hide Product, Conjugate;
    var q', p' := Conjugate(q), Conjugate(p);
    ConjugateOfProduct(q, p);
    Associative(p', q', v);
    Associative(Product(p', Product(q', v)), q, p);
    Associative(p', Product(q', v), q);
  }

  /** conjugate(q) * v, the first half of the sandwich. */
  lemma HalfSandwich(q: Quat, v: Vec3)
    ensures var u := Imaginary(q); var h := Product(Conjugate(q), Pure(v));
      Imaginary(h) == Sub(Scale(v, q.w), Cross(u, v)) && h.w == Dot(u, v)
  {
    hide Product, Dot, Cross, Add, Sub, Scale, Conjugate;
    var u := Imaginary(q);
    ProductParts(Conjugate(q), Pure(v));
    ImaginaryOfConjugate(q);
    assert Imaginary(Pure(v)) == v;
    CrossScale(u, -1.0, v);
    HalfTerms(Scale(v, q.w), Scale(u, -1.0), Cross(u, v));
    ScaledDot(u, v, -1.0);
  }

  lemma HalfTerms(a: Vec3, x: Vec3, c: Vec3)
    ensures Add(Add(a, Scale(x, 0.0)), Scale(c, -1.0)) == Sub(a, c)
  {
  }

  lemma CrossOfHalf(u: Vec3, v: Vec3, w: real, c: Vec3)
    requires c == Cross(u, v)
    ensures Cross(Sub(Scale(v, w), c), u) == Add(Scale(c, -w), Sub(Scale(u, Dot(u, v)), Scale(v, Dot(u, u))))
    ensures Dot(Sub(Scale(v, w), c), u) == w * Dot(u, v)
  {
    hide Cross, Dot;
    CrossSub(Scale(v, w), c, u);
    CrossScale(v, w, u);
    CrossTurnsSign(u, v);
    CrossTurnsSign(u, c);
    TripleProduct(u, u, v);
    DotDistributes(Scale(v, w), c, u);
    ScaledDot(v, u, w);
    CrossIsPerpendicular(u, v);
    DotLinear(u, v, v, 0.0);
    DotLinear(u, c, c, 0.0);
    HalfSigns(c, Sub(Scale(u, Dot(u, v)), Scale(v, Dot(u, u))), w);
  }

  lemma CrossSub(u: Vec3, v: Vec3, c: Vec3)
    ensures Cross(Sub(u, v), c) == Sub(Cross(u, c), Cross(v, c))
  {
  }

  lemma HalfSigns(c: Vec3, t: Vec3, w: real)
    ensures Sub(Scale(Scale(c, -1.0), w), Scale(t, -1.0)) == Add(Scale(c, -w), t)
  {
  }

  lemma SandwichParts(q: Quat, v: Vec3)
    ensures var u := Imaginary(q); var c, d := Cross(u, v), Dot(u, v);
      && Imaginary(Sandwiched(q, Pure(v)))
         == Add(Add(Scale(u, d), Scale(Sub(Scale(v, q.w), c), q.w)), Add(Scale(c, -q.w), Sub(Scale(u, d), Scale(v, Dot(u, u)))))
      && Sandwiched(q, Pure(v)).w == 0.0
  {
    hide Product, Dot, Cross, Add, Sub, Scale, Imaginary, Conjugate, Pure;
    var u := Imaginary(q);
    HalfSandwich(q, v);
    ProductParts(Product(Conjugate(q), Pure(v)), q);
    CrossOfHalf(u, v, q.w, Cross(u, v));
  }

  lemma MatrixApplied(q: Quat, v: Vec3)
    ensures var u := Imaginary(q); var c := Cross(u, v);
      MulV(QuatToMatrix(q), v)
        == Add(Sub(v, Scale(c, 2.0 * q.w)), Scale(Sub(Scale(u, Dot(u, v)), Scale(v, Dot(u, u))), 2.0))
  {
    hide QuatToMatrix, CrossMatrix, MulV, Mul, AddM, SubM, ScaleM, Diagonal, Dot, Cross;
    var u, w := Imaginary(q), q.w;
    var c, wx := Cross(u, v), CrossMatrix(u, 0.0);
    MatrixFromCross(u, w);
    MulVAdd(SubM(Diagonal(1.0), ScaleM(wx, 2.0 * w)), ScaleM(Mul(wx, wx), 2.0), v);
    MulVAdd(Diagonal(1.0), ScaleM(wx, 2.0 * w), v);
    DiagonalApplied(1.0, v);
    ScaledRows(wx, v, 2.0 * w);
    ScaledRows(Mul(wx, wx), v, 2.0);
    MulVAssoc(wx, wx, v);
    CrossAsMatrix(u, v);
    CrossAsMatrix(u, c);
    TripleProduct(u, u, v);
  }

  lemma CrossAsMatrix(u: Vec3, v: Vec3)
    ensures MulV(CrossMatrix(u, 0.0), v) == Cross(u, v)
  {
    hide MulV, CrossMatrix;
    CrossMatrixIsCrossProduct(u, 0.0, v);
  }

  lemma SandwichEntry(u: real, v: real, c: real, w: real, d: real, n: real, h: real, e: real, k: real)
    requires w * w + n == 1.0 && h == Prod(v, w) - c && e == Prod(u, d) - Prod(v, n) && k == 2.0 * w
    ensures Prod(u, d) + Prod(h, w) + (Prod(c, -w) + e) == v - Prod(c, k) + Prod(e, 2.0)
  {
    assert h * w == v * (w * w) - c * w;
    assert v * (w * w) == v - v * n;
  }

  lemma SandwichVector(u: Vec3, v: Vec3, c: Vec3, w: real, d: real, n: real, h: Vec3, e: Vec3, k: real)
    requires w * w + n == 1.0 && k == 2.0 * w
    requires h == Sub(Scale(v, w), c) && e == Sub(Scale(u, d), Scale(v, n))
    ensures Add(Add(Scale(u, d), Scale(h, w)), Add(Scale(c, -w), e)) == Add(Sub(v, Scale(c, k)), Scale(e, 2.0))
  {
    hide Scale, Prod;
    ScaledBy(v, w);
    ScaledBy(u, d);
    ScaledBy(v, n);
    ScaledBy(h, w);
    ScaledBy(c, -w);
    ScaledBy(c, k);
    ScaledBy(e, 2.0);
    SandwichEntry(u.x, v.x, c.x, w, d, n, h.x, e.x, k);
    SandwichEntry(u.y, v.y, c.y, w, d, n, h.y, e.y, k);
    SandwichEntry(u.z, v.z, c.z, w, d, n, h.z, e.z, k);
  }

  /** quatToMatrix(q) * v is the vector conjugate(q) v q. */
  lemma MatrixIsSandwich(q: Quat, v: Vec3)
    requires IsUnit(q)
    ensures Sandwiched(q, Pure(v)) == Pure(MulV(QuatToMatrix(q), v))
  {
    hide Sandwiched, QuatToMatrix, Dot, Cross, MulV, NormSquared, Add, Sub, Scale;
    var u := Imaginary(q);
    var c, d, n := Cross(u, v), Dot(u, v), Dot(u, u);
    NormOfParts(u, q.w);
    SandwichParts(q, v);
    MatrixApplied(q, v);
    SandwichVector(u, v, c, q.w, d, n, Sub(Scale(v, q.w), c), Sub(Scale(u, d), Scale(v, n)), 2.0 * q.w);
    SameParts(Sandwiched(q, Pure(v)), Pure(MulV(QuatToMatrix(q), v)));
  }

  lemma ProductLength(p: Quat, q: Quat)
    requires IsUnit(p) && IsUnit(q)
    ensures IsUnit(Product(q, p))
  {
    hide NormSquared, TimesO, Product, Dot, Square;
    TimesOIsProduct(Imaginary(p), p.w, q);
    TimesOLength(Imaginary(p), p.w, q);
    NormOfParts(Imaginary(p), p.w);
    SquareIsProduct(p.w);
  }

  lemma SquareIsProduct(a: real)
    ensures Square(a) == a * a
  {
  }

  lemma SumParts(q: Quat, t: real, p: Quat)
    ensures Imaginary(AddQ(ScaleQ(q, t), p)) == Add(Scale(Imaginary(q), t), Imaginary(p))
    ensures AddQ(ScaleQ(q, t), p).w == q.w * t + p.w
  {
  }

  lemma AddReordered(u: Vec3, v: Vec3, x: Vec3)
    ensures Add(v, Add(u, x)) == Add(Add(u, v), x)
  {
  }

  lemma TimesOIsProduct(psi: Vec3, k2: real, q: Quat)
    ensures TimesO(psi, k2, q) == Product(q, Quat(psi.x, psi.y, psi.z, k2))
  {
    hide TimesO, TimesF, Product, ScaleQ, AddQ, Add, Scale, Cross, Dot;
    var v, p := Imaginary(q), Quat(psi.x, psi.y, psi.z, k2);
    assert Imaginary(p) == psi;
    TimesOIsSum(psi, k2, q);
    StepParts(q, psi);
    SumParts(q, k2, TimesF(q, psi));
    ProductParts(q, p);
    AddReordered(Scale(psi, q.w), Scale(v, k2), Cross(v, psi));
    SameParts(TimesO(psi, k2, q), Product(q, p));
  }

  /** The matrix of a product is the product of the matrices, in reverse order. */
  lemma MatrixOfProductApplied(q: Quat, p: Quat, v: Vec3)
    requires IsUnit(q) && IsUnit(p)
    ensures MulV(QuatToMatrix(Product(q, p)), v) == MulV(QuatToMatrix(p), MulV(QuatToMatrix(q), v))
  {
    hide Product, QuatToMatrix, MulV, IsUnit, Sandwiched;
    ProductLength(p, q);
    MatrixIsSandwich(Product(q, p), v);
    MatrixIsSandwich(q, v);
    MatrixIsSandwich(p, MulV(QuatToMatrix(q), v));
    SandwichOfProduct(q, p, Pure(v));
  }

  lemma ActsAs(a: Mat33, b: Mat33, c: Mat33)
    requires MulV(a, X_AXIS) == MulV(b, MulV(c, X_AXIS))
    requires MulV(a, Y_AXIS) == MulV(b, MulV(c, Y_AXIS))
    requires MulV(a, Z_AXIS) == MulV(b, MulV(c, Z_AXIS))
    ensures a == Mul(b, c)
  {
    hide MulV;
    ColumnsOf(a);
    ColumnsOf(c);
  }

  const X_AXIS := Vec3(1.0, 0.0, 0.0)
  const Y_AXIS := Vec3(0.0, 1.0, 0.0)
  const Z_AXIS := Vec3(0.0, 0.0, 1.0)

  lemma ColumnsOf(a: Mat33)
    ensures MulV(a, X_AXIS) == a.c0 && MulV(a, Y_AXIS) == a.c1 && MulV(a, Z_AXIS) == a.c2
  {
  }

  lemma MatrixOfProduct(q: Quat, p: Quat)
    requires IsUnit(q) && IsUnit(p)
    ensures QuatToMatrix(Product(q, p)) == Mul(QuatToMatrix(p), QuatToMatrix(q))
  {
    hide Product, QuatToMatrix, MulV, IsUnit, Mul;
    MatrixOfProductApplied(q, p, X_AXIS);
    MatrixOfProductApplied(q, p, Y_AXIS);
    MatrixOfProductApplied(q, p, Z_AXIS);
    ActsAs(QuatToMatrix(Product(q, p)), QuatToMatrix(p), QuatToMatrix(q));
  }

  // ----- Phi00 is the matrix of the quaternion step

  lemma MatrixFromCross(v: Vec3, w: real)
    ensures var wx := CrossMatrix(v, 0.0);
      QuatToMatrix(Quat(v.x, v.y, v.z, w)) == AddM(SubM(Diagonal(1.0), ScaleM(wx, 2.0 * w)), ScaleM(Mul(wx, wx), 2.0))
  {
    hide Mul;
    CrossSquare(v);
  }

  lemma CrossSquare(v: Vec3)
    ensures var wx := CrossMatrix(v, 0.0);
      Mul(wx, wx) == Mat33(Vec3(-v.y * v.y - v.z * v.z, v.x * v.y, v.x * v.z),
                           Vec3(v.x * v.y, -v.x * v.x - v.z * v.z, v.y * v.z),
                           Vec3(v.x * v.z, v.y * v.z, -v.x * v.x - v.y * v.y))
  {
  }

  lemma ScaledCross(v: Vec3, t: real)
    ensures CrossMatrix(Scale(v, t), 0.0) == ScaleM(CrossMatrix(v, 0.0), t)
  {
  }

  lemma ScaledTranspose(a: Mat33, t: real)
    ensures var r := Transpose(a);
      Transpose(ScaleM(a, t)) == Mat33(Scale(r.c0, t), Scale(r.c1, t), Scale(r.c2, t))
  {
    hide Scale, Prod;
    var r := Transpose(a);
    ScaledBy(a.c0, t);
    ScaledBy(a.c1, t);
    ScaledBy(a.c2, t);
    ScaledBy(r.c0, t);
    ScaledBy(r.c1, t);
    ScaledBy(r.c2, t);
  }

  lemma ScaleEntries(v: Vec3, t: real)
    ensures Scale(v, t) == Vec3(t * v.x, t * v.y, t * v.z)
  {
  }

  lemma ScaledRows(a: Mat33, u: Vec3, t: real)
    ensures MulV(ScaleM(a, t), u) == Scale(MulV(a, u), t)
  {
    hide Dot, Scale;
    var r := Transpose(a);
    ScaledTranspose(a, t);
    ScaleEntries(MulV(a, u), t);
    ScaledDot(r.c0, u, t);
    ScaledDot(r.c1, u, t);
    ScaledDot(r.c2, u, t);
  }

  lemma ScaleVTwice(v: Vec3, s: real, t: real)
    ensures Scale(Scale(v, s), t) == Scale(v, s * t)
  {
    TimesTwice(v.x, s, t);
    TimesTwice(v.y, s, t);
    TimesTwice(v.z, s, t);
  }

  lemma TimesTwice(a: real, s: real, t: real)
    ensures (a * s) * t == a * (s * t)
  {
  }

  lemma ScaledSquareColumn(a: Mat33, v: Vec3, t: real)
    ensures MulV(ScaleM(a, t), Scale(v, t)) == Scale(MulV(a, v), t * t)
  {
    hide MulV, Scale, ScaleM;
    ScaledRows(a, Scale(v, t), t);
    MulVLinear(a, v, v, t);
    ScaleVTwice(MulV(a, v), t, t);
  }

  lemma ScaledSquare(a: Mat33, t: real)
    ensures Mul(ScaleM(a, t), ScaleM(a, t)) == ScaleM(Mul(a, a), t * t)
  {
    hide MulV, Scale;
    ScaledSquareColumn(a, a.c0, t);
    ScaledSquareColumn(a, a.c1, t);
    ScaledSquareColumn(a, a.c2, t);
  }

  lemma ScaleTwice(a: Mat33, s: real, t: real)
    ensures ScaleM(ScaleM(a, s), t) == ScaleM(a, s * t)
  {
    hide Scale;
    ScaleVTwice(a.c0, s, t);
    ScaleVTwice(a.c1, s, t);
    ScaleVTwice(a.c2, s, t);
  }

  lemma AtDoubleAngle(libm: Libm, h: real, t: real)
    requires DoubleAngles(libm) && t == 2.0 * h
    ensures libm.sin(t) == 2.0 * (libm.sin(h) * libm.cos(h)) && libm.cos(t) == 1.0 - 2.0 * (libm.sin(h) * libm.sin(h))
  {
    assert libm.sin(t) == 2.0 * Prod(libm.sin(h), libm.cos(h));
    assert libm.cos(t) == 1.0 - 2.0 * Square(libm.sin(h));
  }

  lemma Coefficients(s: real, c: real, i: real, t: real, sin: real, cos: real)
    requires sin == 2.0 * (s * c) && cos == 1.0 - 2.0 * (s * s) && t == s * i
    ensures t * (2.0 * c) == sin * i && (t * t) * 2.0 == (1.0 - cos) * (i * i)
  {
    assert (1.0 - cos) * (i * i) == (2.0 * (s * s)) * (i * i);
  }

  lemma FirstTerm(cx: Mat33, wx: Mat33, t: real, k: real, a: real)
    requires cx == ScaleM(wx, t) && t * k == a
    ensures ScaleM(cx, k) == ScaleM(wx, a)
  {
    ScaleTwice(wx, t, k);
  }

  lemma SecondTerm(cx: Mat33, wx: Mat33, t: real, k: real, a: real)
    requires cx == ScaleM(wx, t) && (t * t) * k == a
    ensures ScaleM(Mul(cx, cx), k) == ScaleM(Mul(wx, wx), a)
  {
    hide ScaleM, Mul;
    ScaledSquare(wx, t);
    FirstTerm(Mul(cx, cx), Mul(wx, wx), t * t, k, a);
  }

  /** Sine and cosine at one angle, as names that the proofs about factors do not look behind. */
  function Sin(libm: Libm, t: real): real { libm.sin(t) }

  function Cos(libm: Libm, t: real): real { libm.cos(t) }

  lemma FactorsBySine(libm: Libm, l: real, dT: real, h: real)
    requires l != 0.0
    ensures K0Of(libm, l, dT) == (1.0 - Cos(libm, l * dT)) * ((1.0 / l) * (1.0 / l))
    ensures K1Of(libm, l, dT) == Sin(libm, l * dT) * (1.0 / l)
    ensures PsiFactorOf(libm, l, h) == Sin(libm, h) * (1.0 / l)
  {
  }

  lemma SinesAtDoubleAngle(libm: Libm, h: real, t: real)
    requires DoubleAngles(libm) && t == 2.0 * h
    ensures Sin(libm, t) == 2.0 * (Sin(libm, h) * Cos(libm, h)) && Cos(libm, t) == 1.0 - 2.0 * (Sin(libm, h) * Sin(libm, h))
  {
    hide DoubleAngles;
    AtDoubleAngle(libm, h, t);
  }

  lemma FactorsByLength(libm: Libm, l: real, dT: real, h: real)
    requires l != 0.0 && DoubleAngles(libm) && l * dT == 2.0 * h
    ensures PsiFactorOf(libm, l, h) * (2.0 * Cos(libm, h)) == K1Of(libm, l, dT)
    ensures (PsiFactorOf(libm, l, h) * PsiFactorOf(libm, l, h)) * 2.0 == K0Of(libm, l, dT)
  {
    hide DoubleAngles, Sin, Cos, K0Of, K1Of, PsiFactorOf;
    FactorsBySine(libm, l, dT, h);
    SinesAtDoubleAngle(libm, h, l * dT);
    Coefficients(Sin(libm, h), Cos(libm, h), 1.0 / l, PsiFactorOf(libm, l, h), Sin(libm, l * dT), Cos(libm, l * dT));
  }

  lemma StepFactors(libm: Libm, we: Vec3, dT: real, t: real, k: real)
    requires Length(libm, we) != 0.0 && DoubleAngles(libm)
    requires t == PsiFactor(libm, we, dT) && k == 2.0 * libm.cos(HalfAngle(libm, we, dT))
    ensures t * k == K1(libm, we, dT) && (t * t) * 2.0 == K0(libm, we, dT)
  {
    hide Length, DoubleAngles, K0Of, K1Of, PsiFactorOf;
    FactorsByLength(libm, Length(libm, we), dT, HalfAngle(libm, we, dT));
  }

  lemma StepMatrixIsPhi00(libm: Libm, we: Vec3, dT: real)
    requires Length(libm, we) != 0.0 && DoubleAngles(libm)
    ensures var psi := Psi(libm, we, dT);
      QuatToMatrix(Quat(psi.x, psi.y, psi.z, libm.cos(HalfAngle(libm, we, dT)))) == Phi00(libm, we, dT)
  {
    hide QuatToMatrix, CrossMatrix, Mul, AddM, SubM, Diagonal, Length, ScaleM, DoubleAngles, Scale, K0, K1, PsiFactor;
    var k := 2.0 * libm.cos(HalfAngle(libm, we, dT));
    var t, psi, wx := PsiFactor(libm, we, dT), Psi(libm, we, dT), CrossMatrix(we, 0.0);
    MatrixFromCross(psi, libm.cos(HalfAngle(libm, we, dT)));
    ScaledCross(we, t);
    StepFactors(libm, we, dT, t, k);
    FirstTerm(CrossMatrix(psi, 0.0), wx, t, k, K1(libm, we, dT));
    SecondTerm(CrossMatrix(psi, 0.0), wx, t, 2.0, K0(libm, we, dT));
  }

  lemma NegatedProduct(a: real, b: real)
    ensures 2.0 * (-a) * (-b) == 2.0 * a * b
  {
  }

  lemma NegatedColumn(x: real, y: real, z: real, w: real)
    ensures FirstColumn(-x, -y, -z, -w) == FirstColumn(x, y, z, w)
  {
    NegatedProduct(y, y);
    NegatedProduct(z, z);
    NegatedProduct(x, y);
    NegatedProduct(z, w);
    NegatedProduct(x, z);
    NegatedProduct(y, w);
  }

  lemma NegateKeepsMatrix(q: Quat)
    ensures QuatToMatrix(Negate(q)) == QuatToMatrix(q)
  {
    hide QuatToMatrix, FirstColumn;
    QuatToMatrixColumns(q);
    QuatToMatrixColumns(Negate(q));
    NegatedColumn(q.x, q.y, q.z, q.w);
    NegatedColumn(q.y, q.z, q.x, q.w);
    NegatedColumn(q.z, q.x, q.y, q.w);
  }

  /** The attitude after predict is Phi00 times the attitude before. */
  lemma PredictTurnsAttitude(libm: Libm, q: Quat, w: Vec3, dT: real)
    requires libm.Sound() && DoubleAngles(libm) && IsUnit(q)
    ensures Length(libm, Rate(libm, w)) != 0.0
    ensures QuatToMatrix(Turned(libm, q, w, dT)) == Mul(Phi00(libm, Rate(libm, w), dT), QuatToMatrix(q))
  {
    hide QuatToMatrix, Mul, Phi00, Psi, Product, TimesO, DoubleAngles, Dot, Rate;
    var we := Rate(libm, w);
    RateIsNonzero(libm, w);
    var psi, k2 := Psi(libm, we, dT), libm.cos(HalfAngle(libm, we, dT));
    var p := Quat(psi.x, psi.y, psi.z, k2);
    PsiLength(libm, we, dT);
    NormOfParts(psi, k2);
    assert k2 * k2 == Square(k2);
    TimesOIsProduct(psi, k2, q);
    MatrixOfProduct(q, p);
    StepMatrixIsPhi00(libm, we, dT);
    NegateKeepsMatrix(TimesO(psi, k2, q));
  }

  /** The gravity reported after predict is Phi00 times the gravity before. */
  lemma GravityTurns(libm: Libm, q: Quat, w: Vec3, dT: real)
    requires libm.Sound() && DoubleAngles(libm) && IsUnit(q)
    ensures Length(libm, Rate(libm, w)) > 0.0
    ensures GravityOf(Turned(libm, q, w, dT)) == MulV(Phi00(libm, Rate(libm, w), dT), GravityOf(q))
  {
    hide QuatToMatrix, MulV, Phi00, Turned, DoubleAngles, Rate, Length, Scale, IsSqrt, IsUnit;
    RateIsNonzero(libm, w);
    PredictTurnsAttitude(libm, q, w, dT);
    var c := QuatToMatrix(q).c2;
    MulVLinear(Phi00(libm, Rate(libm, w), dT), c, c, NOMINAL_GRAVITY);
  }
}
