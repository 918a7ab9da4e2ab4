/** The 6x6 matrices of the fusion as 2x2 blocks of Mat33: mCR is what the code calls m[C][R], the block in
    column C and row R. */
module Blocks {
  import opened Space

  datatype Block = Block(m00: Mat33, m01: Mat33, m10: Mat33, m11: Mat33)

  datatype Vec6 = Vec6(v0: Vec3, v1: Vec3)

  const ZERO66 := Block(ZERO33, ZERO33, ZERO33, ZERO33)

  /** doMul: block (c, r) is the sum over k of a[k][r] * b[c][k]. */
  function MulB(a: Block, b: Block): Block {
    Block(AddM(Mul(a.m00, b.m00), Mul(a.m10, b.m01)), AddM(Mul(a.m01, b.m00), Mul(a.m11, b.m01)),
          AddM(Mul(a.m00, b.m10), Mul(a.m10, b.m11)), AddM(Mul(a.m01, b.m10), Mul(a.m11, b.m11)))
  }

  function AddB(a: Block, b: Block): Block {
    Block(AddM(a.m00, b.m00), AddM(a.m01, b.m01), AddM(a.m10, b.m10), AddM(a.m11, b.m11))
  }

  /** transpose handles matrices of matrices: the blocks change places and are transposed themselves. */
  function TransposeB(a: Block): Block {
    Block(Transpose(a.m00), Transpose(a.m10), Transpose(a.m01), Transpose(a.m11))
  }

  function Apply(a: Block, x: Vec6): Vec6 {
    Vec6(Add(MulV(a.m00, x.v0), MulV(a.m10, x.v1)), Add(MulV(a.m01, x.v0), MulV(a.m11, x.v1)))
  }

  function Dot6(x: Vec6, y: Vec6): real { Dot(x.v0, y.v0) + Dot(x.v1, y.v1) }

  function Form(a: Block, x: Vec6): real { Dot6(x, Apply(a, x)) }

  ghost predicate SymmetricB(a: Block) { TransposeB(a) == a }

  ghost predicate PositiveSemidefinite(a: Block) { forall x :: Form(a, x) >= 0.0 }

  lemma AddExchange(a: Vec3, b: Vec3, c: Vec3, d: Vec3)
    ensures Add(Add(a, b), Add(c, d)) == Add(Add(a, c), Add(b, d))
  {
  }

  lemma ApplyRow(a: Mat33, b: Mat33, p: Mat33, q: Mat33, r: Mat33, s: Mat33, u: Vec3, v: Vec3)
    ensures Add(MulV(AddM(Mul(a, p), Mul(b, q)), u), MulV(AddM(Mul(a, r), Mul(b, s)), v))
         == Add(MulV(a, Add(MulV(p, u), MulV(r, v))), MulV(b, Add(MulV(q, u), MulV(s, v))))
  {
    MulVAdd(Mul(a, p), Mul(b, q), u);
    MulVAdd(Mul(a, r), Mul(b, s), v);
    MulVAssoc(a, p, u);
    MulVAssoc(b, q, u);
    MulVAssoc(a, r, v);
    MulVAssoc(b, s, v);
    MulVLinear(a, MulV(p, u), MulV(r, v), 0.0);
    MulVLinear(b, MulV(q, u), MulV(s, v), 0.0);
    AddExchange(MulV(a, MulV(p, u)), MulV(b, MulV(q, u)), MulV(a, MulV(r, v)), MulV(b, MulV(s, v)));
  }

  lemma ApplyMul(a: Block, b: Block, x: Vec6)
    ensures Apply(MulB(a, b), x) == Apply(a, Apply(b, x))
  {
    ApplyRow(a.m00, a.m10, b.m00, b.m01, b.m10, b.m11, x.v0, x.v1);
    ApplyRow(a.m01, a.m11, b.m00, b.m01, b.m10, b.m11, x.v0, x.v1);
  }

  lemma DotOfSums(u: Vec3, v: Vec3, a: Vec3, b: Vec3, c: Vec3, d: Vec3)
    ensures Dot(u, Add(a, b)) + Dot(v, Add(c, d)) == Dot(u, a) + Dot(v, c) + (Dot(u, b) + Dot(v, d))
  {
    DotLinear(u, a, b, 0.0);
    DotLinear(v, c, d, 0.0);
  }

  lemma AdjointB(a: Block, x: Vec6, y: Vec6)
    ensures Dot6(x, Apply(a, y)) == Dot6(Apply(TransposeB(a), x), y)
  {
    DotOfSums(x.v0, x.v1, MulV(a.m00, y.v0), MulV(a.m10, y.v1), MulV(a.m01, y.v0), MulV(a.m11, y.v1));
    Adjoint(a.m00, x.v0, y.v0);
    Adjoint(a.m10, x.v0, y.v1);
    Adjoint(a.m01, x.v1, y.v0);
    Adjoint(a.m11, x.v1, y.v1);
    DotDistributes(MulV(Transpose(a.m00), x.v0), MulV(Transpose(a.m01), x.v1), y.v0);
    DotDistributes(MulV(Transpose(a.m10), x.v0), MulV(Transpose(a.m11), x.v1), y.v1);
  }

  lemma TransposeMulB(a: Block, b: Block)
    ensures TransposeB(MulB(a, b)) == MulB(TransposeB(b), TransposeB(a))
  {
    TransposeSum(a.m00, b.m00, a.m10, b.m01);
    TransposeSum(a.m01, b.m00, a.m11, b.m01);
    TransposeSum(a.m00, b.m10, a.m10, b.m11);
    TransposeSum(a.m01, b.m10, a.m11, b.m11);
  }

  lemma TransposeSum(a: Mat33, b: Mat33, c: Mat33, d: Mat33)
    ensures Transpose(AddM(Mul(a, b), Mul(c, d))) == AddM(Mul(Transpose(b), Transpose(a)), Mul(Transpose(d), Transpose(c)))
  {
    TransposeAdd(Mul(a, b), Mul(c, d));
    TransposeMul(a, b);
    TransposeMul(c, d);
  }

  lemma MulDistributes(a: Mat33, b: Mat33, c: Mat33)
    ensures Mul(a, AddM(b, c)) == AddM(Mul(a, b), Mul(a, c))
    ensures Mul(AddM(a, b), c) == AddM(Mul(a, c), Mul(b, c))
    ensures Mul(a, SubM(b, c)) == SubM(Mul(a, b), Mul(a, c))
  {
    MulVLinear(a, b.c0, c.c0, 0.0);
    MulVLinear(a, b.c1, c.c1, 0.0);
    MulVLinear(a, b.c2, c.c2, 0.0);
    MulVAdd(a, b, c.c0);
    MulVAdd(a, b, c.c1);
    MulVAdd(a, b, c.c2);
  }

  lemma AddMExchange(a: Mat33, b: Mat33, c: Mat33, d: Mat33)
    ensures AddM(AddM(a, b), AddM(c, d)) == AddM(AddM(a, c), AddM(b, d))
  {
  }

  /** One block of the associativity of block products. */
  lemma MulEntry(a: Mat33, b: Mat33, p: Mat33, q: Mat33, r: Mat33, s: Mat33, u: Mat33, v: Mat33)
    ensures AddM(Mul(AddM(Mul(a, p), Mul(b, q)), u), Mul(AddM(Mul(a, r), Mul(b, s)), v))
         == AddM(Mul(a, AddM(Mul(p, u), Mul(r, v))), Mul(b, AddM(Mul(q, u), Mul(s, v))))
  {
    MulDistributes(Mul(a, p), Mul(b, q), u);
    MulDistributes(Mul(a, r), Mul(b, s), v);
    MulAssoc(a, p, u);
    MulAssoc(b, q, u);
    MulAssoc(a, r, v);
    MulAssoc(b, s, v);
    MulDistributes(a, Mul(p, u), Mul(r, v));
    MulDistributes(b, Mul(q, u), Mul(s, v));
    AddMExchange(Mul(a, Mul(p, u)), Mul(b, Mul(q, u)), Mul(a, Mul(r, v)), Mul(b, Mul(s, v)));
  }

  lemma MulAssocB(a: Block, b: Block, c: Block)
    ensures MulB(MulB(a, b), c) == MulB(a, MulB(b, c))
  {
    MulEntry(a.m00, a.m10, b.m00, b.m01, b.m10, b.m11, c.m00, c.m01);
    MulEntry(a.m01, a.m11, b.m00, b.m01, b.m10, b.m11, c.m00, c.m01);
    MulEntry(a.m00, a.m10, b.m00, b.m01, b.m10, b.m11, c.m10, c.m11);
    MulEntry(a.m01, a.m11, b.m00, b.m01, b.m10, b.m11, c.m10, c.m11);
  }

  function Congruence(a: Block, p: Block): Block { MulB(MulB(a, p), TransposeB(a)) }

  lemma CongruenceKeepsSymmetry(a: Block, p: Block)
    requires SymmetricB(p)
    ensures SymmetricB(Congruence(a, p))
  {
    TransposeMulB(MulB(a, p), TransposeB(a));
    TransposeMulB(a, p);
    TransposeTwice(a);
    MulAssocB(a, p, TransposeB(a));
  }

  lemma TransposeTwice(a: Block)
    ensures TransposeB(TransposeB(a)) == a
  {
    TransposeAdd(a.m00, a.m00);
    TransposeAdd(a.m01, a.m01);
    TransposeAdd(a.m10, a.m10);
    TransposeAdd(a.m11, a.m11);
  }

  lemma CongruenceForm(a: Block, p: Block, x: Vec6)
    ensures Form(Congruence(a, p), x) == Form(p, Apply(TransposeB(a), x))
  {
    ApplyMul(MulB(a, p), TransposeB(a), x);
    ApplyMul(a, p, Apply(TransposeB(a), x));
    AdjointB(a, x, Apply(p, Apply(TransposeB(a), x)));
  }

  lemma CongruenceKeepsPositivity(a: Block, p: Block)
    requires PositiveSemidefinite(p)
    ensures PositiveSemidefinite(Congruence(a, p))
  {
    forall x ensures Form(Congruence(a, p), x) >= 0.0 {
      CongruenceForm(a, p, x);
    }
  }

  lemma AddForm(a: Block, b: Block, x: Vec6)
    ensures Form(AddB(a, b), x) == Form(a, x) + Form(b, x)
  {
    MulVAdd(a.m00, b.m00, x.v0);
    MulVAdd(a.m10, b.m10, x.v1);
    MulVAdd(a.m01, b.m01, x.v0);
    MulVAdd(a.m11, b.m11, x.v1);
    FormRow(x.v0, MulV(a.m00, x.v0), MulV(b.m00, x.v0), MulV(a.m10, x.v1), MulV(b.m10, x.v1));
    FormRow(x.v1, MulV(a.m01, x.v0), MulV(b.m01, x.v0), MulV(a.m11, x.v1), MulV(b.m11, x.v1));
  }

  lemma FormRow(x: Vec3, a: Vec3, b: Vec3, c: Vec3, d: Vec3)
    ensures Dot(x, Add(Add(a, b), Add(c, d))) == Dot(x, Add(a, c)) + Dot(x, Add(b, d))
  {
    AddExchange(a, b, c, d);
    DotLinear(x, Add(a, c), Add(b, d), 0.0);
  }

  lemma SumKeepsPositivity(a: Block, b: Block)
    requires PositiveSemidefinite(a) && PositiveSemidefinite(b)
    ensures PositiveSemidefinite(AddB(a, b))
  {
    forall x ensures Form(AddB(a, b), x) >= 0.0 {
      AddForm(a, b, x);
    }
  }

  lemma SumKeepsSymmetry(a: Block, b: Block)
    requires SymmetricB(a) && SymmetricB(b)
    ensures SymmetricB(AddB(a, b))
  {
    TransposeAdd(a.m00, b.m00);
    TransposeAdd(a.m01, b.m01);
    TransposeAdd(a.m10, b.m10);
    TransposeAdd(a.m11, b.m11);
  }

  lemma HalfForms(p: Block, u: Vec3)
    ensures Form(p, Vec6(u, ZERO3)) == Dot(u, MulV(p.m00, u))
    ensures Form(p, Vec6(ZERO3, u)) == Dot(u, MulV(p.m11, u))
  {
    TimesZero(p.m10, MulV(p.m00, u));
    TimesZero(p.m11, MulV(p.m01, u));
    TimesZero(p.m00, MulV(p.m10, u));
    TimesZero(p.m01, MulV(p.m11, u));
  }
}
