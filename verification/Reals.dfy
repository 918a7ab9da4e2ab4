/** Facts about real products and square roots that the geometry needs. A square root is any
    function with the defining property of one, as its values are not computed here. */
module Reals {

  function Prod(a: real, b: real): real { a * b }

  function Square(v: real): real { Prod(v, v) }

  function AbsR(v: real): real { if v < 0.0 then -v else v }

  /** The one fact used about sqrtf. */
  ghost predicate IsSqrt(sqrt: real -> real) {
    forall v :: v >= 0.0 ==> sqrt(v) >= 0.0 && sqrt(v) * sqrt(v) == v
  }

  lemma SqrtUnique(sqrt: real -> real, v: real, r: real)
    requires IsSqrt(sqrt) && r >= 0.0 && v == r * r
    ensures sqrt(v) == r
  {
    assert v >= 0.0;
    RootsAgree(sqrt(v), r);
  }

  lemma RootsAgree(s: real, r: real)
    requires s >= 0.0 && r >= 0.0 && s * s == r * r
    ensures s == r
  {
    if s < r {
      SquareGrows(s, r);
    } else if r < s {
      SquareGrows(r, s);
    }
  }

  lemma SquareGrows(s: real, r: real)
    requires 0.0 <= s < r
    ensures s * s < r * r
  {
    PositiveProduct(r - s, r + s);
  }

  lemma PositiveProduct(a: real, b: real)
    requires a > 0.0 && b > 0.0
    ensures a * b > 0.0
  {
  }

  lemma RootOfSquare(sqrt: real -> real, v: real, r: real)
    requires IsSqrt(sqrt) && v == r * r
    ensures sqrt(v) == AbsR(r) && v >= 0.0
  {
    SqrtUnique(sqrt, v, AbsR(r));
  }

  lemma SquareOfNegative(a: real)
    ensures Square(-a) == Square(a)
  {
  }

  lemma SquarePositive(a: real)
    ensures Square(a) >= 0.0 && (a != 0.0 ==> Square(a) > 0.0)
  {
    if a > 0.0 {
      PositiveProd(a, a);
    } else if a < 0.0 {
      PositiveProd(-a, -a);
      SquareOfNegative(a);
    } else {
      assert Square(0.0) == 0.0;
    }
  }

  lemma PositiveProd(a: real, b: real)
    requires a > 0.0 && b > 0.0
    ensures Prod(a, b) > 0.0
  {
  }

  lemma SumOfSquaresZero(a: real, b: real, c: real)
    requires Square(a) + Square(b) + Square(c) == 0.0
    ensures a == b == c == 0.0
  {
    SquarePositive(a);
    SquarePositive(b);
    SquarePositive(c);
  }

  lemma NonnegativeProduct(a: real, b: real)
    requires a >= 0.0 && b >= 0.0
    ensures a * b >= 0.0 && (a > 0.0 && b > 0.0 ==> a * b > 0.0)
  {
    if a > 0.0 && b > 0.0 {
      PositiveProduct(a, b);
    }
  }
}
