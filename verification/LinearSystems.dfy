/** Square real matrices as sequences of rows, and the elementary row operations as they act on the
    solutions of a linear system. */
module LinearSystems {

  type Vec = seq<real>
  type Matrix = seq<seq<real>>

  ghost predicate IsSquare(m: Matrix, n: nat) {
    |m| == n && forall r :: 0 <= r < n ==> |m[r]| == n
  }

  function DotTo(a: Vec, b: Vec, n: nat): real
    requires n <= |a| && n <= |b|
  {
    if n == 0 then 0.0 else DotTo(a, b, n - 1) + a[n - 1] * b[n - 1]
  }

  function Dot(a: Vec, b: Vec): real
    requires |a| == |b|
  {
    DotTo(a, b, |a|)
  }

  function Delta(r: int, c: int): real { if r == c then 1.0 else 0.0 }

  function Unit(n: nat, c: nat): (u: Vec)
    ensures |u| == n && forall k :: 0 <= k < n ==> u[k] == Delta(k, c)
  {
    seq(n, k => Delta(k, c))
  }

  function Zeros(n: nat): (z: Vec)
    ensures |z| == n && forall k :: 0 <= k < n ==> z[k] == 0.0
  {
    seq(n, k => 0.0)
  }

  function Identity(n: nat): (m: Matrix)
    ensures IsSquare(m, n)
    ensures forall r :: 0 <= r < n ==> m[r] == Unit(n, r)
  {
    seq(n, r requires 0 <= r => Unit(n, r))
  }

  function Column(m: Matrix, n: nat, c: nat): (v: Vec)
    requires IsSquare(m, n) && c < n
    ensures |v| == n && forall r :: 0 <= r < n ==> v[r] == m[r][c]
  {
    seq(n, r requires 0 <= r < n => m[r][c])
  }

  /** Entry (r, c) is the sum over k of a[r][k] * b[k][c]. */
  function Product(a: Matrix, b: Matrix, n: nat): (p: Matrix)
    requires IsSquare(a, n) && IsSquare(b, n)
    ensures IsSquare(p, n)
    ensures forall r, c :: 0 <= r < n && 0 <= c < n ==> p[r][c] == Dot(a[r], Column(b, n, c))
  {
    seq(n, r requires 0 <= r < n => seq(n, c requires 0 <= c < n => Dot(a[r], Column(b, n, c))))
  }

  // ----- dot products

  function Scale(v: Vec, t: real): (w: Vec)
    ensures |w| == |v| && forall k :: 0 <= k < |v| ==> w[k] == v[k] * t
  {
    seq(|v|, k requires 0 <= k < |v| => v[k] * t)
  }

  function Minus(v: Vec, w: Vec, t: real): (u: Vec)
    requires |v| == |w|
    ensures |u| == |v| && forall k :: 0 <= k < |v| ==> u[k] == v[k] - w[k] * t
  {
    seq(|v|, k requires 0 <= k < |v| => v[k] - w[k] * t)
  }

  lemma {:induction false} DotScale(v: Vec, t: real, x: Vec, n: nat)
    requires |v| == |x| && n <= |v|
    ensures DotTo(Scale(v, t), x, n) == t * DotTo(v, x, n)
  {
    if n > 0 {
      DotScale(v, t, x, n - 1);
    }
  }

  lemma {:induction false} DotMinus(v: Vec, w: Vec, t: real, x: Vec, n: nat)
    requires |v| == |w| == |x| && n <= |v|
    ensures DotTo(Minus(v, w, t), x, n) == DotTo(v, x, n) - t * DotTo(w, x, n)
  {
    if n > 0 {
      DotMinus(v, w, t, x, n - 1);
    }
  }

  lemma {:induction false} DotUnit(v: Vec, c: nat, n: nat)
    requires c < |v| && n <= |v|
    ensures DotTo(v, Unit(|v|, c), n) == if c < n then v[c] else 0.0
    ensures DotTo(Unit(|v|, c), v, n) == if c < n then v[c] else 0.0
  {
    if n > 0 {
      DotUnit(v, c, n - 1);
    }
  }

  lemma {:induction false} DotZeros(v: Vec, n: nat)
    requires n <= |v|
    ensures DotTo(v, Zeros(|v|), n) == 0.0
  {
    if n > 0 {
      DotZeros(v, n - 1);
    }
  }

  // ----- linear systems

  /** x and b satisfy a * x == e * b. */
  ghost predicate Solves(a: Matrix, e: Matrix, x: Vec, b: Vec) {
    && |a| == |e| == |x| == |b|
    && forall r :: 0 <= r < |a| ==> |a[r]| == |a| && |e[r]| == |a| && Dot(a[r], x) == Dot(e[r], b)
  }

  /** The system (a, e) has the same solutions as src * x == b. */
  ghost predicate Equivalent(src: Matrix, a: Matrix, e: Matrix, n: nat) {
    && IsSquare(src, n) && IsSquare(a, n) && IsSquare(e, n)
    && forall x: Vec, b: Vec :: |x| == n && |b| == n ==> (Solves(src, Identity(n), x, b) <==> Solves(a, e, x, b))
  }

  ghost predicate InKernel(a: Matrix, x: Vec) {
    |a| == |x| && forall r :: 0 <= r < |a| ==> |a[r]| == |x| && Dot(a[r], x) == 0.0
  }

  /** Some nonzero vector is mapped to zero. */
  ghost predicate Singular(a: Matrix) {
    exists x: Vec :: InKernel(a, x) && x != Zeros(|a|)
  }

  function SwapRows(m: Matrix, i: nat, j: nat): Matrix
    requires i < |m| && j < |m|
  {
    m[i := m[j]][j := m[i]]
  }

  function ScaleRow(m: Matrix, i: nat, t: real): Matrix
    requires i < |m|
  {
    m[i := Scale(m[i], t)]
  }

  function SubtractRow(m: Matrix, i: nat, j: nat, t: real): Matrix
    requires i < |m| && j < |m| && |m[i]| == |m[j]|
  {
    m[j := Minus(m[j], m[i], t)]
  }

  /** One equation of the system. */
  ghost predicate Holds(v: Vec, w: Vec, x: Vec, b: Vec) {
    |v| == |x| && |w| == |b| && Dot(v, x) == Dot(w, b)
  }

  lemma SolvesRows(a: Matrix, e: Matrix, n: nat, x: Vec, b: Vec)
    requires IsSquare(a, n) && IsSquare(e, n) && |x| == |b| == n
    ensures Solves(a, e, x, b) <==> forall r :: 0 <= r < n ==> Holds(a[r], e[r], x, b)
  {
    if forall r :: 0 <= r < n ==> Holds(a[r], e[r], x, b) {
      forall r | 0 <= r < n ensures Dot(a[r], x) == Dot(e[r], b) {
        assert Holds(a[r], e[r], x, b);
      }
    }
  }

  lemma SwapKeepsSolutions(src: Matrix, a: Matrix, e: Matrix, n: nat, i: nat, j: nat)
    requires Equivalent(src, a, e, n) && i < n && j < n
    ensures Equivalent(src, SwapRows(a, i, j), SwapRows(e, i, j), n)
  {
    var a', e' := SwapRows(a, i, j), SwapRows(e, i, j);
    forall x: Vec, b: Vec | |x| == n && |b| == n
      ensures Solves(a, e, x, b) <==> Solves(a', e', x, b)
    {
      SolvesRows(a, e, n, x, b);
      SolvesRows(a', e', n, x, b);
      assert a'[i] == a[j] && e'[i] == e[j] && a'[j] == a[i] && e'[j] == e[i];
      assert forall r :: 0 <= r < n && r != i && r != j ==> a'[r] == a[r] && e'[r] == e[r];
    }
  }

  /** Changing one equation into one that, the others given, says the same keeps the solutions. */
  lemma ReplaceRow(a: Matrix, e: Matrix, n: nat, j: nat, v: Vec, w: Vec, x: Vec, b: Vec)
    requires IsSquare(a, n) && IsSquare(e, n) && |x| == |b| == n && j < n && |v| == |w| == n
    requires (forall r :: 0 <= r < n && r != j ==> Holds(a[r], e[r], x, b))
             ==> (Holds(v, w, x, b) <==> Holds(a[j], e[j], x, b))
    ensures Solves(a, e, x, b) <==> Solves(a[j := v], e[j := w], x, b)
  {
    var a', e' := a[j := v], e[j := w];
    SolvesRows(a, e, n, x, b);
    SolvesRows(a', e', n, x, b);
    assert forall r :: 0 <= r < n && r != j ==> a'[r] == a[r] && e'[r] == e[r];
    assert a'[j] == v && e'[j] == w;
    assert Solves(a, e, x, b) ==> forall r :: 0 <= r < n && r != j ==> Holds(a[r], e[r], x, b);
    if Solves(a', e', x, b) {
      assert Holds(a'[j], e'[j], x, b);
      forall r | 0 <= r < n && r != j ensures Holds(a[r], e[r], x, b) {
        assert Holds(a'[r], e'[r], x, b);
      }
    }
  }

  lemma ScaledEquation(v: Vec, w: Vec, t: real, x: Vec, b: Vec)
    requires |v| == |x| && |w| == |b| && t != 0.0
    ensures Holds(Scale(v, t), Scale(w, t), x, b) <==> Holds(v, w, x, b)
  {
    hide DotTo, Scale;
    DotScale(v, t, x, |v|);
    DotScale(w, t, b, |w|);
    FactorCancels(t, Dot(v, x), Dot(w, b));
  }

  lemma FactorCancels(t: real, p: real, q: real)
    requires t != 0.0
    ensures t * p == t * q <==> p == q
  {
    if t * p == t * q {
      assert t * (p - q) == 0.0;
    }
  }

  lemma SubtractedEquation(v: Vec, w: Vec, v': Vec, w': Vec, t: real, x: Vec, b: Vec)
    requires |v| == |v'| == |x| && |w| == |w'| == |b|
    requires Holds(v', w', x, b)
    ensures Holds(Minus(v, v', t), Minus(w, w', t), x, b) <==> Holds(v, w, x, b)
  {
    hide DotTo, Minus;
    DotMinus(v, v', t, x, |v|);
    DotMinus(w, w', t, b, |w|);
    DifferenceCancels(Dot(Minus(v, v', t), x), Dot(Minus(w, w', t), b), Dot(v, x), Dot(w, b), t, Dot(v', x), Dot(w', b));
  }

  lemma DifferenceCancels(p': real, q': real, p: real, q: real, t: real, d: real, e: real)
    requires p' == p - t * d && q' == q - t * e && d == e
    ensures p' == q' <==> p == q
  {
    assert t * d == t * e;
  }

  lemma ScaleKeepsSolutions(src: Matrix, a: Matrix, e: Matrix, n: nat, i: nat, t: real)
    requires Equivalent(src, a, e, n) && i < n && t != 0.0
    ensures Equivalent(src, ScaleRow(a, i, t), ScaleRow(e, i, t), n)
  {
    forall x: Vec, b: Vec | |x| == n && |b| == n
      ensures Solves(a, e, x, b) <==> Solves(ScaleRow(a, i, t), ScaleRow(e, i, t), x, b)
    {
      ScaledEquation(a[i], e[i], t, x, b);
      ReplaceRow(a, e, n, i, Scale(a[i], t), Scale(e[i], t), x, b);
    }
  }

  lemma SubtractKeepsSolutions(src: Matrix, a: Matrix, e: Matrix, n: nat, i: nat, j: nat, t: real)
    requires Equivalent(src, a, e, n) && i < n && j < n && i != j
    ensures Equivalent(src, SubtractRow(a, i, j, t), SubtractRow(e, i, j, t), n)
  {
    forall x: Vec, b: Vec | |x| == n && |b| == n
      ensures Solves(a, e, x, b) <==> Solves(SubtractRow(a, i, j, t), SubtractRow(e, i, j, t), x, b)
    {
      if Holds(a[i], e[i], x, b) {
        SubtractedEquation(a[j], e[j], a[i], e[i], t, x, b);
      }
      ReplaceRow(a, e, n, j, Minus(a[j], a[i], t), Minus(e[j], e[i], t), x, b);
    }
  }

  // ----- a system reduced to the identity has its right-hand matrix as the two-sided inverse

  lemma RightInverseEntry(src: Matrix, inverse: Matrix, n: nat, r: nat, c: nat)
    requires Equivalent(src, Identity(n), inverse, n) && r < n && c < n
    ensures Dot(src[r], Column(inverse, n, c)) == Delta(r, c)
  {
    var x, b := Column(inverse, n, c), Unit(n, c);
    forall k: nat | k < n ensures Dot(Identity(n)[k], x) == Dot(inverse[k], b) {
      DotUnit(x, k, n);
      DotUnit(inverse[k], c, n);
    }
    assert Solves(Identity(n), inverse, x, b);
    assert Solves(src, Identity(n), x, b);
    DotUnit(b, r, n);
  }

  /** The right-hand matrix always records the row operations done: e * src is the matrix reached. */
  lemma TrackedProduct(src: Matrix, a: Matrix, e: Matrix, n: nat)
    requires Equivalent(src, a, e, n)
    ensures Product(e, src, n) == a
  {
    forall r: nat, c: nat | r < n && c < n ensures Product(e, src, n)[r][c] == a[r][c] {
      var x, b := Unit(n, c), Column(src, n, c);
      forall k: nat | k < n ensures Dot(src[k], x) == Dot(Identity(n)[k], b) {
        DotUnit(src[k], c, n);
        DotUnit(b, k, n);
      }
      assert Solves(src, Identity(n), x, b);
      DotUnit(a[r], c, n);
    }
    forall r: nat | r < n ensures Product(e, src, n)[r] == a[r] {
    }
  }

  lemma OnlyZeroInKernel(src: Matrix, inverse: Matrix, n: nat, x: Vec)
    requires Equivalent(src, Identity(n), inverse, n) && InKernel(src, x)
    ensures x == Zeros(n)
  {
    var b := Zeros(n);
    forall k: nat | k < n ensures Dot(Identity(n)[k], b) == 0.0 && Dot(inverse[k], b) == 0.0 {
      DotZeros(Identity(n)[k], n);
      DotZeros(inverse[k], n);
    }
    assert Solves(src, Identity(n), x, b);
    assert Solves(Identity(n), inverse, x, b);
    forall r: nat | r < n ensures x[r] == 0.0 {
      assert Dot(Identity(n)[r], x) == Dot(inverse[r], b);
      DotUnit(x, r, n);
    }
  }

  lemma ReducedGivesInverse(src: Matrix, inverse: Matrix, n: nat)
    requires Equivalent(src, Identity(n), inverse, n)
    ensures Product(inverse, src, n) == Identity(n)
    ensures Product(src, inverse, n) == Identity(n)
    ensures !Singular(src)
  {
    forall r: nat, c: nat | r < n && c < n
      ensures Product(src, inverse, n)[r][c] == Delta(r, c)
    {
      RightInverseEntry(src, inverse, n, r, c);
    }
    IsIdentity(Product(src, inverse, n), n);
    TrackedProduct(src, Identity(n), inverse, n);
    forall x: Vec | InKernel(src, x) ensures x == Zeros(n) {
      OnlyZeroInKernel(src, inverse, n, x);
    }
  }

  lemma IsIdentity(p: Matrix, n: nat)
    requires IsSquare(p, n) && forall r, c :: 0 <= r < n && 0 <= c < n ==> p[r][c] == Delta(r, c)
    ensures p == Identity(n)
  {
    forall r: nat | r < n ensures p[r] == Identity(n)[r] {
    }
  }

  // ----- a column without a pivot

  /** The first i columns are those of the identity. */
  ghost predicate UnitColumns(a: Matrix, n: nat, i: nat) {
    IsSquare(a, n) && i <= n && forall r, c :: 0 <= r < n && 0 <= c < i ==> a[r][c] == Delta(r, c)
  }

  /** Column i expressed by the first i columns. */
  function Dependency(a: Matrix, n: nat, i: nat): (x: Vec)
    requires IsSquare(a, n) && i < n
    ensures |x| == n
    ensures forall k :: 0 <= k < n ==> x[k] == if k < i then -a[k][i] else Delta(k, i)
  {
    seq(n, k requires 0 <= k < n => if k < i then -a[k][i] else Delta(k, i))
  }

  lemma {:induction false} DotDependency(a: Matrix, n: nat, i: nat, r: nat, k: nat)
    requires UnitColumns(a, n, i) && i < n && r < n && k <= n
    requires r >= i ==> a[r][i] == 0.0
    ensures DotTo(a[r], Dependency(a, n, i), k) == if r < k <= i && r < i then -a[r][i] else 0.0
  {
    if k > 0 {
      DotDependency(a, n, i, r, k - 1);
      assert k - 1 < i ==> a[r][k - 1] == Delta(r, k - 1);
    }
  }

  /** If the search finds no pivot in column i the matrix it started from is singular. */
  lemma NoPivotMeansSingular(src: Matrix, a: Matrix, e: Matrix, n: nat, i: nat)
    requires Equivalent(src, a, e, n) && UnitColumns(a, n, i) && i < n
    requires forall r :: i <= r < n ==> a[r][i] == 0.0
    ensures Singular(src)
  {
    var x, b := Dependency(a, n, i), Zeros(n);
    forall r: nat | r < n
      ensures Dot(a[r], x) == 0.0 && Dot(e[r], b) == 0.0 && Dot(Identity(n)[r], b) == 0.0
    {
      DotDependency(a, n, i, r, n);
      DotZeros(e[r], n);
      DotZeros(Identity(n)[r], n);
    }
    assert Solves(a, e, x, b);
    assert Solves(src, Identity(n), x, b);
    assert InKernel(src, x);
    assert x[i] == 1.0 && x != Zeros(|src|);
  }
}
