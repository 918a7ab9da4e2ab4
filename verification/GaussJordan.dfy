/** mat::invert over exact reals: Gauss-Jordan elimination in place, with the code's own pivot rule
    (the last row below the diagonal whose entry exceeds the diagonal entry, not the largest one).
    Dividing by a zero pivot, which yields infinities in float arithmetic, is reported as None. */
module GaussJordan {
  import opened Reals
  import opened Basics
  import opened LinearSystems

  function Row(a: array2<real>, r: nat): (v: Vec)
    requires r < a.Length0
    reads a
    ensures |v| == a.Length1 && forall c :: 0 <= c < a.Length1 ==> v[c] == a[r, c]
  {
    seq(a.Length1, c requires 0 <= c < a.Length1 reads a => a[r, c])
  }

  function Rows(a: array2<real>): (m: Matrix)
    reads a
    ensures |m| == a.Length0 && forall r :: 0 <= r < a.Length0 ==> m[r] == Row(a, r)
  {
    seq(a.Length0, r requires 0 <= r < a.Length0 reads a => Row(a, r))
  }

  method FromRows(m: Matrix, n: nat) returns (a: array2<real>)
    requires IsSquare(m, n)
    ensures fresh(a) && a.Length0 == a.Length1 == n && Rows(a) == m
  {
    a := new real[n, n]((r, c) requires 0 <= r < n && 0 <= c < n => m[r][c]);
    assert forall r :: 0 <= r < n ==> Row(a, r) == m[r];
  }

  /** The pivot search: its result has a nonzero entry unless the whole rest of the column is zero. */
  method FindPivot(tmp: array2<real>, n: nat, i: nat) returns (swap: nat)
    requires tmp.Length0 == tmp.Length1 == n && i < n
    ensures i <= swap < n
    ensures swap != i ==> AbsR(tmp[swap, i]) > AbsR(tmp[i, i])
    ensures forall j :: swap < j < n ==> AbsR(tmp[j, i]) <= AbsR(tmp[i, i])
    ensures tmp[swap, i] == 0.0 ==> forall r :: i <= r < n ==> tmp[r, i] == 0.0
  {
    swap := i;
    for j := i + 1 to n
      invariant i <= swap < j
      invariant swap != i ==> AbsR(tmp[swap, i]) > AbsR(tmp[i, i])
      invariant forall k :: swap < k < j ==> AbsR(tmp[k, i]) <= AbsR(tmp[i, i])
    {
      if AbsR(tmp[j, i]) > AbsR(tmp[i, i]) {
        swap := j;
      }
    }
  }

  method SwapBoth(tmp: array2<real>, inverse: array2<real>, n: nat, i: nat, swap: nat)
    requires tmp != inverse && tmp.Length0 == tmp.Length1 == inverse.Length0 == inverse.Length1 == n
    requires i < n && swap < n
    modifies tmp, inverse
    ensures Rows(tmp) == SwapRows(old(Rows(tmp)), i, swap)
    ensures Rows(inverse) == SwapRows(old(Rows(inverse)), i, swap)
  {
    for k := 0 to n
      invariant forall r, c :: 0 <= r < n && 0 <= c < n ==>
        tmp[r, c] == old(if c >= k then tmp[r, c] else if r == i then tmp[swap, c] else if r == swap then tmp[i, c] else tmp[r, c])
      invariant forall r, c :: 0 <= r < n && 0 <= c < n ==>
        inverse[r, c] == old(if c >= k then inverse[r, c] else if r == i then inverse[swap, c] else if r == swap then inverse[i, c] else inverse[r, c])
    {
      tmp[i, k], tmp[swap, k] := tmp[swap, k], tmp[i, k];
      inverse[i, k], inverse[swap, k] := inverse[swap, k], inverse[i, k];
    }
    SameRows(tmp, SwapRows(old(Rows(tmp)), i, swap), n);
    SameRows(inverse, SwapRows(old(Rows(inverse)), i, swap), n);
  }

  method ScaleBoth(tmp: array2<real>, inverse: array2<real>, n: nat, i: nat, t: real)
    requires tmp != inverse && tmp.Length0 == tmp.Length1 == inverse.Length0 == inverse.Length1 == n && i < n
    modifies tmp, inverse
    ensures Rows(tmp) == ScaleRow(old(Rows(tmp)), i, t)
    ensures Rows(inverse) == ScaleRow(old(Rows(inverse)), i, t)
  {
    hide Rows, Row, Scale;
    for k := 0 to n
      invariant forall r, c :: 0 <= r < n && 0 <= c < n ==>
        tmp[r, c] == if r == i && c < k then old(tmp[r, c]) * t else old(tmp[r, c])
      invariant forall r, c :: 0 <= r < n && 0 <= c < n ==>
        inverse[r, c] == if r == i && c < k then old(inverse[r, c]) * t else old(inverse[r, c])
    {
      tmp[i, k] := tmp[i, k] * t;
      inverse[i, k] := inverse[i, k] * t;
    }
    SameRows(tmp, ScaleRow(old(Rows(tmp)), i, t), n);
    SameRows(inverse, ScaleRow(old(Rows(inverse)), i, t), n);
  }

  method SubtractBoth(tmp: array2<real>, inverse: array2<real>, n: nat, i: nat, j: nat, t: real)
    requires tmp != inverse && tmp.Length0 == tmp.Length1 == inverse.Length0 == inverse.Length1 == n
    requires i < n && j < n && i != j
    modifies tmp, inverse
    ensures Rows(tmp) == SubtractRow(old(Rows(tmp)), i, j, t)
    ensures Rows(inverse) == SubtractRow(old(Rows(inverse)), i, j, t)
  {
    hide Rows, Row, Minus;
    for k := 0 to n
      invariant forall r, c :: 0 <= r < n && 0 <= c < n ==>
        tmp[r, c] == if r == j && c < k then old(tmp[j, c]) - old(tmp[i, c]) * t else old(tmp[r, c])
      invariant forall r, c :: 0 <= r < n && 0 <= c < n ==>
        inverse[r, c] == if r == j && c < k then old(inverse[j, c]) - old(inverse[i, c]) * t else old(inverse[r, c])
    {
      tmp[j, k] := tmp[j, k] - tmp[i, k] * t;
      inverse[j, k] := inverse[j, k] - inverse[i, k] * t;
    }
    SameRows(tmp, SubtractRow(old(Rows(tmp)), i, j, t), n);
    SameRows(inverse, SubtractRow(old(Rows(inverse)), i, j, t), n);
  }

  lemma SameRows(a: array2<real>, m: Matrix, n: nat)
    requires a.Length0 == a.Length1 == n && IsSquare(m, n)
    requires forall r, c :: 0 <= r < n && 0 <= c < n ==> a[r, c] == m[r][c]
    ensures Rows(a) == m
  {
    forall r | 0 <= r < n ensures Rows(a)[r] == m[r] {
    }
  }

  /** Column i is normalised, and cleared in the rows before j. */
  ghost predicate Pivoted(a: Matrix, n: nat, i: nat, j: nat) {
    UnitColumns(a, n, i) && i < n && j <= n && a[i][i] == 1.0 && forall r :: 0 <= r < j && r != i ==> a[r][i] == 0.0
  }

  lemma ScaledPivot(a: Matrix, n: nat, i: nat)
    requires UnitColumns(a, n, i) && i < n && a[i][i] != 0.0
    ensures Pivoted(ScaleRow(a, i, 1.0 / a[i][i]), n, i, 0)
  {
    assert forall c :: 0 <= c < i ==> a[i][c] == Delta(i, c) == 0.0;
  }

  lemma ClearedRow(a: Matrix, n: nat, i: nat, j: nat)
    requires Pivoted(a, n, i, j) && j < n && j != i
    ensures Pivoted(SubtractRow(a, i, j, a[j][i]), n, i, j + 1)
  {
    assert forall c :: 0 <= c < i ==> a[i][c] == Delta(i, c) == 0.0;
  }

  lemma AllColumnsUnit(a: Matrix, n: nat)
    requires UnitColumns(a, n, n)
    ensures a == Identity(n)
  {
    IsIdentity(a, n);
  }

  /** What the elimination maintains: the rows still describe the system of src, and column i is
      normalised and cleared in the rows before j. */
  ghost predicate Clearing(src: Matrix, a: Matrix, e: Matrix, n: nat, i: nat, j: nat) {
    Equivalent(src, a, e, n) && Pivoted(a, n, i, j)
  }

  lemma ScaleStep(src: Matrix, a: Matrix, e: Matrix, n: nat, i: nat)
    requires Equivalent(src, a, e, n) && UnitColumns(a, n, i) && i < n && a[i][i] != 0.0
    ensures Clearing(src, ScaleRow(a, i, 1.0 / a[i][i]), ScaleRow(e, i, 1.0 / a[i][i]), n, i, 0)
  {
    ScaleKeepsSolutions(src, a, e, n, i, 1.0 / a[i][i]);
    ScaledPivot(a, n, i);
  }

  lemma SubtractStep(src: Matrix, a: Matrix, e: Matrix, n: nat, i: nat, j: nat)
    requires Clearing(src, a, e, n, i, j) && j < n && j != i
    ensures Clearing(src, SubtractRow(a, i, j, a[j][i]), SubtractRow(e, i, j, a[j][i]), n, i, j + 1)
  {
    SubtractKeepsSolutions(src, a, e, n, i, j, a[j][i]);
    ClearedRow(a, n, i, j);
  }

  method NormalizeRow(ghost src: Matrix, tmp: array2<real>, inverse: array2<real>, n: nat, i: nat)
    requires tmp != inverse && tmp.Length0 == tmp.Length1 == inverse.Length0 == inverse.Length1 == n && i < n
    requires Equivalent(src, Rows(tmp), Rows(inverse), n) && UnitColumns(Rows(tmp), n, i) && tmp[i, i] != 0.0
    modifies tmp, inverse
    ensures Clearing(src, Rows(tmp), Rows(inverse), n, i, 0)
  {
    var t := 1.0 / tmp[i, i];
    ScaleStep(src, Rows(tmp), Rows(inverse), n, i);
    ScaleBoth(tmp, inverse, n, i, t);
  }

  method ClearRow(ghost src: Matrix, tmp: array2<real>, inverse: array2<real>, n: nat, i: nat, j: nat)
    requires tmp != inverse && tmp.Length0 == tmp.Length1 == inverse.Length0 == inverse.Length1 == n
    requires i < n && j < n && i != j
    requires Clearing(src, Rows(tmp), Rows(inverse), n, i, j)
    modifies tmp, inverse
    ensures Clearing(src, Rows(tmp), Rows(inverse), n, i, j + 1)
  {
    var t := tmp[j, i];
    SubtractStep(src, Rows(tmp), Rows(inverse), n, i, j);
    SubtractBoth(tmp, inverse, n, i, j, t);
  }

  /** One pass of the outer loop, once the pivot row is in place. */
  method ClearColumn(ghost src: Matrix, tmp: array2<real>, inverse: array2<real>, n: nat, i: nat)
    requires tmp != inverse && tmp.Length0 == tmp.Length1 == inverse.Length0 == inverse.Length1 == n && i < n
    requires Equivalent(src, Rows(tmp), Rows(inverse), n) && UnitColumns(Rows(tmp), n, i) && tmp[i, i] != 0.0
    modifies tmp, inverse
    ensures Equivalent(src, Rows(tmp), Rows(inverse), n) && UnitColumns(Rows(tmp), n, i + 1)
  {
    NormalizeRow(src, tmp, inverse, n, i);
    for j := 0 to n
      invariant Clearing(src, Rows(tmp), Rows(inverse), n, i, j)
    {
      if j != i {
        ClearRow(src, tmp, inverse, n, i, j);
      }
    }
  }

  lemma SwapStep(src: Matrix, a: Matrix, e: Matrix, n: nat, i: nat, swap: nat)
    requires Equivalent(src, a, e, n) && UnitColumns(a, n, i) && i <= swap < n
    requires a[swap][i] == 0.0 ==> forall r :: i <= r < n ==> a[r][i] == 0.0
    ensures Equivalent(src, SwapRows(a, i, swap), SwapRows(e, i, swap), n)
    ensures UnitColumns(SwapRows(a, i, swap), n, i)
    ensures SwapRows(a, i, swap)[i][i] == 0.0 ==> Singular(src)
    ensures swap == i ==> SwapRows(a, i, swap) == a && SwapRows(e, i, swap) == e
  {
    SwapKeepsSolutions(src, a, e, n, i, swap);
    if a[swap][i] == 0.0 {
      NoPivotMeansSingular(src, a, e, n, i);
    }
  }

  method BringPivot(ghost src: Matrix, tmp: array2<real>, inverse: array2<real>, n: nat, i: nat)
    requires tmp != inverse && tmp.Length0 == tmp.Length1 == inverse.Length0 == inverse.Length1 == n && i < n
    requires Equivalent(src, Rows(tmp), Rows(inverse), n) && UnitColumns(Rows(tmp), n, i)
    modifies tmp, inverse
    ensures Equivalent(src, Rows(tmp), Rows(inverse), n) && UnitColumns(Rows(tmp), n, i)
    ensures tmp[i, i] == 0.0 ==> Singular(src)
  {
    var swap := FindPivot(tmp, n, i);
    ghost var a, e := Rows(tmp), Rows(inverse);
    assert a[swap][i] == tmp[swap, i];
    SwapStep(src, a, e, n, i, swap);
    if swap != i {
      SwapBoth(tmp, inverse, n, i, swap);
    }
    assert Rows(tmp)[i][i] == tmp[i, i];
  }

  /** The inversion succeeds exactly on the nonsingular matrices, and then returns the two-sided inverse. */
  method Invert(src: Matrix, n: nat) returns (result: Option<Matrix>)
    requires IsSquare(src, n)
    ensures result.Some? <==> !Singular(src)
    ensures result.Some? ==> IsSquare(result.value, n)
    ensures result.Some? ==> Product(result.value, src, n) == Identity(n)
    ensures result.Some? ==> Product(src, result.value, n) == Identity(n)
  {
    var tmp := FromRows(src, n);
    var inverse := FromRows(Identity(n), n);
    for i := 0 to n
      invariant fresh(tmp) && fresh(inverse) && tmp != inverse
      invariant Equivalent(src, Rows(tmp), Rows(inverse), n) && UnitColumns(Rows(tmp), n, i)
    {
      BringPivot(src, tmp, inverse, n, i);
      if tmp[i, i] == 0.0 {
        return None;
      }
      ClearColumn(src, tmp, inverse, n, i);
    }
    AllColumnsUnit(Rows(tmp), n);
    ReducedGivesInverse(src, Rows(inverse), n);
    return Some(Rows(inverse));
  }
}
