/**
 * Exact 6x6 matrices over the reals, standing for the numpy arrays of the
 * element computations, with the row-by-column product, the transpose and
 * the algebra needed to reason about a congruence Rt K R.
 */
module Matrices {
  /** A matrix is a sequence of rows; the element matrices are N x N. */
  type Matrix = seq<seq<real>>

  const N: int := 6

  predicate IsMatrix(m: Matrix) {
    |m| == N && forall i :: 0 <= i < N ==> |m[i]| == N
  }

  /** Entry (i, j), read as 0 outside the matrix so that it can be used under a lambda. */
  function Get(m: Matrix, i: int, j: int): real {
    if 0 <= i < |m| && 0 <= j < |m[i]| then m[i][j] else 0.0
  }

  /** The N x N matrix whose entry (i, j) is f(i, j). */
  function Build(f: (int, int) -> real): (m: Matrix)
    ensures IsMatrix(m)
    ensures forall i, j :: 0 <= i < N && 0 <= j < N ==> m[i][j] == f(i, j)
  {
    seq(N, i => seq(N, j => f(i, j)))
  }

  /** Row i and column j as vectors of length N. */
  function Row(m: Matrix, i: int): (r: seq<real>)
    ensures |r| == N && forall k :: 0 <= k < N ==> r[k] == Get(m, i, k)
  {
    seq(N, k => Get(m, i, k))
  }

  function Col(m: Matrix, j: int): (c: seq<real>)
    ensures |c| == N && forall k :: 0 <= k < N ==> c[k] == Get(m, k, j)
  {
    seq(N, k => Get(m, k, j))
  }

  /** The sum of the entries of a vector. */
  function Total(s: seq<real>): real
    decreases |s|
  {
    if |s| == 0 then 0.0 else Total(s[..|s| - 1]) + s[|s| - 1]
  }

  /** The entrywise product of two vectors of the same length. */
  function Times(u: seq<real>, v: seq<real>): (w: seq<real>)
    requires |u| == |v|
    ensures |w| == |u| && forall k :: 0 <= k < |u| ==> w[k] == u[k] * v[k]
  {
    seq(|u|, k requires 0 <= k < |u| => u[k] * v[k])
  }

  /** The scalar product. */
  function Dot(u: seq<real>, v: seq<real>): real
    requires |u| == |v|
  {
    Total(Times(u, v))
  }

  function Zero(): (z: Matrix)
    ensures IsMatrix(z) && forall i, j :: 0 <= i < N && 0 <= j < N ==> z[i][j] == 0.0
  {
    Build((i, j) => 0.0)
  }

  function Identity(): (e: Matrix)
    ensures IsMatrix(e)
    ensures forall i, j :: 0 <= i < N && 0 <= j < N ==> e[i][j] == (if i == j then 1.0 else 0.0)
  {
    Build((i, j) => if i == j then 1.0 else 0.0)
  }

  function Transpose(a: Matrix): (t: Matrix)
    ensures IsMatrix(t)
    ensures forall i, j :: 0 <= i < N && 0 <= j < N ==> t[i][j] == Get(a, j, i)
  {
    Build((i, j) => Get(a, j, i))
  }

  /** Entrywise sum, numpy's `+` on two arrays of the same shape. */
  function Add(a: Matrix, b: Matrix): (s: Matrix)
    ensures IsMatrix(s)
    ensures forall i, j :: 0 <= i < N && 0 <= j < N ==> s[i][j] == Get(a, i, j) + Get(b, i, j)
  {
    Build((i, j) => Get(a, i, j) + Get(b, i, j))
  }

  /** The matrix product, numpy's `@`: entry (i, j) is row i of a times column j of b. */
  function MatMul(a: Matrix, b: Matrix): (p: Matrix)
    ensures IsMatrix(p)
    ensures forall i, j :: 0 <= i < N && 0 <= j < N ==> p[i][j] == Dot(Row(a, i), Col(b, j))
  {
    Build((i, j) => Dot(Row(a, i), Col(b, j)))
  }

  /** The matrix times a column vector of length N. */
  function MatVec(a: Matrix, v: seq<real>): (w: seq<real>)
    requires |v| == N
    ensures |w| == N && forall i :: 0 <= i < N ==> w[i] == Dot(Row(a, i), v)
  {
    seq(N, i => Dot(Row(a, i), v))
  }

  predicate Symmetric(m: Matrix) {
    IsMatrix(m) && forall i, j :: 0 <= i < N && 0 <= j < N ==> m[i][j] == m[j][i]
  }

  /** Two N x N matrices with the same entries are equal. */
  lemma MatrixExt(a: Matrix, b: Matrix)
    requires IsMatrix(a) && IsMatrix(b)
    requires forall i, j :: 0 <= i < N && 0 <= j < N ==> a[i][j] == b[i][j]
    ensures a == b
  {
    forall i | 0 <= i < N
      ensures a[i] == b[i]
    {
    }
  }

  /** A symmetric matrix is its own transpose, and conversely. */
  lemma SymmetricTranspose(m: Matrix)
    requires IsMatrix(m)
    ensures Symmetric(m) <==> Transpose(m) == m
  {
    if Symmetric(m) {
      MatrixExt(Transpose(m), m);
    }
    if Transpose(m) == m {
      forall i, j | 0 <= i < N && 0 <= j < N
        ensures m[i][j] == m[j][i]
      {
        assert Transpose(m)[i][j] == m[j][i];
      }
    }
  }

  lemma TransposeTranspose(a: Matrix)
    requires IsMatrix(a)
    ensures Transpose(Transpose(a)) == a
  {
    MatrixExt(Transpose(Transpose(a)), a);
  }

  /** A sum of six terms, written out. */
  lemma TotalSix(s: seq<real>)
    requires |s| == 6
    ensures Total(s) == s[0] + s[1] + s[2] + s[3] + s[4] + s[5]
  {
    assert s[..1][..0] == [];
    assert s[..2][..1] == s[..1];
    assert s[..3][..2] == s[..2];
    assert s[..4][..3] == s[..3];
    assert s[..5][..4] == s[..4];
    assert Total(s[..1]) == s[0];
    assert Total(s[..2]) == Total(s[..1]) + s[1];
    assert Total(s[..3]) == Total(s[..2]) + s[2];
    assert Total(s[..4]) == Total(s[..3]) + s[3];
    assert Total(s[..5]) == Total(s[..4]) + s[4];
    assert Total(s) == Total(s[..5]) + s[5];
  }

  /** Totals add up entrywise. */
  lemma {:induction false} TotalAdd(s: seq<real>, t: seq<real>, u: seq<real>)
    requires |s| == |t| == |u|
    requires forall k :: 0 <= k < |u| ==> u[k] == s[k] + t[k]
    ensures Total(u) == Total(s) + Total(t)
    decreases |u|
  {
    if |u| > 0 {
      var n := |u| - 1;
      TotalAdd(s[..n], t[..n], u[..n]);
    }
  }

  /** A factor common to every entry comes out of the total. */
  lemma {:induction false} TotalScale(s: seq<real>, c: real, t: seq<real>)
    requires |s| == |t|
    requires forall k :: 0 <= k < |t| ==> t[k] == c * s[k]
    ensures Total(t) == c * Total(s)
    decreases |t|
  {
    if |t| > 0 {
      var n := |t| - 1;
      TotalScale(s[..n], c, t[..n]);
    }
  }

  /** A vector that is zero everywhere except at d totals to its entry at d. */
  lemma {:induction false} TotalDelta(s: seq<real>, d: int)
    requires 0 <= d < |s|
    requires forall k :: 0 <= k < |s| && k != d ==> s[k] == 0.0
    ensures Total(s) == s[d]
    decreases |s|
  {
    var n := |s| - 1;
    if n == d {
      TotalZero(s[..n]);
    } else {
      TotalDelta(s[..n], d);
    }
  }

  lemma {:induction false} TotalZero(s: seq<real>)
    requires forall k :: 0 <= k < |s| ==> s[k] == 0.0
    ensures Total(s) == 0.0
    decreases |s|
  {
    if |s| > 0 {
      TotalZero(s[..|s| - 1]);
    }
  }

  /** The sums of the row totals and of the column totals of a table are equal. */
  lemma {:induction false} TotalSwap(t: seq<seq<real>>, m: nat)
    requires forall i :: 0 <= i < |t| ==> |t[i]| == m
    ensures Total(RowTotals(t)) == Total(ColTotals(t, m))
    decreases |t|
  {
    if |t| > 0 {
      var n := |t| - 1;
      TotalSwap(t[..n], m);
      assert RowTotals(t)[..n] == RowTotals(t[..n]);
      assert Total(RowTotals(t)) == Total(RowTotals(t[..n])) + Total(t[n]);
      forall j | 0 <= j < m
        ensures ColTotals(t, m)[j] == ColTotals(t[..n], m)[j] + t[n][j]
      {
        var col := Column(t, j);
        assert col[..n] == Column(t[..n], j);
        assert Total(col) == Total(col[..n]) + col[n];
      }
      TotalAdd(ColTotals(t[..n], m), t[n], ColTotals(t, m));
    } else {
      TotalZero(ColTotals(t, m));
    }
  }

  function RowTotals(t: seq<seq<real>>): (r: seq<real>)
    ensures |r| == |t| && forall i :: 0 <= i < |t| ==> r[i] == Total(t[i])
  {
    seq(|t|, i requires 0 <= i < |t| => Total(t[i]))
  }

  function Column(t: seq<seq<real>>, j: int): (c: seq<real>)
    ensures |c| == |t| && forall i :: 0 <= i < |t| ==> c[i] == (if 0 <= j < |t[i]| then t[i][j] else 0.0)
  {
    seq(|t|, i requires 0 <= i < |t| => if 0 <= j < |t[i]| then t[i][j] else 0.0)
  }

  function ColTotals(t: seq<seq<real>>, m: nat): (r: seq<real>)
    ensures |r| == m && forall j :: 0 <= j < m ==> r[j] == Total(Column(t, j))
  {
    seq(m, j => Total(Column(t, j)))
  }

  /** The product is associative. */
  lemma MatMulAssoc(a: Matrix, b: Matrix, c: Matrix)
    ensures MatMul(MatMul(a, b), c) == MatMul(a, MatMul(b, c))
  {
    var ab := MatMul(a, b);
    var bc := MatMul(b, c);
    forall i, j | 0 <= i < N && 0 <= j < N
      ensures MatMul(ab, c)[i][j] == MatMul(a, bc)[i][j]
    {
      AssocEntry(a, b, c, i, j);
    }
    MatrixExt(MatMul(ab, c), MatMul(a, bc));
  }

  /** Entry (i, j) of both groupings is the total of the table a[i][l] * b[l][k] * c[k][j]. */
  lemma AssocEntry(a: Matrix, b: Matrix, c: Matrix, i: int, j: int)
    requires 0 <= i < N && 0 <= j < N
    ensures MatMul(MatMul(a, b), c)[i][j] == MatMul(a, MatMul(b, c))[i][j]
  {
    var t := Table(a, b, c, i, j);
    AssocByRows(a, b, c, i, j);
    AssocByColumns(a, b, c, i, j);
    TotalSwap(t, N);
  }

  /** The terms of entry (i, j) of a b c: row l, column k holds a[i][l] * b[l][k] * c[k][j]. */
  function Table(a: Matrix, b: Matrix, c: Matrix, i: int, j: int): (t: seq<seq<real>>)
    ensures |t| == N && forall l :: 0 <= l < N ==> |t[l]| == N
    ensures forall l, k :: 0 <= l < N && 0 <= k < N ==> t[l][k] == Get(a, i, l) * (Get(b, l, k) * Get(c, k, j))
  {
    seq(N, l => seq(N, k => Get(a, i, l) * (Get(b, l, k) * Get(c, k, j))))
  }

  /** Grouped as a (b c), entry (i, j) totals the table row by row. */
  lemma AssocByRows(a: Matrix, b: Matrix, c: Matrix, i: int, j: int)
    requires 0 <= i < N && 0 <= j < N
    ensures MatMul(a, MatMul(b, c))[i][j] == Total(RowTotals(Table(a, b, c, i, j)))
  {
    var w := Times(Row(a, i), Col(MatMul(b, c), j));
    var t := Table(a, b, c, i, j);
    forall l | 0 <= l < N
      ensures w[l] == Total(t[l])
    {
      RowEntry(a, b, c, i, j, l);
    }
    assert w == RowTotals(t);
  }

  lemma RowEntry(a: Matrix, b: Matrix, c: Matrix, i: int, j: int, l: int)
    requires 0 <= i < N && 0 <= j < N && 0 <= l < N
    ensures Get(a, i, l) * Get(MatMul(b, c), l, j) == Total(Table(a, b, c, i, j)[l])
  {
    var s := Times(Row(b, l), Col(c, j));
    var row := Table(a, b, c, i, j)[l];
    forall k | 0 <= k < N
      ensures row[k] == Scale(Get(a, i, l), s)[k]
    {
      TableRowEntry(a, b, c, i, j, l, k);
    }
    assert row == Scale(Get(a, i, l), s);
    ScaleTotal(Get(a, i, l), s);
  }

  lemma TableRowEntry(a: Matrix, b: Matrix, c: Matrix, i: int, j: int, l: int, k: int)
    requires 0 <= i < N && 0 <= j < N && 0 <= l < N && 0 <= k < N
    ensures Table(a, b, c, i, j)[l][k] == Scale(Get(a, i, l), Times(Row(b, l), Col(c, j)))[k]
  {
  }

  /** Grouped as (a b) c, entry (i, j) totals the table column by column. */
  lemma AssocByColumns(a: Matrix, b: Matrix, c: Matrix, i: int, j: int)
    requires 0 <= i < N && 0 <= j < N
    ensures MatMul(MatMul(a, b), c)[i][j] == Total(ColTotals(Table(a, b, c, i, j), N))
  {
    var w := Times(Row(MatMul(a, b), i), Col(c, j));
    var t := Table(a, b, c, i, j);
    forall k | 0 <= k < N
      ensures w[k] == Total(Column(t, k))
    {
      ColumnEntry(a, b, c, i, j, k);
    }
    assert w == ColTotals(t, N);
  }

  lemma ColumnEntry(a: Matrix, b: Matrix, c: Matrix, i: int, j: int, k: int)
    requires 0 <= i < N && 0 <= j < N && 0 <= k < N
    ensures Get(MatMul(a, b), i, k) * Get(c, k, j) == Total(Column(Table(a, b, c, i, j), k))
  {
    var s := Times(Row(a, i), Col(b, k));
    var col := Column(Table(a, b, c, i, j), k);
    forall l | 0 <= l < N
      ensures col[l] == Scale(Get(c, k, j), s)[l]
    {
      TableColumnEntry(a, b, c, i, j, l, k);
    }
    assert col == Scale(Get(c, k, j), s);
    ScaleTotal(Get(c, k, j), s);
    MulCommute(Get(MatMul(a, b), i, k), Get(c, k, j));
  }

  lemma TableColumnEntry(a: Matrix, b: Matrix, c: Matrix, i: int, j: int, l: int, k: int)
    requires 0 <= i < N && 0 <= j < N && 0 <= l < N && 0 <= k < N
    ensures Column(Table(a, b, c, i, j), k)[l] == Scale(Get(c, k, j), Times(Row(a, i), Col(b, k)))[l]
  {
    MulRegroup(Get(a, i, l), Get(b, l, k), Get(c, k, j));
  }

  function Scale(c: real, s: seq<real>): (t: seq<real>)
    ensures |t| == |s| && forall k :: 0 <= k < |s| ==> t[k] == c * s[k]
  {
    seq(|s|, k requires 0 <= k < |s| => c * s[k])
  }

  lemma ScaleTotal(c: real, s: seq<real>)
    ensures Total(Scale(c, s)) == c * Total(s)
  {
    TotalScale(s, c, Scale(c, s));
  }

  lemma MulCommute(x: real, y: real)
    ensures x * y == y * x
  {
  }

  lemma MulRegroup(x: real, y: real, z: real)
    ensures x * (y * z) == z * (x * y)
  {
  }

  /** The transpose of a product is the product of the transposes in reverse order. */
  lemma TransposeMatMul(a: Matrix, b: Matrix)
    ensures Transpose(MatMul(a, b)) == MatMul(Transpose(b), Transpose(a))
  {
    var l := Transpose(MatMul(a, b));
    var r := MatMul(Transpose(b), Transpose(a));
    forall i, j | 0 <= i < N && 0 <= j < N
      ensures l[i][j] == r[i][j]
    {
      assert Row(Transpose(b), i) == Col(b, i);
      assert Col(Transpose(a), j) == Row(a, j);
      assert Times(Col(b, i), Row(a, j)) == Times(Row(a, j), Col(b, i));
    }
    MatrixExt(l, r);
  }

  /** A congruence Rt K R of a symmetric K is symmetric, whatever the N x N matrix R is. */
  lemma CongruenceSymmetric(r: Matrix, k: Matrix)
    requires IsMatrix(r) && Symmetric(k)
    ensures Symmetric(MatMul(MatMul(Transpose(r), k), r))
  {
    var rt := Transpose(r);
    var c := MatMul(MatMul(rt, k), r);
    calc {
      Transpose(c);
    == { TransposeMatMul(MatMul(rt, k), r); }
      MatMul(Transpose(r), Transpose(MatMul(rt, k)));
    == { TransposeMatMul(rt, k); }
      MatMul(rt, MatMul(Transpose(k), Transpose(rt)));
    == { SymmetricTranspose(k); TransposeTranspose(r); }
      MatMul(rt, MatMul(k, r));
    == { MatMulAssoc(rt, k, r); }
      c;
    }
    SymmetricTranspose(c);
  }

  /** The identity is neutral for the product on either side. */
  lemma MatMulIdentity(a: Matrix)
    requires IsMatrix(a)
    ensures MatMul(Identity(), a) == a && MatMul(a, Identity()) == a
  {
    var e := Identity();
    var l := MatMul(e, a);
    var r := MatMul(a, e);
    forall i, j | 0 <= i < N && 0 <= j < N
      ensures l[i][j] == a[i][j] && r[i][j] == a[i][j]
    {
      TotalDelta(Times(Row(e, i), Col(a, j)), i);
      TotalDelta(Times(Row(a, i), Col(e, j)), j);
    }
    MatrixExt(l, a);
    MatrixExt(r, a);
  }

  lemma TransposeIdentity()
    ensures Transpose(Identity()) == Identity()
  {
    MatrixExt(Transpose(Identity()), Identity());
  }
}
