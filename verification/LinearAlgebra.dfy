/** Matrices over the reals at any dimension, with the ring laws and the quadratic forms that the
    covariance arguments need. */
module LinearAlgebra {

  // ---------------------------------------------------------------------------------------------
  // Finite sums

  function Sum(n: nat, f: nat -> real): real {
    if n == 0 then 0.0 else Sum(n - 1, f) + f(n - 1)
  }

  lemma {:induction false} SumEq(n: nat, f: nat -> real, g: nat -> real)
    requires forall i: nat :: i < n ==> f(i) == g(i)
    ensures Sum(n, f) == Sum(n, g)
  {
    if n > 0 {
      SumEq(n - 1, f, g);
    }
  }

  lemma {:induction false} SumAdd(n: nat, f: nat -> real, g: nat -> real, h: nat -> real)
    requires forall i: nat :: i < n ==> h(i) == f(i) + g(i)
    ensures Sum(n, h) == Sum(n, f) + Sum(n, g)
  {
    if n > 0 {
      SumAdd(n - 1, f, g, h);
    }
  }

  lemma {:induction false} SumScale(n: nat, c: real, f: nat -> real, h: nat -> real)
    requires forall i: nat :: i < n ==> h(i) == c * f(i)
    ensures Sum(n, h) == c * Sum(n, f)
  {
    if n > 0 {
      SumScale(n - 1, c, f, h);
    }
  }

  lemma {:induction false} SumZero(n: nat, f: nat -> real)
    requires forall i: nat :: i < n ==> f(i) == 0.0
    ensures Sum(n, f) == 0.0
  {
    if n > 0 {
      SumZero(n - 1, f);
    }
  }

  lemma {:induction false} SumOne(n: nat, k: nat, f: nat -> real)
    requires k < n && forall i: nat :: i < n && i != k ==> f(i) == 0.0
    ensures Sum(n, f) == f(k)
  {
    if k == n - 1 {
      SumZero(n - 1, f);
    } else {
      SumOne(n - 1, k, f);
    }
  }

  lemma {:induction false} SumNonNegative(n: nat, f: nat -> real)
    requires forall i: nat :: i < n ==> 0.0 <= f(i)
    ensures 0.0 <= Sum(n, f)
  {
    if n > 0 {
      SumNonNegative(n - 1, f);
    }
  }

  function RowSum(n: nat, f: (nat, nat) -> real): nat -> real {
    (i: nat) => Sum(n, (j: nat) => f(i, j))
  }

  function ColSum(m: nat, f: (nat, nat) -> real): nat -> real {
    (j: nat) => Sum(m, (i: nat) => f(i, j))
  }

  lemma {:induction false} SumSwap(m: nat, n: nat, f: (nat, nat) -> real)
    ensures Sum(m, RowSum(n, f)) == Sum(n, ColSum(m, f))
  {
    if m == 0 {
      SumZero(n, ColSum(0, f));
    } else {
      SumSwap(m - 1, n, f);
      SumAdd(n, ColSum(m - 1, f), (j: nat) => f(m - 1, j), ColSum(m, f));
    }
  }

  // ---------------------------------------------------------------------------------------------
  // Matrices

  datatype Mat = Mat(rows: nat, cols: nat, entries: seq<seq<real>>)

  predicate WellShaped(m: Mat) {
    |m.entries| == m.rows && forall i :: 0 <= i < m.rows ==> |m.entries[i]| == m.cols
  }

  type Matrix = m: Mat | WellShaped(m) witness Mat(0, 0, [])

  function At(a: Matrix, i: nat, j: nat): real {
    if i < a.rows && j < a.cols then a.entries[i][j] else 0.0
  }

  function Build(rows: nat, cols: nat, f: (nat, nat) -> real): (a: Matrix)
    ensures a.rows == rows && a.cols == cols
    ensures forall i: nat, j: nat :: i < rows && j < cols ==> At(a, i, j) == f(i, j)
  {
    Mat(rows, cols, seq(rows, (i: nat) requires i < rows => seq(cols, (j: nat) requires j < cols => f(i, j))))
  }

  /** Matrices are equal when their entries are. */
  lemma Same(a: Matrix, b: Matrix)
    requires a.rows == b.rows && a.cols == b.cols
    requires forall i: nat, j: nat :: i < a.rows && j < a.cols ==> At(a, i, j) == At(b, i, j)
    ensures a == b
  {
    forall i | 0 <= i < a.rows
      ensures a.entries[i] == b.entries[i]
    {
      forall j | 0 <= j < a.cols
        ensures a.entries[i][j] == b.entries[i][j]
      {
        assert At(a, i, j) == At(b, i, j);
      }
    }
  }

  /** a(i, j) = v. */
  function Put(a: Matrix, i: nat, j: nat, v: real): (b: Matrix)
    requires i < a.rows && j < a.cols
    ensures b.rows == a.rows && b.cols == a.cols
    ensures forall k: nat, l: nat :: k < a.rows && l < a.cols ==>
            At(b, k, l) == if k == i && l == j then v else At(a, k, l)
  {
    a.(entries := a.entries[i := a.entries[i][j := v]])
  }

  function Transpose(a: Matrix): (t: Matrix)
    ensures t.rows == a.cols && t.cols == a.rows
    ensures forall i: nat, j: nat :: i < a.cols && j < a.rows ==> At(t, i, j) == At(a, j, i)
  {
    Build(a.cols, a.rows, (i: nat, j: nat) => At(a, j, i))
  }

  function Add(a: Matrix, b: Matrix): (c: Matrix)
    requires a.rows == b.rows && a.cols == b.cols
    ensures c.rows == a.rows && c.cols == a.cols
  {
    Build(a.rows, a.cols, (i: nat, j: nat) => At(a, i, j) + At(b, i, j))
  }

  function Scale(x: real, a: Matrix): (c: Matrix)
    ensures c.rows == a.rows && c.cols == a.cols
  {
    Build(a.rows, a.cols, (i: nat, j: nat) => x * At(a, i, j))
  }

  function Sub(a: Matrix, b: Matrix): (c: Matrix)
    requires a.rows == b.rows && a.cols == b.cols
    ensures c.rows == a.rows && c.cols == a.cols
  {
    Add(a, Scale(-1.0, b))
  }

  function Identity(n: nat): (a: Matrix)
    ensures a.rows == n && a.cols == n
  {
    Build(n, n, (i: nat, j: nat) => if i == j then 1.0 else 0.0)
  }

  function Zero(m: nat, n: nat): (a: Matrix)
    ensures a.rows == m && a.cols == n
  {
    Build(m, n, (i: nat, j: nat) => 0.0)
  }

  lemma AddEntry(a: Matrix, b: Matrix, i: nat, j: nat)
    requires a.rows == b.rows && a.cols == b.cols && i < a.rows && j < a.cols
    ensures At(Add(a, b), i, j) == At(a, i, j) + At(b, i, j)
    ensures At(Sub(a, b), i, j) == At(a, i, j) - At(b, i, j)
  {
  }

  lemma ScaleEntry(x: real, a: Matrix, i: nat, j: nat)
    requires i < a.rows && j < a.cols
    ensures At(Scale(x, a), i, j) == x * At(a, i, j)
  {
  }

  function Terms(a: Matrix, b: Matrix, i: nat, j: nat): nat -> real {
    (k: nat) => At(a, i, k) * At(b, k, j)
  }

  function Mul(a: Matrix, b: Matrix): (c: Matrix)
    requires a.cols == b.rows
    ensures c.rows == a.rows && c.cols == b.cols
    ensures forall i: nat, j: nat :: i < a.rows && j < b.cols ==> At(c, i, j) == Sum(a.cols, Terms(a, b, i, j))
  {
    Build(a.rows, b.cols, (i: nat, j: nat) => Sum(a.cols, Terms(a, b, i, j)))
  }

  // ---------------------------------------------------------------------------------------------
  // Ring laws

  function Triple(a: Matrix, b: Matrix, c: Matrix, i: nat, j: nat): (nat, nat) -> real {
    (k: nat, l: nat) => At(a, i, k) * At(b, k, l) * At(c, l, j)
  }

  lemma MulAssoc(a: Matrix, b: Matrix, c: Matrix)
    requires a.cols == b.rows && b.cols == c.rows
    ensures Mul(Mul(a, b), c) == Mul(a, Mul(b, c))
  {
    var (ab, bc) := (Mul(a, b), Mul(b, c));
    forall i: nat, j: nat | i < a.rows && j < c.cols
      ensures At(Mul(ab, c), i, j) == At(Mul(a, bc), i, j)
    {
      AssocEntry(a, b, c, i, j);
    }
    Same(Mul(ab, c), Mul(a, bc));
  }

  lemma AssocEntry(a: Matrix, b: Matrix, c: Matrix, i: nat, j: nat)
    requires a.cols == b.rows && b.cols == c.rows && i < a.rows && j < c.cols
    ensures At(Mul(Mul(a, b), c), i, j) == At(Mul(a, Mul(b, c)), i, j)
  {
    AssocLeft(a, b, c, i, j);
    AssocRight(a, b, c, i, j);
    SumSwap(a.cols, b.cols, Triple(a, b, c, i, j));
  }

  lemma AssocLeft(a: Matrix, b: Matrix, c: Matrix, i: nat, j: nat)
    requires a.cols == b.rows && b.cols == c.rows && i < a.rows && j < c.cols
    ensures At(Mul(Mul(a, b), c), i, j) == Sum(b.cols, ColSum(a.cols, Triple(a, b, c, i, j)))
  {
    var f := Triple(a, b, c, i, j);
    forall l: nat | l < b.cols
      ensures Terms(Mul(a, b), c, i, j)(l) == ColSum(a.cols, f)(l)
    {
      SumScale(a.cols, At(c, l, j), Terms(a, b, i, l), (k: nat) => f(k, l));
    }
    SumEq(b.cols, Terms(Mul(a, b), c, i, j), ColSum(a.cols, f));
  }

  lemma AssocRight(a: Matrix, b: Matrix, c: Matrix, i: nat, j: nat)
    requires a.cols == b.rows && b.cols == c.rows && i < a.rows && j < c.cols
    ensures At(Mul(a, Mul(b, c)), i, j) == Sum(a.cols, RowSum(b.cols, Triple(a, b, c, i, j)))
  {
    var f := Triple(a, b, c, i, j);
    forall k: nat | k < a.cols
      ensures Terms(a, Mul(b, c), i, j)(k) == RowSum(b.cols, f)(k)
    {
      SumScale(b.cols, At(a, i, k), Terms(b, c, k, j), (l: nat) => f(k, l));
    }
    SumEq(a.cols, Terms(a, Mul(b, c), i, j), RowSum(b.cols, f));
  }

  lemma MulAddLeft(a: Matrix, b: Matrix, c: Matrix)
    requires a.rows == b.rows && a.cols == b.cols == c.rows
    ensures Mul(Add(a, b), c) == Add(Mul(a, c), Mul(b, c))
  {
    forall i: nat, j: nat | i < a.rows && j < c.cols
      ensures At(Mul(Add(a, b), c), i, j) == At(Add(Mul(a, c), Mul(b, c)), i, j)
    {
      SumAdd(a.cols, Terms(a, c, i, j), Terms(b, c, i, j), Terms(Add(a, b), c, i, j));
    }
    Same(Mul(Add(a, b), c), Add(Mul(a, c), Mul(b, c)));
  }

  lemma TransposeMul(a: Matrix, b: Matrix)
    requires a.cols == b.rows
    ensures Transpose(Mul(a, b)) == Mul(Transpose(b), Transpose(a))
  {
    var (l, r) := (Transpose(Mul(a, b)), Mul(Transpose(b), Transpose(a)));
    forall i: nat, j: nat | i < b.cols && j < a.rows
      ensures At(l, i, j) == At(r, i, j)
    {
      SumEq(a.cols, Terms(a, b, j, i), Terms(Transpose(b), Transpose(a), i, j));
    }
    Same(l, r);
  }

  lemma TransposeTwice(a: Matrix)
    ensures Transpose(Transpose(a)) == a
  {
    Same(Transpose(Transpose(a)), a);
  }

  lemma TransposeAdd(a: Matrix, b: Matrix)
    requires a.rows == b.rows && a.cols == b.cols
    ensures Transpose(Add(a, b)) == Add(Transpose(a), Transpose(b))
  {
    Same(Transpose(Add(a, b)), Add(Transpose(a), Transpose(b)));
  }

  lemma TransposeScale(x: real, a: Matrix)
    ensures Transpose(Scale(x, a)) == Scale(x, Transpose(a))
  {
    Same(Transpose(Scale(x, a)), Scale(x, Transpose(a)));
  }

  lemma MulAddRight(a: Matrix, b: Matrix, c: Matrix)
    requires b.rows == c.rows == a.cols && b.cols == c.cols
    ensures Mul(a, Add(b, c)) == Add(Mul(a, b), Mul(a, c))
  {
    forall i: nat, j: nat | i < a.rows && j < c.cols
      ensures At(Mul(a, Add(b, c)), i, j) == At(Add(Mul(a, b), Mul(a, c)), i, j)
    {
      SumAdd(a.cols, Terms(a, b, i, j), Terms(a, c, i, j), Terms(a, Add(b, c), i, j));
    }
    Same(Mul(a, Add(b, c)), Add(Mul(a, b), Mul(a, c)));
  }

  lemma MulScaleLeft(x: real, a: Matrix, b: Matrix)
    requires a.cols == b.rows
    ensures Mul(Scale(x, a), b) == Scale(x, Mul(a, b))
  {
    forall i: nat, j: nat | i < a.rows && j < b.cols
      ensures At(Mul(Scale(x, a), b), i, j) == At(Scale(x, Mul(a, b)), i, j)
    {
      SumScale(a.cols, x, Terms(a, b, i, j), Terms(Scale(x, a), b, i, j));
    }
    Same(Mul(Scale(x, a), b), Scale(x, Mul(a, b)));
  }

  lemma MulScaleRight(x: real, a: Matrix, b: Matrix)
    requires a.cols == b.rows
    ensures Mul(a, Scale(x, b)) == Scale(x, Mul(a, b))
  {
    TransposeMul(a, Scale(x, b));
    TransposeScale(x, b);
    MulScaleLeft(x, Transpose(b), Transpose(a));
    TransposeMul(a, b);
    TransposeScale(x, Mul(a, b));
    TransposeTwice(Mul(a, Scale(x, b)));
    TransposeTwice(Scale(x, Mul(a, b)));
  }

  lemma MulIdentity(a: Matrix)
    ensures Mul(Identity(a.rows), a) == a && Mul(a, Identity(a.cols)) == a
  {
    var (l, r) := (Mul(Identity(a.rows), a), Mul(a, Identity(a.cols)));
    forall i: nat, j: nat | i < a.rows && j < a.cols
      ensures At(l, i, j) == At(a, i, j) == At(r, i, j)
    {
      SumOne(a.rows, i, Terms(Identity(a.rows), a, i, j));
      SumOne(a.cols, j, Terms(a, Identity(a.cols), i, j));
    }
    Same(l, a);
    Same(r, a);
  }
}
