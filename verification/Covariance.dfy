/** Symmetric positive semidefinite matrices, and the constructions that keep them so. */
module Covariances {
  import opened LinearAlgebra

  /** xᵀ P x. */
  function Quad(p: Matrix, x: Matrix): real
    requires p.rows == p.cols == x.rows && x.cols == 1
  {
    At(Mul(Transpose(x), Mul(p, x)), 0, 0)
  }

  ghost predicate IsVector(x: Matrix, n: nat) {
    x.rows == n && x.cols == 1
  }

  ghost predicate Symmetric(p: Matrix) {
    p.rows == p.cols && Transpose(p) == p
  }

  ghost predicate NonNegative(p: Matrix)
    requires p.rows == p.cols
  {
    forall x: Matrix :: IsVector(x, p.rows) ==> 0.0 <= Quad(p, x)
  }

  /** What a covariance matrix has to be. */
  ghost predicate IsCovariance(p: Matrix) {
    Symmetric(p) && NonNegative(p)
  }

  /** A P Aᵀ. */
  function Congruence(a: Matrix, p: Matrix): (c: Matrix)
    requires p.rows == p.cols == a.cols
    ensures c.rows == c.cols == a.rows
  {
    Mul(Mul(a, p), Transpose(a))
  }

  lemma QuadCongruence(a: Matrix, p: Matrix, x: Matrix)
    requires p.rows == p.cols == a.cols && IsVector(x, a.rows)
    ensures Quad(Congruence(a, p), x) == Quad(p, Mul(Transpose(a), x))
  {
    var at := Transpose(a);
    var y := Mul(at, x);
    calc {
      Mul(Transpose(x), Mul(Mul(Mul(a, p), at), x));
      { MulAssoc(Mul(a, p), at, x); }
      Mul(Transpose(x), Mul(Mul(a, p), y));
      { MulAssoc(a, p, y); }
      Mul(Transpose(x), Mul(a, Mul(p, y)));
      { MulAssoc(Transpose(x), a, Mul(p, y)); }
      Mul(Mul(Transpose(x), a), Mul(p, y));
      { TransposeMul(at, x); TransposeTwice(a); }
      Mul(Transpose(y), Mul(p, y));
    }
  }

  lemma QuadAdd(p: Matrix, q: Matrix, x: Matrix)
    requires p.rows == p.cols == q.rows == q.cols && IsVector(x, p.rows)
    ensures Quad(Add(p, q), x) == Quad(p, x) + Quad(q, x)
  {
    MulAddLeft(p, q, x);
    MulAddRight(Transpose(x), Mul(p, x), Mul(q, x));
  }

  lemma QuadScale(c: real, p: Matrix, x: Matrix)
    requires p.rows == p.cols && IsVector(x, p.rows)
    ensures Quad(Scale(c, p), x) == c * Quad(p, x)
  {
    hide Mul, Transpose;
    MulScaleLeft(c, p, x);
    MulScaleRight(c, Transpose(x), Mul(p, x));
  }

  lemma SymmetricCongruence(a: Matrix, p: Matrix)
    requires Symmetric(p) && p.rows == a.cols
    ensures Symmetric(Congruence(a, p))
  {
    var at := Transpose(a);
    calc {
      Transpose(Mul(Mul(a, p), at));
      { TransposeMul(Mul(a, p), at); TransposeTwice(a); }
      Mul(a, Transpose(Mul(a, p)));
      { TransposeMul(a, p); }
      Mul(a, Mul(p, at));
      { MulAssoc(a, p, at); }
      Mul(Mul(a, p), at);
    }
  }

  /** Rotating, projecting or selecting rows of a covariance gives a covariance. */
  lemma CongruenceIsCovariance(a: Matrix, p: Matrix)
    requires IsCovariance(p) && p.rows == a.cols
    ensures IsCovariance(Congruence(a, p))
  {
    SymmetricCongruence(a, p);
    forall x: Matrix | IsVector(x, a.rows)
      ensures 0.0 <= Quad(Congruence(a, p), x)
    {
      QuadCongruence(a, p, x);
      assert IsVector(Mul(Transpose(a), x), p.rows);
    }
  }

  lemma SumIsCovariance(p: Matrix, q: Matrix)
    requires IsCovariance(p) && IsCovariance(q) && p.rows == q.rows
    ensures IsCovariance(Add(p, q))
  {
    TransposeAdd(p, q);
    forall x: Matrix | IsVector(x, p.rows)
      ensures 0.0 <= Quad(Add(p, q), x)
    {
      hide Quad;
      QuadAdd(p, q, x);
    }
  }

  lemma ScaledIsCovariance(c: real, p: Matrix)
    requires IsCovariance(p) && 0.0 <= c
    ensures IsCovariance(Scale(c, p))
  {
    hide Quad, Scale, Transpose;
    TransposeScale(c, p);
    forall x: Matrix | IsVector(x, p.rows)
      ensures 0.0 <= Quad(Scale(c, p), x)
    {
      QuadScale(c, p, x);
      ProductNonNegative(c, Quad(p, x));
    }
  }

  function Diagonal(n: nat, d: nat -> real): (a: Matrix)
    ensures a.rows == a.cols == n
  {
    Build(n, n, (i: nat, j: nat) => if i == j then d(i) else 0.0)
  }

  lemma DiagonalIsCovariance(n: nat, d: nat -> real)
    requires forall i: nat :: i < n ==> 0.0 <= d(i)
    ensures IsCovariance(Diagonal(n, d))
  {
    var p := Diagonal(n, d);
    Same(Transpose(p), p);
    forall x: Matrix | IsVector(x, n)
      ensures 0.0 <= Quad(p, x)
    {
      DiagonalQuad(n, d, x);
    }
  }

  lemma DiagonalQuad(n: nat, d: nat -> real, x: Matrix)
    requires IsVector(x, n) && forall i: nat :: i < n ==> 0.0 <= d(i)
    ensures 0.0 <= Quad(Diagonal(n, d), x)
  {
    var y := Mul(Diagonal(n, d), x);
    var t := Terms(Transpose(x), y, 0, 0);
    forall i: nat | i < n
      ensures 0.0 <= t(i)
    {
      DiagonalTerm(n, d, x, y, i);
    }
    SumNonNegative(n, t);
  }

  lemma DiagonalTerm(n: nat, d: nat -> real, x: Matrix, y: Matrix, i: nat)
    requires IsVector(x, n) && i < n && 0.0 <= d(i) && y == Mul(Diagonal(n, d), x)
    ensures 0.0 <= Terms(Transpose(x), y, 0, 0)(i)
  {
    hide At, Mul, Diagonal, Transpose;
    DiagonalTimes(n, d, x, i);
    SquareTimes(d(i), At(x, i, 0), At(y, i, 0));
  }

  lemma DiagonalTimes(n: nat, d: nat -> real, x: Matrix, i: nat)
    requires IsVector(x, n) && i < n
    ensures At(Mul(Diagonal(n, d), x), i, 0) == d(i) * At(x, i, 0)
  {
    hide At;
    SumOne(n, i, Terms(Diagonal(n, d), x, i, 0));
  }

  lemma SquareTimes(d: real, x: real, y: real)
    requires 0.0 <= d && y == d * x
    ensures 0.0 <= x * y
  {
    assert 0.0 <= x * x;
    assert x * y == d * (x * x);
  }

  lemma ProductNonNegative(c: real, q: real)
    requires 0.0 <= c && 0.0 <= q
    ensures 0.0 <= c * q
  {
  }
}
