/** The Kalman update in Joseph form (ekf.cpp): it keeps covariances, it equals the textbook update
    when the innovation covariance is really inverted, and its gain is the best one. */
module KalmanUpdates {
  import opened LinearAlgebra
  import opened Covariances

  /** S = H P Hᵀ + R. */
  function InnovationCovariance(p: Matrix, h: Matrix, r: Matrix): (s: Matrix)
    requires p.rows == p.cols == h.cols && r.rows == r.cols == h.rows
    ensures s.rows == s.cols == h.rows
  {
    Add(Mul(h, Mul(p, Transpose(h))), r)
  }

  /** K = P Hᵀ S⁻¹, for whatever `inverse` returned. */
  function Gain(p: Matrix, h: Matrix, inverse: Matrix): (k: Matrix)
    requires p.rows == p.cols == h.cols && inverse.rows == inverse.cols == h.rows
    ensures k.rows == p.rows && k.cols == h.rows
  {
    Mul(Mul(p, Transpose(h)), inverse)
  }

  /** I − K H. */
  function GainResidual(k: Matrix, h: Matrix): (g: Matrix)
    requires k.rows == h.cols && k.cols == h.rows
    ensures g.rows == g.cols == k.rows
  {
    Sub(Identity(k.rows), Mul(k, h))
  }

  /** (I − K H) P (I − K H)ᵀ + K R Kᵀ. */
  function Joseph(p: Matrix, k: Matrix, h: Matrix, r: Matrix): (p': Matrix)
    requires p.rows == p.cols == k.rows == h.cols && k.cols == h.rows == r.rows == r.cols
    ensures p'.rows == p'.cols == p.rows
  {
    Add(Congruence(GainResidual(k, h), p), Congruence(k, r))
  }

  /** Whatever the gain, the Joseph form of covariances is a covariance. */
  lemma JosephIsCovariance(p: Matrix, k: Matrix, h: Matrix, r: Matrix)
    requires p.rows == k.rows == h.cols && k.cols == h.rows == r.rows
    requires IsCovariance(p) && IsCovariance(r)
    ensures IsCovariance(Joseph(p, k, h, r))
  {
    CongruenceIsCovariance(GainResidual(k, h), p);
    CongruenceIsCovariance(k, r);
    SumIsCovariance(Congruence(GainResidual(k, h), p), Congruence(k, r));
  }

  lemma MulSubLeft(a: Matrix, b: Matrix, c: Matrix)
    requires a.rows == b.rows && a.cols == b.cols == c.rows
    ensures Mul(Sub(a, b), c) == Sub(Mul(a, c), Mul(b, c))
  {
    MulAddLeft(a, Scale(-1.0, b), c);
    MulScaleLeft(-1.0, b, c);
  }

  lemma MulSubRight(a: Matrix, b: Matrix, c: Matrix)
    requires b.rows == c.rows == a.cols && b.cols == c.cols
    ensures Mul(a, Sub(b, c)) == Sub(Mul(a, b), Mul(a, c))
  {
    MulAddRight(a, b, Scale(-1.0, c));
    MulScaleRight(-1.0, a, c);
  }

  lemma TransposeSub(a: Matrix, b: Matrix)
    requires a.rows == b.rows && a.cols == b.cols
    ensures Transpose(Sub(a, b)) == Sub(Transpose(a), Transpose(b))
  {
    TransposeAdd(a, Scale(-1.0, b));
    TransposeScale(-1.0, b);
  }

  lemma TransposeIdentity(n: nat)
    ensures Transpose(Identity(n)) == Identity(n)
  {
    Same(Transpose(Identity(n)), Identity(n));
  }

  lemma SubAdd(a: Matrix, b: Matrix, c: Matrix)
    requires a.rows == b.rows == c.rows && a.cols == b.cols == c.cols
    ensures Sub(Add(a, b), a) == b
    ensures Add(Sub(a, b), b) == a
  {
    Same(Sub(Add(a, b), a), b);
    Same(Add(Sub(a, b), b), a);
  }

  /** The gain of a true inverse solves K S = P Hᵀ. */
  lemma GainSolves(p: Matrix, h: Matrix, r: Matrix, inverse: Matrix)
    requires p.rows == p.cols == h.cols && r.rows == r.cols == h.rows == inverse.rows == inverse.cols
    requires Mul(inverse, InnovationCovariance(p, h, r)) == Identity(h.rows)
    ensures Mul(Gain(p, h, inverse), InnovationCovariance(p, h, r)) == Mul(p, Transpose(h))
  {
    var pht := Mul(p, Transpose(h));
    MulAssoc(pht, inverse, InnovationCovariance(p, h, r));
    MulIdentity(pht);
  }

  /** (I − K H) P Hᵀ = K R. */
  lemma ResidualTimesPht(p: Matrix, k: Matrix, h: Matrix, r: Matrix)
    requires p.rows == p.cols == k.rows == h.cols && k.cols == h.rows == r.rows == r.cols
    requires Mul(k, InnovationCovariance(p, h, r)) == Mul(p, Transpose(h))
    ensures Mul(GainResidual(k, h), Mul(p, Transpose(h))) == Mul(k, r)
  {
    var pht := Mul(p, Transpose(h));
    var hpht := Mul(h, pht);
    calc {
      Mul(GainResidual(k, h), pht);
      { MulSubLeft(Identity(k.rows), Mul(k, h), pht); MulIdentity(pht); MulAssoc(k, h, pht); }
      Sub(pht, Mul(k, hpht));
      { MulAddRight(k, hpht, r); }
      Sub(Add(Mul(k, hpht), Mul(k, r)), Mul(k, hpht));
      { SubAdd(Mul(k, hpht), Mul(k, r), Mul(k, r)); }
      Mul(k, r);
    }
  }

  /** K H P = K S Kᵀ. */
  lemma GainTimesHp(p: Matrix, k: Matrix, h: Matrix, r: Matrix)
    requires p.rows == p.cols == k.rows == h.cols && k.cols == h.rows == r.rows == r.cols
    requires Symmetric(p) && Symmetric(r)
    requires Mul(k, InnovationCovariance(p, h, r)) == Mul(p, Transpose(h))
    ensures Mul(Mul(k, h), p) == Congruence(k, InnovationCovariance(p, h, r))
  {
    var s := InnovationCovariance(p, h, r);
    InnovationIsSymmetric(p, h, r);
    calc {
      Mul(Mul(k, h), p);
      { MulAssoc(k, h, p); TransposeMul(p, Transpose(h)); TransposeTwice(h); }
      Mul(k, Transpose(Mul(k, s)));
      { TransposeMul(k, s); MulAssoc(k, s, Transpose(k)); }
      Congruence(k, s);
    }
  }

  lemma InnovationIsSymmetric(p: Matrix, h: Matrix, r: Matrix)
    requires Symmetric(p) && Symmetric(r) && p.rows == h.cols && r.rows == h.rows
    ensures InnovationCovariance(p, h, r) == Add(Congruence(h, p), r)
    ensures Symmetric(InnovationCovariance(p, h, r))
  {
    MulAssoc(h, p, Transpose(h));
    SymmetricCongruence(h, p);
    TransposeAdd(Congruence(h, p), r);
  }

  /** Where the innovation covariance is really inverted, the Joseph form is the textbook update:
      (I − KH)P(I − KH)ᵀ + KRKᵀ = (I − KH)P = P − KSKᵀ. */
  lemma JosephIsTextbook(p: Matrix, k: Matrix, h: Matrix, r: Matrix)
    requires p.rows == p.cols == k.rows == h.cols && k.cols == h.rows == r.rows == r.cols
    requires Symmetric(p) && Symmetric(r)
    requires Mul(k, InnovationCovariance(p, h, r)) == Mul(p, Transpose(h))
    ensures Joseph(p, k, h, r) == Mul(GainResidual(k, h), p)
    ensures Joseph(p, k, h, r) == Sub(p, Congruence(k, InnovationCovariance(p, h, r)))
  {
    var g := GainResidual(k, h);
    var gp := Mul(g, p);
    var (ht, kt) := (Transpose(h), Transpose(k));
    assert Transpose(g) == Sub(Identity(k.rows), Mul(ht, kt)) by {
      TransposeSub(Identity(k.rows), Mul(k, h));
      TransposeIdentity(k.rows);
      TransposeMul(k, h);
    }
    calc {
      Congruence(g, p);
      { MulSubRight(gp, Identity(k.rows), Mul(ht, kt)); MulIdentity(gp); }
      Sub(gp, Mul(gp, Mul(ht, kt)));
      { MulAssoc(gp, ht, kt); MulAssoc(g, p, ht); ResidualTimesPht(p, k, h, r); }
      Sub(gp, Congruence(k, r));
    }
    SubAdd(gp, Congruence(k, r), gp);
    MulSubLeft(Identity(k.rows), Mul(k, h), p);
    MulIdentity(p);
    GainTimesHp(p, k, h, r);
  }

  /** xᵀ M y. */
  function Form(x: Matrix, m: Matrix, y: Matrix): real
    requires x.rows == m.rows && m.cols == y.rows && x.cols == y.cols == 1
  {
    At(Mul(Transpose(x), Mul(m, y)), 0, 0)
  }

  lemma FormSymmetric(x: Matrix, m: Matrix, y: Matrix)
    requires IsVector(x, m.rows) && IsVector(y, m.cols) && Symmetric(m)
    ensures Form(x, m, y) == Form(y, m, x)
  {
    var a := Mul(Transpose(x), Mul(m, y));
    calc {
      Transpose(a);
      { TransposeMul(Transpose(x), Mul(m, y)); TransposeTwice(x); }
      Mul(Transpose(Mul(m, y)), x);
      { TransposeMul(m, y); MulAssoc(Transpose(y), m, x); }
      Mul(Transpose(y), Mul(m, x));
    }
    assert At(Transpose(a), 0, 0) == At(a, 0, 0);
  }

  /** (x − y)ᵀ M (x − y) = xᵀMx − 2 xᵀMy + yᵀMy. */
  lemma QuadSub(m: Matrix, x: Matrix, y: Matrix)
    requires Symmetric(m) && IsVector(x, m.rows) && IsVector(y, m.rows)
    ensures Quad(m, Sub(x, y)) == Quad(m, x) - 2.0 * Form(x, m, y) + Quad(m, y)
  {
    var (mx, my) := (Mul(m, x), Mul(m, y));
    MulSubRight(m, x, y);
    TransposeSub(x, y);
    MulSubLeft(Transpose(x), Transpose(y), Sub(mx, my));
    MulSubRight(Transpose(x), mx, my);
    MulSubRight(Transpose(y), mx, my);
    FormSymmetric(x, m, y);
  }

  lemma ResidualTransposed(l: Matrix, h: Matrix, x: Matrix)
    requires l.rows == h.cols && l.cols == h.rows && IsVector(x, l.rows)
    ensures Mul(Transpose(GainResidual(l, h)), x) == Sub(x, Mul(Transpose(h), Mul(Transpose(l), x)))
  {
    var hl := Mul(Transpose(h), Transpose(l));
    calc {
      Mul(Transpose(GainResidual(l, h)), x);
      { TransposeSub(Identity(l.rows), Mul(l, h)); TransposeIdentity(l.rows); TransposeMul(l, h); }
      Mul(Sub(Identity(l.rows), hl), x);
      { MulSubLeft(Identity(l.rows), hl, x); MulIdentity(x); }
      Sub(x, Mul(hl, x));
      { MulAssoc(Transpose(h), Transpose(l), x); }
      Sub(x, Mul(Transpose(h), Mul(Transpose(l), x)));
    }
  }

  lemma FormSelf(m: Matrix, x: Matrix)
    requires m.rows == m.cols && IsVector(x, m.rows)
    ensures Form(x, m, x) == Quad(m, x)
  {
  }

  /** What any gain L leaves of the variance in direction x, with u = Lᵀx. */
  lemma JosephQuad(p: Matrix, l: Matrix, h: Matrix, r: Matrix, x: Matrix)
    requires p.rows == l.rows == h.cols && l.cols == h.rows == r.rows && IsVector(x, p.rows)
    requires Symmetric(p) && Symmetric(r)
    ensures var u := Mul(Transpose(l), x);
            Quad(Joseph(p, l, h, r), x) ==
            Quad(p, x) - 2.0 * Form(x, p, Mul(Transpose(h), u)) + Quad(InnovationCovariance(p, h, r), u)
  {
    hide Mul, Transpose, Sub, Add, Quad, Form, InnovationCovariance, GainResidual, Congruence;
    var u := Mul(Transpose(l), x);
    var g := GainResidual(l, h);
    ResidualTransposed(l, h, x);
    QuadAdd(Congruence(g, p), Congruence(l, r), x);
    QuadCongruence(g, p, x);
    QuadCongruence(l, r, x);
    QuadSub(p, x, Mul(Transpose(h), u));
    InnovationIsSymmetric(p, h, r);
    QuadAdd(Congruence(h, p), r, u);
    QuadCongruence(h, p, u);
  }

  lemma CrossTerm(p: Matrix, k: Matrix, h: Matrix, s: Matrix, x: Matrix, u: Matrix)
    requires p.rows == p.cols == k.rows == h.cols && k.cols == h.rows == s.rows == s.cols
    requires IsVector(x, p.rows) && IsVector(u, h.rows) && Mul(k, s) == Mul(p, Transpose(h))
    ensures Form(x, p, Mul(Transpose(h), u)) == Form(Mul(Transpose(k), x), s, u)
  {
    calc {
      Mul(Transpose(x), Mul(p, Mul(Transpose(h), u)));
      { MulAssoc(p, Transpose(h), u); MulAssoc(k, s, u); }
      Mul(Transpose(x), Mul(k, Mul(s, u)));
      { MulAssoc(Transpose(x), k, Mul(s, u)); TransposeMul(Transpose(k), x); TransposeTwice(k); }
      Mul(Transpose(Mul(Transpose(k), x)), Mul(s, u));
    }
  }

  /** The gain is optimal: every other gain L leaves at least as much variance in every direction,
      by exactly the S-length of (L − K)ᵀx. */
  lemma GainIsOptimal(p: Matrix, k: Matrix, l: Matrix, h: Matrix, r: Matrix, x: Matrix)
    requires p.rows == k.rows == l.rows == h.cols && k.cols == l.cols == h.rows == r.rows && IsVector(x, p.rows)
    requires IsCovariance(p) && IsCovariance(r)
    requires Mul(k, InnovationCovariance(p, h, r)) == Mul(p, Transpose(h))
    ensures Quad(Joseph(p, l, h, r), x) ==
            Quad(Joseph(p, k, h, r), x) +
            Quad(InnovationCovariance(p, h, r), Sub(Mul(Transpose(l), x), Mul(Transpose(k), x)))
    ensures Quad(Joseph(p, k, h, r), x) <= Quad(Joseph(p, l, h, r), x)
  {
    hide Mul, Transpose, Sub, Quad, Form, InnovationCovariance, Joseph;
    var s := InnovationCovariance(p, h, r);
    var (u, v) := (Mul(Transpose(l), x), Mul(Transpose(k), x));
    InnovationIsCovariance(p, h, r);
    JosephQuad(p, l, h, r, x);
    JosephQuad(p, k, h, r, x);
    CrossTerm(p, k, h, s, x, u);
    CrossTerm(p, k, h, s, x, v);
    FormSymmetric(u, s, v);
    QuadSub(s, u, v);
    FormSelf(s, v);
  }

  lemma InnovationIsCovariance(p: Matrix, h: Matrix, r: Matrix)
    requires p.rows == h.cols && r.rows == h.rows && IsCovariance(p) && IsCovariance(r)
    ensures IsCovariance(InnovationCovariance(p, h, r))
  {
    InnovationIsSymmetric(p, h, r);
    CongruenceIsCovariance(h, p);
    SumIsCovariance(Congruence(h, p), r);
  }

  /** A correction with a true inverse never increases the variance in any direction. */
  lemma CorrectionNeverInflates(p: Matrix, h: Matrix, r: Matrix, inverse: Matrix, x: Matrix)
    requires p.rows == h.cols && r.rows == h.rows == inverse.rows == inverse.cols && IsVector(x, p.rows)
    requires IsCovariance(p) && IsCovariance(r)
    requires Mul(inverse, InnovationCovariance(p, h, r)) == Identity(h.rows)
    ensures Quad(Joseph(p, Gain(p, h, inverse), h, r), x) <= Quad(p, x)
  {
    var k := Gain(p, h, inverse);
    var s := InnovationCovariance(p, h, r);
    GainSolves(p, h, r, inverse);
    JosephIsTextbook(p, k, h, r);
    InnovationIsCovariance(p, h, r);
    QuadAdd(p, Scale(-1.0, Congruence(k, s)), x);
    QuadScale(-1.0, Congruence(k, s), x);
    QuadCongruence(k, s, x);
    assert IsVector(Mul(Transpose(k), x), s.rows);
  }

  /** What is left of the innovation after the correction: z − Hx' = R S⁻¹ (z − Hx). */
  lemma ResidualAfterCorrection(p: Matrix, h: Matrix, r: Matrix, inverse: Matrix, x: Matrix, z: Matrix)
    requires p.rows == p.cols == h.cols == x.rows
             && r.rows == r.cols == h.rows == inverse.rows == inverse.cols == z.rows
    requires x.cols == z.cols == 1 && Mul(InnovationCovariance(p, h, r), inverse) == Identity(h.rows)
    ensures var v := Sub(z, Mul(h, x));
            Sub(z, Mul(h, Add(x, Mul(Gain(p, h, inverse), v)))) == Mul(r, Mul(inverse, v))
  {
    var v := Sub(z, Mul(h, x));
    var w := Mul(inverse, v);
    var pht := Mul(p, Transpose(h));
    var hpht := Mul(h, pht);
    calc {
      Mul(h, Add(x, Mul(Mul(pht, inverse), v)));
      { MulAddRight(h, x, Mul(Mul(pht, inverse), v)); MulAssoc(pht, inverse, v); MulAssoc(h, pht, w); }
      Add(Mul(h, x), Mul(hpht, w));
    }
    calc {
      v;
      { MulIdentity(v); MulAssoc(Add(hpht, r), inverse, v); }
      Mul(Add(hpht, r), w);
      { MulAddLeft(hpht, r, w); }
      Add(Mul(hpht, w), Mul(r, w));
    }
    SubSwap(z, Mul(h, x), Mul(hpht, w), Mul(r, w));
  }

  lemma SubSwap(z: Matrix, a: Matrix, b: Matrix, c: Matrix)
    requires z.rows == a.rows == b.rows == c.rows && z.cols == a.cols == b.cols == c.cols
    requires Sub(z, a) == Add(b, c)
    ensures Sub(z, Add(a, b)) == c
  {
    forall i: nat, j: nat | i < z.rows && j < z.cols
      ensures At(Sub(z, Add(a, b)), i, j) == At(c, i, j)
    {
      AddEntry(z, a, i, j);
      AddEntry(b, c, i, j);
      AddEntry(a, b, i, j);
      AddEntry(z, Add(a, b), i, j);
    }
    Same(Sub(z, Add(a, b)), c);
  }
}
