/**
  * The Gaussian colour model of color_model.hpp. A layer's colour
  * distribution is summarised by its mean mu and the inverse of its
  * covariance; the cost of a colour c is the squared Mahalanobis distance
  * (c - mu)^T SigmaInv (c - mu).
  *
  * The equations only read a model, so they take it as the value
  * ColorModel. The class GaussianColorModel is the object itself, whose
  * setters replace one field in place.
  */
module ColorModels {
  import opened LinearAlgebra

  /** The (mu, sigma_inv) pair of a GaussianColorModel. */
  datatype ColorModel = Gaussian(mu: Vec3, sigmaInv: Mat3)

  /** calculate_distance: the squared Mahalanobis distance of c from mu. */
  function Distance(m: ColorModel, c: Vec3): real
  {
    var diff := c.Sub(m.mu);
    diff.Dot(m.sigmaInv.MulVec(diff))
  }

  /** calculate_distance_gradient: 2 SigmaInv (c - mu). */
  function DistanceGradient(m: ColorModel, c: Vec3): Vec3
  {
    m.sigmaInv.MulVec(c.Sub(m.mu)).Scale(2.0)
  }

  /** get_representative_color: the mean colour. DistanceAtMu and GradientAtMu say what it is worth. */
  function RepresentativeColor(m: ColorModel): Vec3
  {
    m.mu
  }

  /** The mean costs nothing. */
  lemma DistanceAtMu(m: ColorModel)
    ensures Distance(m, m.mu) == 0.0
  {
    assert m.mu.Sub(m.mu) == Zero3();
  }

  /** The gradient vanishes at the mean. */
  lemma GradientAtMu(m: ColorModel)
    ensures DistanceGradient(m, m.mu) == Zero3()
  {
    var z := m.mu.Sub(m.mu);
    assert z == Vec3(0.0, 0.0, 0.0);
    var a := m.sigmaInv;
    Vec3DotZero(a.r0, z);
    Vec3DotZero(a.r1, z);
    Vec3DotZero(a.r2, z);
    assert a.MulVec(z) == Vec3(0.0, 0.0, 0.0);
  }

  lemma Vec3DotZero(u: Vec3, z: Vec3)
    requires z == Vec3(0.0, 0.0, 0.0)
    ensures u.Dot(z) == 0.0
  {
  }

  lemma DotScaleRight(u: Vec3, v: Vec3, k: real)
    ensures u.Dot(v.Scale(k)) == k * u.Dot(v)
  {
    assert u.x * (k * v.x) == k * (u.x * v.x);
    assert u.y * (k * v.y) == k * (u.y * v.y);
    assert u.z * (k * v.z) == k * (u.z * v.z);
  }

  lemma DotScaleLeft3(u: Vec3, v: Vec3, k: real)
    ensures u.Scale(k).Dot(v) == k * u.Dot(v)
  {
    assert (k * u.x) * v.x == k * (u.x * v.x);
    assert (k * u.y) * v.y == k * (u.y * v.y);
    assert (k * u.z) * v.z == k * (u.z * v.z);
  }

  lemma MulVecScale(a: Mat3, v: Vec3, k: real)
    ensures a.Scale(k).MulVec(v) == a.MulVec(v).Scale(k)
  {
    var p, q := a.Scale(k).MulVec(v), a.MulVec(v).Scale(k);
    assert p.x == q.x by { DotScaleLeft3(a.r0, v, k); }
    assert p.y == q.y by { DotScaleLeft3(a.r1, v, k); }
    assert p.z == q.z by { DotScaleLeft3(a.r2, v, k); }
  }

  /** Replacing SigmaInv by k * SigmaInv multiplies the distance by k. */
  lemma DistanceScale(m: ColorModel, c: Vec3, k: real)
    ensures Distance(Gaussian(m.mu, m.sigmaInv.Scale(k)), c) == k * Distance(m, c)
  {
    var diff := c.Sub(m.mu);
    MulVecScale(m.sigmaInv, diff, k);
    DotScaleRight(diff, m.sigmaInv.MulVec(diff), k);
  }

  /** Replacing SigmaInv by k * SigmaInv multiplies the gradient by k. */
  lemma GradientScale(m: ColorModel, c: Vec3, k: real)
    ensures DistanceGradient(Gaussian(m.mu, m.sigmaInv.Scale(k)), c) == DistanceGradient(m, c).Scale(k)
  {
    var diff := c.Sub(m.mu);
    MulVecScale(m.sigmaInv, diff, k);
    var g := m.sigmaInv.MulVec(diff);
    assert DistanceGradient(Gaussian(m.mu, m.sigmaInv.Scale(k)), c) == g.Scale(k).Scale(2.0);
    assert DistanceGradient(m, c) == g.Scale(2.0);
    ScaleCommute(g, k, 2.0);
  }

  lemma ScaleCommute(v: Vec3, a: real, b: real)
    ensures v.Scale(a).Scale(b) == v.Scale(b).Scale(a)
  {
    var x, y, z := v.x, v.y, v.z;
    assert b * (a * x) == a * (b * x);
    assert b * (a * y) == a * (b * y);
    assert b * (a * z) == a * (b * z);
  }

  /** With the identity as SigmaInv the distance is the squared Euclidean distance to mu. */
  lemma IdentityDistance(mu: Vec3, c: Vec3)
    ensures Distance(Gaussian(mu, Identity3()), c)
         == (c.x - mu.x) * (c.x - mu.x) + (c.y - mu.y) * (c.y - mu.y) + (c.z - mu.z) * (c.z - mu.z)
  {
  }

  lemma DotAddRight(u: Vec3, p: Vec3, q: Vec3)
    ensures u.Dot(p.Add(q)) == u.Dot(p) + u.Dot(q)
  {
    assert u.x * (p.x + q.x) == u.x * p.x + u.x * q.x;
    assert u.y * (p.y + q.y) == u.y * p.y + u.y * q.y;
    assert u.z * (p.z + q.z) == u.z * p.z + u.z * q.z;
  }

  lemma DotAddLeft(p: Vec3, q: Vec3, u: Vec3)
    ensures p.Add(q).Dot(u) == p.Dot(u) + q.Dot(u)
  {
    assert (p.x + q.x) * u.x == p.x * u.x + q.x * u.x;
    assert (p.y + q.y) * u.y == p.y * u.y + q.y * u.y;
    assert (p.z + q.z) * u.z == p.z * u.z + q.z * u.z;
  }

  lemma MulVecAdd(a: Mat3, p: Vec3, q: Vec3)
    ensures a.MulVec(p.Add(q)) == a.MulVec(p).Add(a.MulVec(q))
  {
    DotAddRight(a.r0, p, q);
    DotAddRight(a.r1, p, q);
    DotAddRight(a.r2, p, q);
  }

  /** For a symmetric matrix, u . (A v) == v . (A u). */
  lemma SymmetricForm(a: Mat3, u: Vec3, v: Vec3)
    requires Symmetric(a)
    ensures u.Dot(a.MulVec(v)) == v.Dot(a.MulVec(u))
  {
    var ux, uy, uz, vx, vy, vz := u.x, u.y, u.z, v.x, v.y, v.z;
    var axx, axy, axz, ayy, ayz, azz := a.r0.x, a.r0.y, a.r0.z, a.r1.y, a.r1.z, a.r2.z;
    assert a.MulVec(v) == Vec3(axx * vx + axy * vy + axz * vz, axy * vx + ayy * vy + ayz * vz,
                               axz * vx + ayz * vy + azz * vz);
    assert a.MulVec(u) == Vec3(axx * ux + axy * uy + axz * uz, axy * ux + ayy * uy + ayz * uz,
                               axz * ux + ayz * uy + azz * uz);
    assert ux * (axx * vx + axy * vy + axz * vz) + uy * (axy * vx + ayy * vy + ayz * vz)
           + uz * (axz * vx + ayz * vy + azz * vz)
        == vx * (axx * ux + axy * uy + axz * uz) + vy * (axy * ux + ayy * uy + ayz * uz)
           + vz * (axz * ux + ayz * uy + azz * uz);
  }

  /**
    * With a symmetric SigmaInv the distance is a quadratic in the colour
    * whose linear part is DistanceGradient: moving c by v changes the cost
    * by v . gradient plus the second-order term v . (SigmaInv v).
    */
  lemma DistanceExpansion(m: ColorModel, c: Vec3, v: Vec3)
    requires Symmetric(m.sigmaInv)
    ensures Distance(m, c.Add(v))
         == Distance(m, c) + v.Dot(DistanceGradient(m, c)) + v.Dot(m.sigmaInv.MulVec(v))
  {
    var a := m.sigmaInv;
    var d := c.Sub(m.mu);
    assert c.Add(v).Sub(m.mu) == d.Add(v);
    var ad, av := a.MulVec(d), a.MulVec(v);
    MulVecAdd(a, d, v);
    DotAddRight(d.Add(v), ad, av);
    DotAddLeft(d, v, ad);
    DotAddLeft(d, v, av);
    SymmetricForm(a, d, v);
    DotScaleRight(v, ad, 2.0);
  }

  /** A positive semi-definite SigmaInv makes every distance nonnegative. */
  ghost predicate PositiveSemiDefinite(a: Mat3)
  {
    forall v: Vec3 {:trigger a.MulVec(v)} :: 0.0 <= v.Dot(a.MulVec(v))
  }

  lemma DistanceNonnegative(m: ColorModel, c: Vec3)
    requires PositiveSemiDefinite(m.sigmaInv)
    ensures 0.0 <= Distance(m, c)
  {
    var diff := c.Sub(m.mu);
    assert 0.0 <= diff.Dot(m.sigmaInv.MulVec(diff));
  }

  /**
    * GaussianColorModel: an object holding mu and SigmaInv. The getters and
    * the evaluation methods read it; set_mu and set_sigma_inv replace one
    * field each.
    */
  class GaussianColorModel {
    var mu: Vec3
    var sigmaInv: Mat3

    /** The value the object currently stands for. */
    function Model(): (m: ColorModel)
      reads this
      ensures m.mu == mu && m.sigmaInv == sigmaInv
    {
      Gaussian(mu, sigmaInv)
    }

    constructor (mu: Vec3, sigmaInv: Mat3)
      ensures this.mu == mu && this.sigmaInv == sigmaInv
    {
      this.mu := mu;
      this.sigmaInv := sigmaInv;
    }

    method CalculateDistance(c: Vec3) returns (d: real)
      ensures d == Distance(Model(), c)
    {
      var diff := c.Sub(mu);
      d := diff.Dot(sigmaInv.MulVec(diff));
    }

    method CalculateDistanceGradient(c: Vec3) returns (g: Vec3)
      ensures g == DistanceGradient(Model(), c)
    {
      g := sigmaInv.MulVec(c.Sub(mu)).Scale(2.0);
    }

    method GetRepresentativeColor() returns (c: Vec3)
      ensures c == mu
      ensures Distance(Model(), c) == 0.0
    {
      c := RepresentativeColor(Model());
      DistanceAtMu(Model());
    }

    method GetMu() returns (r: Vec3)
      ensures r == mu
    {
      r := mu;
    }

    method GetSigmaInv() returns (r: Mat3)
      ensures r == sigmaInv
    {
      r := sigmaInv;
    }

    method SetMu(mu: Vec3)
      modifies this
      ensures this.mu == mu && sigmaInv == old(sigmaInv)
    {
      this.mu := mu;
    }

    method SetSigmaInv(sigmaInv: Mat3)
      modifies this
      ensures this.sigmaInv == sigmaInv && mu == old(mu)
    {
      this.sigmaInv := sigmaInv;
    }
  }
}
