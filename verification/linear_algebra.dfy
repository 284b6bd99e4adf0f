/**
  * The vector and matrix types the library takes from Eigen (the aliases
  * Vec3, Vec4, Mat3, Mat4, VecX and MatX of common.hpp), with the handful of
  * operations the library applies to them. Doubles are modelled as reals.
  * Fixed-size vectors and matrices are datatypes; dynamic vectors (VecX) are
  * sequences of reals and dynamic matrices (MatX) sequences of rows.
  */
module LinearAlgebra {

  /** Eigen::Vector3d. */
  datatype Vec3 = Vec3(x: real, y: real, z: real) {
    /** Component i, as v(i). */
    function At(i: nat): real
      requires i < 3
    {
      if i == 0 then x else if i == 1 then y else z
    }

    function Add(o: Vec3): Vec3 { Vec3(x + o.x, y + o.y, z + o.z) }

    function Sub(o: Vec3): Vec3 { Vec3(x - o.x, y - o.y, z - o.z) }

    function Scale(k: real): Vec3 { Vec3(k * x, k * y, k * z) }

    /** v / k, component by component. */
    function Div(k: real): Vec3
      requires k != 0.0
    {
      Vec3(x / k, y / k, z / k)
    }

    function Dot(o: Vec3): real { x * o.x + y * o.y + z * o.z }

    function CwiseMax(o: Vec3): Vec3
    {
      Vec3(if x < o.x then o.x else x, if y < o.y then o.y else y, if z < o.z then o.z else z)
    }

    function CwiseMin(o: Vec3): Vec3
    {
      Vec3(if o.x < x then o.x else x, if o.y < y then o.y else y, if o.z < z then o.z else z)
    }

    function ToSeq(): seq<real> { [x, y, z] }
  }

  function Constant3(v: real): Vec3 { Vec3(v, v, v) }

  function Zero3(): Vec3 { Constant3(0.0) }

  function Ones3(): Vec3 { Constant3(1.0) }

  /** Eigen::Vector4d; in an RGBA value (x, y, z) is the colour and w the alpha. */
  datatype Vec4 = Vec4(x: real, y: real, z: real, w: real) {
    function At(i: nat): real
      requires i < 4
    {
      if i == 0 then x else if i == 1 then y else if i == 2 then z else w
    }

    /** segment<3>(0) */
    function Rgb(): Vec3 { Vec3(x, y, z) }

    function CwiseMax(o: Vec4): Vec4
    {
      Vec4(if x < o.x then o.x else x, if y < o.y then o.y else y,
           if z < o.z then o.z else z, if w < o.w then o.w else w)
    }

    function CwiseMin(o: Vec4): Vec4
    {
      Vec4(if o.x < x then o.x else x, if o.y < y then o.y else y,
           if o.z < z then o.z else z, if o.w < w then o.w else w)
    }
  }

  /** (Vec4() << c, a).finished() */
  function Join(c: Vec3, a: real): Vec4 { Vec4(c.x, c.y, c.z, a) }

  function Constant4(v: real): Vec4 { Vec4(v, v, v, v) }

  /** Eigen::Matrix3d, stored by rows. */
  datatype Mat3 = Mat3(r0: Vec3, r1: Vec3, r2: Vec3) {
    function Row(i: nat): Vec3
      requires i < 3
    {
      if i == 0 then r0 else if i == 1 then r1 else r2
    }

    /** Entry (i, j), as m(i, j). */
    function At(i: nat, j: nat): real
      requires i < 3 && j < 3
    {
      Row(i).At(j)
    }

    function MulVec(v: Vec3): Vec3 { Vec3(r0.Dot(v), r1.Dot(v), r2.Dot(v)) }

    function Scale(k: real): Mat3 { Mat3(r0.Scale(k), r1.Scale(k), r2.Scale(k)) }

    function Transpose(): Mat3
    {
      Mat3(Vec3(r0.x, r1.x, r2.x), Vec3(r0.y, r1.y, r2.y), Vec3(r0.z, r1.z, r2.z))
    }
  }

  function Identity3(): Mat3
  {
    Mat3(Vec3(1.0, 0.0, 0.0), Vec3(0.0, 1.0, 0.0), Vec3(0.0, 0.0, 1.0))
  }

  predicate Symmetric(m: Mat3)
  {
    m.r0.y == m.r1.x && m.r0.z == m.r2.x && m.r1.z == m.r2.y
  }

  /** Eigen::Matrix4d, stored by rows. */
  datatype Mat4 = Mat4(r0: Vec4, r1: Vec4, r2: Vec4, r3: Vec4) {
    function Row(i: nat): Vec4
      requires i < 4
    {
      if i == 0 then r0 else if i == 1 then r1 else if i == 2 then r2 else r3
    }

    function At(i: nat, j: nat): real
      requires i < 4 && j < 4
    {
      Row(i).At(j)
    }

    /** Entry (i, j) of the product this * o. */
    function MulAt(o: Mat4, i: nat, j: nat): real
      requires i < 4 && j < 4
    {
      At(i, 0) * o.At(0, j) + At(i, 1) * o.At(1, j) + At(i, 2) * o.At(2, j) + At(i, 3) * o.At(3, j)
    }

    function MulRow(o: Mat4, i: nat): Vec4
      requires i < 4
    {
      Vec4(MulAt(o, i, 0), MulAt(o, i, 1), MulAt(o, i, 2), MulAt(o, i, 3))
    }

    /** The matrix product this * o. */
    function Mul(o: Mat4): Mat4
    {
      Mat4(MulRow(o, 0), MulRow(o, 1), MulRow(o, 2), MulRow(o, 3))
    }
  }

  function Identity4(): Mat4
  {
    Mat4(Vec4(1.0, 0.0, 0.0, 0.0), Vec4(0.0, 1.0, 0.0, 0.0),
         Vec4(0.0, 0.0, 1.0, 0.0), Vec4(0.0, 0.0, 0.0, 1.0))
  }

  // ---------------------------------------------------------------------
  // Dynamic vectors (VecX) as sequences
  // ---------------------------------------------------------------------

  /** x.sum(), accumulated from the front as a loop does. */
  function Sum(s: seq<real>): real
  {
    if |s| == 0 then 0.0 else Sum(s[..|s| - 1]) + s[|s| - 1]
  }

  /** a.transpose() * b */
  function Dot(a: seq<real>, b: seq<real>): real
    requires |a| == |b|
  {
    if |a| == 0 then 0.0 else Dot(a[..|a| - 1], b[..|b| - 1]) + a[|a| - 1] * b[|b| - 1]
  }

  /** x.squaredNorm() */
  function SquaredNorm(a: seq<real>): real
  {
    Dot(a, a)
  }

  function AddX(a: seq<real>, b: seq<real>): (r: seq<real>)
    requires |a| == |b|
  {
    seq(|a|, i requires 0 <= i < |a| => a[i] + b[i])
  }

  function SubX(a: seq<real>, b: seq<real>): (r: seq<real>)
    requires |a| == |b|
  {
    seq(|a|, i requires 0 <= i < |a| => a[i] - b[i])
  }

  function ScaleX(k: real, a: seq<real>): (r: seq<real>)
  {
    seq(|a|, i requires 0 <= i < |a| => k * a[i])
  }

  /** Colours laid out one after another: entries 3 i, 3 i + 1, 3 i + 2 hold vs[i]. */
  function Flatten(vs: seq<Vec3>): (r: seq<real>)
    ensures |r| == 3 * |vs|
  {
    if |vs| == 0 then [] else Flatten(vs[..|vs| - 1]) + vs[|vs| - 1].ToSeq()
  }

  lemma {:induction false} FlattenAt(vs: seq<Vec3>, i: nat, c: nat)
    requires i < |vs| && c < 3
    ensures Flatten(vs)[3 * i + c] == vs[i].At(c)
  {
    var n := |vs| - 1;
    if i < n {
      FlattenAt(vs[..n], i, c);
    }
  }

  /** A dynamic matrix with the given number of rows, every row of length cols. */
  predicate IsMatrix(m: seq<seq<real>>, rows: nat, cols: nat)
  {
    |m| == rows && forall r :: 0 <= r < rows ==> |m[r]| == cols
  }

  /** m * v for a dynamic matrix given by rows. */
  function MatVec(m: seq<seq<real>>, v: seq<real>): (r: seq<real>)
    requires IsMatrix(m, |m|, |v|)
  {
    seq(|m|, i requires 0 <= i < |m| => Dot(m[i], v))
  }

  function Zeros(n: nat): (r: seq<real>)
  {
    seq(n, _ => 0.0)
  }

  // ---------------------------------------------------------------------
  // Facts about these operations
  // ---------------------------------------------------------------------

  lemma {:induction false} SquaredNormNonnegative(a: seq<real>)
    ensures SquaredNorm(a) >= 0.0
  {
    if |a| > 0 {
      SquaredNormNonnegative(a[..|a| - 1]);
    }
  }

  /** A vector with a nonzero entry has a positive squared norm. */
  lemma {:induction false} SquaredNormPositive(a: seq<real>, i: nat)
    requires i < |a| && a[i] != 0.0
    ensures SquaredNorm(a) > 0.0
  {
    var p := a[..|a| - 1];
    var l := a[|a| - 1];
    assert SquaredNorm(a) == SquaredNorm(p) + Product(l, l);
    SquaredNormNonnegative(p);
    if i == |a| - 1 {
      SquarePositive(l);
    } else {
      assert p[i] == a[i];
      SquaredNormPositive(p, i);
      SquareNonnegative(l);
    }
  }

  /** The squared norm vanishes exactly on the zero vector. */
  lemma {:induction false} SquaredNormZeroIff(a: seq<real>)
    ensures SquaredNorm(a) == 0.0 <==> forall i :: 0 <= i < |a| ==> a[i] == 0.0
  {
    if forall i :: 0 <= i < |a| ==> a[i] == 0.0 {
      DotZeroLeft(a, a);
    } else {
      var i :| 0 <= i < |a| && a[i] != 0.0;
      SquaredNormPositive(a, i);
    }
  }

  lemma {:induction false} DotScaleLeft(k: real, a: seq<real>, b: seq<real>)
    requires |a| == |b|
    ensures Dot(ScaleX(k, a), b) == k * Dot(a, b)
  {
    if |a| > 0 {
      var n := |a| - 1;
      ScaleXPrefix(k, a, n);
      DotScaleLeft(k, a[..n], b[..n]);
    }
  }

  lemma ScaleXPrefix(k: real, a: seq<real>, n: nat)
    requires n <= |a|
    ensures ScaleX(k, a)[..n] == ScaleX(k, a[..n])
  {
    assert forall i :: 0 <= i < n ==> ScaleX(k, a)[..n][i] == k * a[i] == ScaleX(k, a[..n])[i];
  }

  lemma {:induction false} DotZeroLeft(a: seq<real>, b: seq<real>)
    requires |a| == |b|
    requires forall i :: 0 <= i < |a| ==> a[i] == 0.0
    ensures Dot(a, b) == 0.0
  {
    if |a| > 0 {
      DotZeroLeft(a[..|a| - 1], b[..|b| - 1]);
    }
  }

  lemma {:induction false} DotZeroRight(a: seq<real>, b: seq<real>)
    requires |a| == |b|
    requires forall i :: 0 <= i < |b| ==> b[i] == 0.0
    ensures Dot(a, b) == 0.0
  {
    if |a| > 0 {
      DotZeroRight(a[..|a| - 1], b[..|b| - 1]);
    }
  }

  /** Raising one entry by t raises the sum by t. */
  lemma {:induction false} SumUpdate(s: seq<real>, i: nat, t: real)
    requires i < |s|
    ensures Sum(s[i := s[i] + t]) == Sum(s) + t
  {
    var u := s[i := s[i] + t];
    var n := |s| - 1;
    if i == n {
      assert u[..n] == s[..n];
    } else {
      assert u[..n] == s[..n][i := s[i] + t];
      SumUpdate(s[..n], i, t);
    }
  }

  /** Raising entry i of a by t raises a^T b by t b_i. */
  lemma {:induction false} DotUpdateLeft(a: seq<real>, b: seq<real>, i: nat, t: real)
    requires |a| == |b| && i < |a|
    ensures Dot(a[i := a[i] + t], b) == Dot(a, b) + t * b[i]
  {
    var u := a[i := a[i] + t];
    var n := |a| - 1;
    if i == n {
      assert u[..n] == a[..n];
      assert (a[i] + t) * b[i] == a[i] * b[i] + t * b[i];
    } else {
      assert u[..n] == a[..n][i := a[i] + t];
      DotUpdateLeft(a[..n], b[..n], i, t);
    }
  }

  /** Raising entry i of b by t raises a^T b by t a_i. */
  lemma {:induction false} DotUpdateRight(a: seq<real>, b: seq<real>, i: nat, t: real)
    requires |a| == |b| && i < |a|
    ensures Dot(a, b[i := b[i] + t]) == Dot(a, b) + t * a[i]
  {
    var u := b[i := b[i] + t];
    var n := |a| - 1;
    if i == n {
      assert u[..n] == b[..n];
      assert a[i] * (b[i] + t) == a[i] * b[i] + t * a[i];
    } else {
      assert u[..n] == b[..n][i := b[i] + t];
      DotUpdateRight(a[..n], b[..n], i, t);
    }
  }

  lemma {:induction false} DotNonnegative(a: seq<real>, b: seq<real>)
    requires |a| == |b|
    requires forall i :: 0 <= i < |a| ==> 0.0 <= a[i] && 0.0 <= b[i]
    ensures 0.0 <= Dot(a, b)
  {
    if |a| > 0 {
      var n := |a| - 1;
      DotNonnegative(a[..n], b[..n]);
      MulNonnegative(a[n], b[n]);
    }
  }

  lemma {:induction false} SumNonnegative(s: seq<real>)
    requires forall i :: 0 <= i < |s| ==> 0.0 <= s[i]
    ensures 0.0 <= Sum(s)
  {
    if |s| > 0 {
      SumNonnegative(s[..|s| - 1]);
    }
  }

  lemma {:induction false} SumScale(k: real, a: seq<real>)
    ensures Sum(ScaleX(k, a)) == k * Sum(a)
  {
    if |a| > 0 {
      var n := |a| - 1;
      ScaleXPrefix(k, a, n);
      SumScale(k, a[..n]);
    }
  }

  lemma {:induction false} SumConstant(n: nat, v: real)
    ensures Sum(seq(n, _ => v)) == (n as real) * v
  {
    if n > 0 {
      assert seq(n, _ => v)[..n - 1] == seq(n - 1, _ => v);
      SumConstant(n - 1, v);
    }
  }

  // Real arithmetic the prover does not find unaided.

  lemma MulNonnegative(a: real, b: real)
    requires 0.0 <= a && 0.0 <= b
    ensures 0.0 <= a * b
  {
  }

  /**
    * a * b behind a name. The prover's nonlinear arithmetic rewrites a fact
    * such as 0 < l * l into l != 0, which no longer mentions the product, so
    * other occurrences of l * l cannot use it. Over Product the term stays a
    * plain function application and the fact stays attached to it.
    */
  function Product(a: real, b: real): real { a * b }

  lemma ProductPositive(a: real, b: real)
    requires 0.0 < a && 0.0 < b
    ensures 0.0 < Product(a, b)
  {
    assert 0.0 < a * b;
  }

  lemma SquareNonnegative(l: real)
    ensures 0.0 <= Product(l, l)
  {
  }

  lemma SquarePositive(l: real)
    requires l != 0.0
    ensures 0.0 < Product(l, l)
  {
    if l < 0.0 {
      ProductPositive(-l, -l);
      assert Product(-l, -l) == l * l;
    } else {
      ProductPositive(l, l);
    }
  }

  lemma MulMonotone(a: real, b: real, c: real)
    requires 0.0 <= a && b <= c
    ensures a * b <= a * c
  {
    MulNonnegative(a, c - b);
    assert a * (c - b) == a * c - a * b;
  }

  lemma MulUnitInterval(a: real, b: real)
    requires 0.0 <= a <= 1.0 && 0.0 <= b <= 1.0
    ensures 0.0 <= a * b <= b && a * b <= a && a * b <= 1.0
  {
    MulNonnegative(a, b);
    MulMonotone(b, a, 1.0);
    MulMonotone(a, b, 1.0);
  }
}
