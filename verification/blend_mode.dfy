/**
  * The separable blend modes of blend_mode.hpp: the names of the thirteen
  * modes, the blend function of a source value s over a destination value d
  * (one colour channel) and its partial derivatives by s and by d.
  */
module BlendModes {
  import opened LinearAlgebra
  import opened Wrappers

  datatype BlendMode =
    | Normal
    | Multiply
    | Screen
    | Overlay
    | Darken
    | Lighten
    | ColorDodge
    | ColorBurn
    | HardLight
    | SoftLight
    | Difference
    | Exclusion
    | LinearDodge
  {
    /** Position in the declaration order of the enumeration. */
    function Ordinal(): (k: nat)
      ensures k < 13
    {
      match this
      case Normal => 0
      case Multiply => 1
      case Screen => 2
      case Overlay => 3
      case Darken => 4
      case Lighten => 5
      case ColorDodge => 6
      case ColorBurn => 7
      case HardLight => 8
      case SoftLight => 9
      case Difference => 10
      case Exclusion => 11
      case LinearDodge => 12
    }
  }

  /** retrieve_name */
  function RetrieveName(mode: BlendMode): string
  {
    match mode
    case Normal => "Normal"
    case Multiply => "Multiply"
    case Screen => "Screen"
    case Overlay => "Overlay"
    case Darken => "Darken"
    case Lighten => "Lighten"
    case ColorDodge => "ColorDodge"
    case ColorBurn => "ColorBurn"
    case HardLight => "HardLight"
    case SoftLight => "SoftLight"
    case Difference => "Difference"
    case Exclusion => "Exclusion"
    case LinearDodge => "LinearDodge"
  }

  /**
    * retrieve_by_name. A name outside the thirteen fails an assertion in the
    * library; here it gives None.
    */
  function RetrieveByName(name: string): Option<BlendMode>
  {
    if name == "Normal" then Some(Normal)
    else if name == "Multiply" then Some(Multiply)
    else if name == "Screen" then Some(Screen)
    else if name == "Overlay" then Some(Overlay)
    else if name == "Darken" then Some(Darken)
    else if name == "Lighten" then Some(Lighten)
    else if name == "ColorDodge" then Some(ColorDodge)
    else if name == "ColorBurn" then Some(ColorBurn)
    else if name == "HardLight" then Some(HardLight)
    else if name == "SoftLight" then Some(SoftLight)
    else if name == "Difference" then Some(Difference)
    else if name == "Exclusion" then Some(Exclusion)
    else if name == "LinearDodge" then Some(LinearDodge)
    else None
  }

  /** Looking a mode up by its own name gives the mode back. */
  lemma NameRoundTrip(mode: BlendMode)
    ensures RetrieveByName(RetrieveName(mode)) == Some(mode)
  {
  }

  /** The name of a mode identifies it, so the thirteen names are distinct. */
  lemma NameInjective(m1: BlendMode, m2: BlendMode)
    requires RetrieveName(m1) == RetrieveName(m2)
    ensures m1 == m2
  {
    NameRoundTrip(m1);
    NameRoundTrip(m2);
  }

  /** A name is accepted exactly when it is the name of the mode it yields. */
  lemma ByNameInverse(name: string, mode: BlendMode)
    ensures RetrieveByName(name) == Some(mode) <==> RetrieveName(mode) == name
  {
  }

  /** get_blend_mode_list */
  function BlendModeList(): (list: seq<BlendMode>)
    ensures |list| == 13
    ensures forall i :: 0 <= i < 13 ==> list[i].Ordinal() == i
  {
    [Normal, Multiply, Screen, Overlay, Darken, Lighten, ColorDodge,
     ColorBurn, HardLight, SoftLight, Difference, Exclusion, LinearDodge]
  }

  /** The list holds every mode exactly once. */
  lemma BlendModeListComplete(mode: BlendMode)
    ensures mode in BlendModeList()
    ensures forall i, j :: 0 <= i < j < 13 ==> BlendModeList()[i] != BlendModeList()[j]
  {
    var list := BlendModeList();
    assert list[mode.Ordinal()] == mode;
  }

  /** blend_function_internal_epsilon */
  const Epsilon: real := 0.00001

  function Min(a: real, b: real): real { if b < a then b else a }

  /**
    * A stand-in for std::sqrt, used only on SoftLight's branch d > 0.25:
    * bisection of [0, 1] or [0, d] fifty times. The properties proved about
    * blending rely only on the bracket it keeps, 0 < r <= max(1, d), which
    * the true square root of a positive d keeps as well.
    */
  function Sqrt(d: real): (r: real)
    requires 0.0 <= d
    ensures 0.0 < r && (d <= 1.0 ==> r <= 1.0)
  {
    SqrtBisection(d, 0.0, if d <= 1.0 then 1.0 else d, 50)
  }

  function SqrtBisection(d: real, lo: real, hi: real, steps: nat): (r: real)
    requires 0.0 <= lo <= hi
    ensures lo <= r <= hi
    ensures 0.0 < hi ==> 0.0 < r
    decreases steps, 0
  {
    if steps == 0 then hi else SqrtHalve(d, lo, hi, steps - 1)
  }

  /** One bisection step: split [lo, hi] at its midpoint. */
  function SqrtHalve(d: real, lo: real, hi: real, steps: nat): (r: real)
    requires 0.0 <= lo <= hi
    ensures lo <= r <= hi
    ensures 0.0 < hi ==> 0.0 < r
    decreases steps, 2
  {
    SqrtPick(d, lo, (lo + hi) / 2.0, hi, steps)
  }

  /**
    * Keep the half of [lo, hi] that holds the root. Kept apart from SqrtHalve
    * so that the square below stays out of sight of proofs about blending.
    */
  function SqrtPick(d: real, lo: real, mid: real, hi: real, steps: nat): (r: real)
    requires 0.0 <= lo <= mid <= hi && (0.0 < hi ==> 0.0 < mid)
    ensures lo <= r <= hi
    ensures 0.0 < hi ==> 0.0 < r
    decreases steps, 1
  {
    if mid * mid <= d then SqrtBisection(d, mid, hi, steps)
    else SqrtBisection(d, lo, mid, steps)
  }

  /** SoftLight's D(d) on the branch d <= 0.25. */
  function SoftLightPolynomial(d: real): real
  {
    ((16.0 * d - 12.0) * d + 4.0) * d
  }

  /** blend(s, d, mode, crop) for one channel. */
  function Blend(s: real, d: real, mode: BlendMode, crop: bool): real
  {
    match mode
    case Normal => s
    case Multiply => s * d
    case Screen => 1.0 - (1.0 - s) * (1.0 - d)
    case Overlay => if d <= 0.5 then 2.0 * s * d else 1.0 - 2.0 * (1.0 - s) * (1.0 - d)
    case Darken => if s < d then s else d
    case Lighten => if s < d then d else s
    case ColorDodge =>
      if d < Epsilon then 0.0
      else if 1.0 - s < Epsilon then 1.0
      else Min(1.0, d / (1.0 - s))
    case ColorBurn =>
      if 1.0 - d < Epsilon then 1.0
      else if s < Epsilon then 0.0
      else 1.0 - Min(1.0, (1.0 - d) / s)
    case HardLight => if s <= 0.5 then 2.0 * s * d else 1.0 - 2.0 * (1.0 - s) * (1.0 - d)
    case SoftLight =>
      if s <= 0.5 then d - (1.0 - 2.0 * s) * d * (1.0 - d)
      else if d <= 0.25 then d + (2.0 * s - 1.0) * (SoftLightPolynomial(d) - d)
      else d + (2.0 * s - 1.0) * (Sqrt(d) - d)
    case Difference => if s < d then d - s else s - d
    case Exclusion => s + d - 2.0 * s * d
    case LinearDodge => if crop && s + d > 1.0 then 1.0 else s + d
  }

  /**
    * blend_grad_s: the partial derivative of Blend by s. The divisions by a
    * square, (1 - s) * (1 - s) and s * s, are written as two divisions.
    */
  function BlendGradS(s: real, d: real, mode: BlendMode, crop: bool): real
  {
    match mode
    case Normal => 1.0
    case Multiply => d
    case Screen => 1.0 - d
    case Overlay => if d <= 0.5 then 2.0 * d else 2.0 * (1.0 - d)
    case Darken => if s < d then 1.0 else 0.0
    case Lighten => if s < d then 0.0 else 1.0
    case ColorDodge =>
      if d < Epsilon then 0.0
      else if 1.0 - s < Epsilon then 0.0
      else if 1.0 < d / (1.0 - s) then 0.0
      else d / (1.0 - s) / (1.0 - s)
    case ColorBurn =>
      if 1.0 - d < Epsilon then 0.0
      else if s < Epsilon then 0.0
      else -(if 1.0 < (1.0 - d) / s then 0.0 else -((1.0 - d) / s / s))
    case HardLight => if s <= 0.5 then 2.0 * d else 2.0 * (1.0 - d)
    case SoftLight =>
      if s <= 0.5 then 2.0 * d * (1.0 - d)
      else if d <= 0.25 then 2.0 * (SoftLightPolynomial(d) - d)
      else 2.0 * (Sqrt(d) - d)
    case Difference => if s < d then -1.0 else 1.0
    case Exclusion => 1.0 - 2.0 * d
    case LinearDodge => if crop && s + d > 1.0 then 0.0 else 1.0
  }

  /** blend_grad_d: the partial derivative of Blend by d. */
  function BlendGradD(s: real, d: real, mode: BlendMode, crop: bool): real
  {
    match mode
    case Normal => 0.0
    case Multiply => s
    case Screen => 1.0 - s
    case Overlay => if d <= 0.5 then 2.0 * s else 2.0 * (1.0 - s)
    case Darken => if s < d then 0.0 else 1.0
    case Lighten => if s < d then 1.0 else 0.0
    case ColorDodge =>
      if d < Epsilon then 0.0
      else if 1.0 - s < Epsilon then 0.0
      else if 1.0 < d / (1.0 - s) then 0.0
      else 1.0 / (1.0 - s)
    case ColorBurn =>
      if 1.0 - d < Epsilon then 0.0
      else if s < Epsilon then 0.0
      else -(if 1.0 < (1.0 - d) / s then 0.0 else -(1.0 / s))
    case HardLight => if s <= 0.5 then 2.0 * s else 2.0 * (1.0 - s)
    case SoftLight =>
      if s <= 0.5 then 2.0 * s + 2.0 * d - 4.0 * s * d
      else if d <= 0.25 then 1.0 + (2.0 * s - 1.0) * (48.0 * d * d - 24.0 * d + 4.0) - (2.0 * s - 1.0)
      else 1.0 + (2.0 * s - 1.0) * (1.0 / (2.0 * Sqrt(d))) - (2.0 * s - 1.0)
    case Difference => if s < d then 1.0 else -1.0
    case Exclusion => 1.0 - 2.0 * s
    case LinearDodge => if crop && s + d > 1.0 then 0.0 else 1.0
  }

  /** blend(s, d, mode, crop) for a colour: the scalar blend on each channel. */
  function BlendVec3(s: Vec3, d: Vec3, mode: BlendMode, crop: bool): (r: Vec3)
    ensures forall i :: 0 <= i < 3 ==> r.At(i) == Blend(s.At(i), d.At(i), mode, crop)
  {
    Vec3(Blend(s.x, d.x, mode, crop), Blend(s.y, d.y, mode, crop), Blend(s.z, d.z, mode, crop))
  }

  // ---------------------------------------------------------------------
  // Properties of the blend functions
  // ---------------------------------------------------------------------

  predicate InUnit(v: real) { 0.0 <= v <= 1.0 }

  // The prover's nonlinear reasoning is fragile. The bounds below name the
  // factors of each product, obtain the product facts from small lemmas, and
  // leave the linear step to a lemma over plain variables.

  /** a * c <= b * c for a <= b and c >= 0. */
  lemma MulRight(a: real, b: real, c: real)
    requires a <= b && 0.0 <= c
    ensures a * c <= b * c
  {
    MulMonotone(c, a, b);
  }

  /** A factor in [0, 1] shrinks a value towards zero. */
  lemma ShrinkRight(a: real, b: real)
    requires 0.0 <= a <= 1.0 && 0.0 <= b
    ensures 0.0 <= a * b <= b
  {
    MulRight(a, 1.0, b);
    MulNonnegative(a, b);
  }

  /** The same for a negative value: the product lies in [b, 0]. */
  lemma ShrinkNegative(a: real, b: real)
    requires 0.0 <= a <= 1.0 && b < 0.0
    ensures b <= a * b <= 0.0
  {
    MulMonotone(a, b, 0.0);
    MulMonotone(1.0 - a, b, 0.0);
    assert (1.0 - a) * b == b - a * b;
  }

  lemma ShrinkLeft(a: real, b: real)
    requires 0.0 <= a && 0.0 <= b <= 1.0
    ensures 0.0 <= a * b <= a
  {
    MulMonotone(a, b, 1.0);
    MulNonnegative(a, b);
  }

  lemma MulNonpositive(a: real, c: real)
    requires a <= 0.0 && 0.0 <= c
    ensures a * c <= 0.0
  {
    MulNonnegative(-a, c);
    assert (-a) * c == -(a * c);
  }

  /** a * c < b * c for a < b and c > 0. */
  lemma MulStrictRight(a: real, b: real, c: real)
    requires a < b && 0.0 < c
    ensures a * c < b * c
  {
    ProductPositive(b - a, c);
    assert Product(b - a, c) == b * c - a * c;
  }

  /** n / m for n >= 0 and m > 0: nonnegative, below 1 exactly when n < m. */
  lemma QuotientBounds(n: real, m: real)
    requires 0.0 <= n && 0.0 < m
    ensures 0.0 <= n / m
    ensures n / m * m == n
    ensures n < m <==> n / m < 1.0
  {
    var q := n / m;
    assert q * m == n;
    if q < 1.0 {
      MulStrictRight(q, 1.0, m);
    } else {
      MulRight(1.0, q, m);
    }
  }

  lemma BoundedInUnit(p: real, bound: real)
    requires 0.0 <= p <= bound <= 1.0
    ensures 0.0 <= p <= 1.0
  {
  }

  lemma ComplementInUnit(p: real, bound: real)
    requires 0.0 <= p <= bound <= 1.0
    ensures 0.0 <= 1.0 - p <= 1.0
  {
  }

  lemma DifferenceInUnit(p: real, q: real, d: real)
    requires 0.0 <= p <= q <= d <= 1.0
    ensures 0.0 <= d - p <= 1.0
  {
  }

  lemma StepInUnit(d: real, v: real, x: real)
    requires InUnit(d) && InUnit(v)
    requires v - d >= 0.0 ==> 0.0 <= x <= v - d
    requires v - d < 0.0 ==> v - d <= x <= 0.0
    ensures 0.0 <= d + x <= 1.0
  {
  }

  lemma QuadraticCore(d: real, p: real)
    requires 0.0 <= d <= 0.25 && -12.0 * d <= p <= 0.0
    ensures 1.0 <= p + 4.0 <= 4.0
  {
  }

  lemma ExclusionCore(s: real, d: real, sd: real, p: real, e: real)
    requires InUnit(s) && InUnit(d)
    requires 0.0 <= sd <= s && sd <= d && p == 2.0 * sd && e == 1.0 - s - d + sd && 0.0 <= e
    ensures 0.0 <= s + d - p <= 1.0
  {
  }

  lemma MultiplyInUnit(s: real, d: real, crop: bool)
    requires InUnit(s) && InUnit(d)
    ensures 0.0 <= Blend(s, d, Multiply, crop) <= 1.0
  {
    ShrinkRight(s, d);
    BoundedInUnit(s * d, d);
  }

  lemma ScreenInUnit(s: real, d: real, crop: bool)
    requires InUnit(s) && InUnit(d)
    ensures 0.0 <= Blend(s, d, Screen, crop) <= 1.0
  {
    var a, b := 1.0 - s, 1.0 - d;
    ShrinkRight(a, b);
    ComplementInUnit(a * b, b);
  }

  /** The lower half of Overlay and HardLight. */
  lemma LowerHalfInUnit(s: real, d: real)
    requires InUnit(s) && InUnit(d) && (s <= 0.5 || d <= 0.5)
    ensures 0.0 <= 2.0 * s * d <= 1.0
  {
    var a := 2.0 * s;
    var p := a * d;
    assert 0.0 <= d <= 1.0;
    if s <= 0.5 {
      ShrinkRight(a, d);
      BoundedInUnit(p, d);
    } else {
      MulRight(a, 2.0, d);
      MulNonnegative(a, d);
      BoundedInUnit(p, 2.0 * d);
    }
  }

  /** The upper half of Overlay and HardLight. */
  lemma UpperHalfInUnit(s: real, d: real)
    requires InUnit(s) && InUnit(d) && (0.5 < s || 0.5 < d)
    ensures 0.0 <= 1.0 - 2.0 * (1.0 - s) * (1.0 - d) <= 1.0
  {
    if 0.5 < s {
      UpperHalfBySource(s, d);
    } else {
      UpperHalfByDestination(s, d);
    }
  }

  lemma UpperHalfBySource(s: real, d: real)
    requires InUnit(s) && InUnit(d) && 0.5 < s
    ensures 0.0 <= 1.0 - 2.0 * (1.0 - s) * (1.0 - d) <= 1.0
  {
    var a, b := 2.0 * (1.0 - s), 1.0 - d;
    ShrinkRight(a, b);
    ComplementInUnit(a * b, b);
  }

  lemma UpperHalfByDestination(s: real, d: real)
    requires InUnit(s) && InUnit(d) && 0.5 < d
    ensures 0.0 <= 1.0 - 2.0 * (1.0 - s) * (1.0 - d) <= 1.0
  {
    var a, b := 2.0 * (1.0 - s), 1.0 - d;
    MulRight(a, 2.0, b);
    MulNonnegative(a, b);
    ComplementInUnit(a * b, 2.0 * b);
  }

  lemma OverlayInUnit(s: real, d: real, crop: bool)
    requires InUnit(s) && InUnit(d)
    ensures 0.0 <= Blend(s, d, Overlay, crop) <= 1.0
  {
    if d <= 0.5 { LowerHalfInUnit(s, d); } else { UpperHalfInUnit(s, d); }
  }

  lemma HardLightInUnit(s: real, d: real, crop: bool)
    requires InUnit(s) && InUnit(d)
    ensures 0.0 <= Blend(s, d, HardLight, crop) <= 1.0
  {
    if s <= 0.5 { LowerHalfInUnit(s, d); } else { UpperHalfInUnit(s, d); }
  }

  lemma ColorDodgeInUnit(s: real, d: real)
    requires InUnit(s) && InUnit(d)
    ensures 0.0 <= Blend(s, d, ColorDodge, false) <= 1.0
  {
    if Epsilon <= d && Epsilon <= 1.0 - s {
      QuotientBounds(d, 1.0 - s);
    }
  }

  lemma ColorBurnInUnit(s: real, d: real)
    requires InUnit(s) && InUnit(d)
    ensures 0.0 <= Blend(s, d, ColorBurn, false) <= 1.0
  {
    if Epsilon <= 1.0 - d && Epsilon <= s {
      QuotientBounds(1.0 - d, s);
    }
  }

  /** SoftLight for s <= 0.5: d - (1 - 2s) d (1 - d) lies in [0, d]. */
  lemma SoftLightLowerInUnit(s: real, d: real)
    requires InUnit(s) && InUnit(d) && s <= 0.5
    ensures 0.0 <= d - (1.0 - 2.0 * s) * d * (1.0 - d) <= 1.0
  {
    var k, c := 1.0 - 2.0 * s, 1.0 - d;
    ShrinkRight(k, d);
    var kd := k * d;
    MulRight(kd, d, c);
    MulNonnegative(kd, c);
    ShrinkLeft(d, c);
    DifferenceInUnit(kd * c, d * c, d);
  }

  /** D(d) stays in [0, 1] on its branch. */
  lemma SoftLightPolynomialInUnit(d: real)
    requires 0.0 <= d <= 0.25
    ensures 0.0 <= SoftLightPolynomial(d) <= 1.0
  {
    var a := 16.0 * d - 12.0;
    MulNonpositive(a, d);
    MulRight(-12.0, a, d);
    QuadraticCore(d, a * d);
    var q := a * d + 4.0;
    MulRight(q, 4.0, d);
    MulNonnegative(q, d);
    BoundedInUnit(q * d, 4.0 * d);
  }

  /** d + (2s - 1)(v - d) moves d towards v by a factor in (0, 1]. */
  lemma ConvexCombinationInUnit(s: real, d: real, v: real)
    requires 0.5 < s <= 1.0 && InUnit(d) && InUnit(v)
    ensures 0.0 <= d + (2.0 * s - 1.0) * (v - d) <= 1.0
  {
    var k, w := 2.0 * s - 1.0, v - d;
    if 0.0 <= w {
      ShrinkRight(k, w);
    } else {
      ShrinkNegative(k, w);
    }
    StepInUnit(d, v, k * w);
  }

  /** SoftLight for s > 0.5 and d <= 0.25 moves d towards D(d). */
  lemma SoftLightUpperInUnit(s: real, d: real, crop: bool)
    requires InUnit(s) && InUnit(d) && 0.5 < s && d <= 0.25
    ensures 0.0 <= Blend(s, d, SoftLight, crop) <= 1.0
  {
    SoftLightPolynomialInUnit(d);
    ConvexCombinationInUnit(s, d, SoftLightPolynomial(d));
  }

  lemma SoftLightInUnit(s: real, d: real, crop: bool)
    requires InUnit(s) && InUnit(d) && (s <= 0.5 || d <= 0.25)
    ensures 0.0 <= Blend(s, d, SoftLight, crop) <= 1.0
  {
    if s <= 0.5 {
      SoftLightLowerInUnit(s, d);
    } else {
      SoftLightUpperInUnit(s, d, crop);
    }
  }

  lemma ExclusionInUnit(s: real, d: real, crop: bool)
    requires InUnit(s) && InUnit(d)
    ensures 0.0 <= Blend(s, d, Exclusion, crop) <= 1.0
  {
    var a, b := 1.0 - s, 1.0 - d;
    var sd := s * d;
    ShrinkRight(s, d);
    assert sd <= d;
    ShrinkLeft(s, d);
    assert 0.0 <= sd <= s;
    MulNonnegative(a, b);
    var e := a * b;
    assert e == 1.0 - s - d + sd;
    assert 2.0 * s * d == 2.0 * sd;
    ExclusionCore(s, d, sd, 2.0 * s * d, e);
  }

  /**
    * For s and d in [0, 1] every mode blends into [0, 1], except LinearDodge
    * without cropping, which may reach 2. SoftLight is covered off its square
    * root branch (s > 0.5 and d > 0.25).
    */
  lemma BlendInUnit(s: real, d: real, mode: BlendMode, crop: bool)
    requires InUnit(s) && InUnit(d)
    requires mode == LinearDodge ==> crop
    requires mode == SoftLight ==> s <= 0.5 || d <= 0.25
    ensures 0.0 <= Blend(s, d, mode, crop) <= 1.0
  {
    match mode
    case Multiply => MultiplyInUnit(s, d, crop);
    case Screen => ScreenInUnit(s, d, crop);
    case Overlay => OverlayInUnit(s, d, crop);
    case HardLight => HardLightInUnit(s, d, crop);
    case ColorDodge => ColorDodgeInUnit(s, d);
    case ColorBurn => ColorBurnInUnit(s, d);
    case SoftLight => SoftLightInUnit(s, d, crop);
    case Exclusion => ExclusionInUnit(s, d, crop);
    case _ =>
  }

  /**
    * ColorDodge: 0 for a destination below Epsilon, 1 for a source within
    * Epsilon of 1, and otherwise d / (1 - s) saturated at 1, where 1 - s is
    * at least Epsilon.
    */
  lemma ColorDodgeGuards(s: real, d: real)
    ensures d < Epsilon ==> Blend(s, d, ColorDodge, false) == 0.0
    ensures Epsilon <= d && 1.0 - s < Epsilon ==> Blend(s, d, ColorDodge, false) == 1.0
    ensures Epsilon <= d && Epsilon <= 1.0 - s ==>
      var r := Blend(s, d, ColorDodge, false);
      (1.0 - s <= d && r == 1.0) || (d < 1.0 - s && r * (1.0 - s) == d && r < 1.0)
  {
    if Epsilon <= d && Epsilon <= 1.0 - s {
      QuotientBounds(d, 1.0 - s);
    }
  }

  /**
    * ColorBurn: 1 for a destination within Epsilon of 1, 0 for a source below
    * Epsilon, and otherwise 1 - (1 - d) / s floored at 0, where s is at least
    * Epsilon.
    */
  lemma ColorBurnGuards(s: real, d: real)
    ensures 1.0 - d < Epsilon ==> Blend(s, d, ColorBurn, false) == 1.0
    ensures Epsilon <= 1.0 - d && s < Epsilon ==> Blend(s, d, ColorBurn, false) == 0.0
    ensures Epsilon <= 1.0 - d && Epsilon <= s ==>
      var r := Blend(s, d, ColorBurn, false);
      (s <= 1.0 - d && r == 0.0) || (1.0 - d < s && (1.0 - r) * s == 1.0 - d && 0.0 < r)
  {
    if Epsilon <= 1.0 - d && Epsilon <= s {
      QuotientBounds(1.0 - d, s);
    }
  }

  /** Darken is the minimum, Lighten the maximum, Difference the distance. */
  lemma MinMaxModes(s: real, d: real, crop: bool)
    ensures var r := Blend(s, d, Darken, crop); r <= s && r <= d && (r == s || r == d)
    ensures var r := Blend(s, d, Lighten, crop); s <= r && d <= r && (r == s || r == d)
    ensures var r := Blend(s, d, Difference, crop); 0.0 <= r && (r == s - d || r == d - s)
  {
  }

  /**
    * LinearDodge adds; with cropping the sum saturates at 1 and is kept
    * whenever it does not exceed 1.
    */
  lemma LinearDodgeAdds(s: real, d: real)
    ensures Blend(s, d, LinearDodge, false) == s + d
    ensures Blend(s, d, LinearDodge, true) <= 1.0
    ensures s + d <= 1.0 ==> Blend(s, d, LinearDodge, true) == s + d
  {
  }

  // Slopes. Where blend is affine in one argument, moving that argument
  // from x1 to x2 changes blend by exactly (x2 - x1) times blend_grad at x1.

  lemma NormalSlopeS(s1: real, s2: real, d: real, crop: bool)
    ensures Blend(s2, d, Normal, crop) == Blend(s1, d, Normal, crop) + (s2 - s1) * BlendGradS(s1, d, Normal, crop)
  {
  }

  lemma MultiplySlopeS(s1: real, s2: real, d: real, crop: bool)
    ensures Blend(s2, d, Multiply, crop) == Blend(s1, d, Multiply, crop) + (s2 - s1) * BlendGradS(s1, d, Multiply, crop)
  {
    assert s2 * d == s1 * d + (s2 - s1) * d;
  }

  lemma ScreenSlopeS(s1: real, s2: real, d: real, crop: bool)
    ensures Blend(s2, d, Screen, crop) == Blend(s1, d, Screen, crop) + (s2 - s1) * BlendGradS(s1, d, Screen, crop)
  {
    assert (1.0 - s2) * (1.0 - d) == (1.0 - s1) * (1.0 - d) - (s2 - s1) * (1.0 - d);
  }

  lemma OverlaySlopeS(s1: real, s2: real, d: real, crop: bool)
    ensures Blend(s2, d, Overlay, crop) == Blend(s1, d, Overlay, crop) + (s2 - s1) * BlendGradS(s1, d, Overlay, crop)
  {
    if d <= 0.5 {
      assert 2.0 * s2 * d == 2.0 * s1 * d + (s2 - s1) * (2.0 * d);
    } else {
      assert 2.0 * (1.0 - s2) * (1.0 - d) == 2.0 * (1.0 - s1) * (1.0 - d) - (s2 - s1) * (2.0 * (1.0 - d));
    }
  }

  lemma HardLightSlopeS(s1: real, s2: real, d: real, crop: bool)
    requires s1 <= 0.5 <==> s2 <= 0.5
    ensures Blend(s2, d, HardLight, crop) == Blend(s1, d, HardLight, crop) + (s2 - s1) * BlendGradS(s1, d, HardLight, crop)
  {
    if s1 <= 0.5 {
      assert 2.0 * s2 * d == 2.0 * s1 * d + (s2 - s1) * (2.0 * d);
    } else {
      assert 2.0 * (1.0 - s2) * (1.0 - d) == 2.0 * (1.0 - s1) * (1.0 - d) - (s2 - s1) * (2.0 * (1.0 - d));
    }
  }

  lemma SoftLightLowerSlopeS(s1: real, s2: real, d: real, crop: bool)
    requires s1 <= 0.5 && s2 <= 0.5
    ensures Blend(s2, d, SoftLight, crop) == Blend(s1, d, SoftLight, crop) + (s2 - s1) * BlendGradS(s1, d, SoftLight, crop)
  {
    assert (1.0 - 2.0 * s2) * d * (1.0 - d) == (1.0 - 2.0 * s1) * d * (1.0 - d) - (s2 - s1) * (2.0 * d * (1.0 - d));
  }

  lemma SoftLightUpperSlopeS(s1: real, s2: real, d: real, crop: bool)
    requires 0.5 < s1 && 0.5 < s2 && d <= 0.25
    ensures Blend(s2, d, SoftLight, crop) == Blend(s1, d, SoftLight, crop) + (s2 - s1) * BlendGradS(s1, d, SoftLight, crop)
  {
    var v := SoftLightPolynomial(d);
    assert (2.0 * s2 - 1.0) * (v - d) == (2.0 * s1 - 1.0) * (v - d) + (s2 - s1) * (2.0 * (v - d));
  }

  lemma ExclusionSlopeS(s1: real, s2: real, d: real, crop: bool)
    ensures Blend(s2, d, Exclusion, crop) == Blend(s1, d, Exclusion, crop) + (s2 - s1) * BlendGradS(s1, d, Exclusion, crop)
  {
    assert 2.0 * s2 * d == 2.0 * s1 * d + (s2 - s1) * (2.0 * d);
  }

  lemma NormalSlopeD(s: real, d1: real, d2: real, crop: bool)
    ensures Blend(s, d2, Normal, crop) == Blend(s, d1, Normal, crop) + (d2 - d1) * BlendGradD(s, d1, Normal, crop)
  {
  }

  lemma MultiplySlopeD(s: real, d1: real, d2: real, crop: bool)
    ensures Blend(s, d2, Multiply, crop) == Blend(s, d1, Multiply, crop) + (d2 - d1) * BlendGradD(s, d1, Multiply, crop)
  {
    assert s * d2 == s * d1 + (d2 - d1) * s;
  }

  lemma ScreenSlopeD(s: real, d1: real, d2: real, crop: bool)
    ensures Blend(s, d2, Screen, crop) == Blend(s, d1, Screen, crop) + (d2 - d1) * BlendGradD(s, d1, Screen, crop)
  {
    assert (1.0 - s) * (1.0 - d2) == (1.0 - s) * (1.0 - d1) - (d2 - d1) * (1.0 - s);
  }

  lemma OverlaySlopeD(s: real, d1: real, d2: real, crop: bool)
    requires d1 <= 0.5 <==> d2 <= 0.5
    ensures Blend(s, d2, Overlay, crop) == Blend(s, d1, Overlay, crop) + (d2 - d1) * BlendGradD(s, d1, Overlay, crop)
  {
    if d1 <= 0.5 {
      assert 2.0 * s * d2 == 2.0 * s * d1 + (d2 - d1) * (2.0 * s);
    } else {
      assert 2.0 * (1.0 - s) * (1.0 - d2) == 2.0 * (1.0 - s) * (1.0 - d1) - (d2 - d1) * (2.0 * (1.0 - s));
    }
  }

  lemma HardLightSlopeD(s: real, d1: real, d2: real, crop: bool)
    ensures Blend(s, d2, HardLight, crop) == Blend(s, d1, HardLight, crop) + (d2 - d1) * BlendGradD(s, d1, HardLight, crop)
  {
    if s <= 0.5 {
      assert 2.0 * s * d2 == 2.0 * s * d1 + (d2 - d1) * (2.0 * s);
    } else {
      assert 2.0 * (1.0 - s) * (1.0 - d2) == 2.0 * (1.0 - s) * (1.0 - d1) - (d2 - d1) * (2.0 * (1.0 - s));
    }
  }

  lemma ExclusionSlopeD(s: real, d1: real, d2: real, crop: bool)
    ensures Blend(s, d2, Exclusion, crop) == Blend(s, d1, Exclusion, crop) + (d2 - d1) * BlendGradD(s, d1, Exclusion, crop)
  {
    assert 2.0 * s * d2 == 2.0 * s * d1 + (d2 - d1) * (2.0 * s);
  }

  /**
    * SoftLight with s <= 0.5 is quadratic in d: blend_grad_d is its slope and
    * the remainder is (1 - 2s) times the squared step.
    */
  lemma SoftLightGradDIsTangent(s: real, d1: real, d2: real, crop: bool)
    requires s <= 0.5
    ensures Blend(s, d2, SoftLight, crop)
         == Blend(s, d1, SoftLight, crop) + (d2 - d1) * BlendGradD(s, d1, SoftLight, crop)
            + (1.0 - 2.0 * s) * Product(d2 - d1, d2 - d1)
  {
    var k := 1.0 - 2.0 * s;
    var h := d2 - d1;
    assert d2 * (1.0 - d2) == d1 * (1.0 - d1) + h * (1.0 - 2.0 * d1) - Product(h, h);
    assert k * d2 * (1.0 - d2) == k * (d2 * (1.0 - d2));
    assert k * d1 * (1.0 - d1) == k * (d1 * (1.0 - d1));
  }
}
