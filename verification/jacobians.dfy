/**
  * The derivatives of equations.cpp. A 4x4 derivative is stored as the
  * source stores it: transposed, so row r is the input variable (r < 3 a
  * colour channel, r == 3 the alpha) and column c the output (c < 3 the
  * composite colour channel, c == 3 the composite alpha). Because every
  * blend mode is separable, the colour-by-colour block is diagonal.
  *
  * The composite is differentiated without cropping (crop = false), as in
  * the source. The colour entries divide by the composite alpha with no
  * guard, so every derivative here requires that alpha to be nonzero.
  */
module Jacobians {
  import opened LinearAlgebra
  import opened CompOps
  import opened BlendModes
  import opened Compositing

  // ---------------------------------------------------------------------
  // Alpha derivatives
  // ---------------------------------------------------------------------

  /** calculate_derivative_of_composite_alpha_by_source_alpha: X a_d + Y (1 - a_d) - Z a_d */
  function AlphaSlopeBySource(aD: real, op: CompOp): real
  {
    (op.x as real) * aD + (op.y as real) * (1.0 - aD) - (op.z as real) * aD
  }

  /** calculate_derivative_of_composite_alpha_by_destination_alpha: X a_s - Y a_s + Z (1 - a_s) */
  function AlphaSlopeByDestination(aS: real, op: CompOp): real
  {
    (op.x as real) * aS - (op.y as real) * aS + (op.z as real) * (1.0 - aS)
  }

  lemma AffineInSource(x: real, y: real, z: real, s: real, d: real, t: real)
    ensures x * (s + t) * d + y * (s + t) * (1.0 - d) + z * d * (1.0 - (s + t))
         == x * s * d + y * s * (1.0 - d) + z * d * (1.0 - s) + t * (x * d + y * (1.0 - d) - z * d)
  {
    assert x * (s + t) * d == x * s * d + t * (x * d);
    assert y * (s + t) * (1.0 - d) == y * s * (1.0 - d) + t * (y * (1.0 - d));
    assert z * d * (1.0 - (s + t)) == z * d * (1.0 - s) - t * (z * d);
  }

  lemma AffineInDestination(x: real, y: real, z: real, s: real, d: real, t: real)
    ensures x * s * (d + t) + y * s * (1.0 - (d + t)) + z * (d + t) * (1.0 - s)
         == x * s * d + y * s * (1.0 - d) + z * d * (1.0 - s) + t * (x * s - y * s + z * (1.0 - s))
  {
    assert x * s * (d + t) == x * s * d + t * (x * s);
    assert y * s * (1.0 - (d + t)) == y * s * (1.0 - d) - t * (y * s);
    assert z * (d + t) * (1.0 - s) == z * d * (1.0 - s) + t * (z * (1.0 - s));
  }

  /** The composite alpha is affine in the source alpha, with slope AlphaSlopeBySource. */
  lemma AlphaSlopeBySourceIsExact(op: CompOp, aS: real, aD: real, t: real)
    ensures CompositeAlpha(op, aS + t, aD) == CompositeAlpha(op, aS, aD) + t * AlphaSlopeBySource(aD, op)
  {
    AffineInSource(op.x as real, op.y as real, op.z as real, aS, aD, t);
  }

  /** The composite alpha is affine in the destination alpha, with slope AlphaSlopeByDestination. */
  lemma AlphaSlopeByDestinationIsExact(op: CompOp, aS: real, aD: real, t: real)
    ensures CompositeAlpha(op, aS, aD + t) == CompositeAlpha(op, aS, aD) + t * AlphaSlopeByDestination(aS, op)
  {
    AffineInDestination(op.x as real, op.y as real, op.z as real, aS, aD, t);
  }

  // ---------------------------------------------------------------------
  // Partials of the premultiplied colour
  // ---------------------------------------------------------------------

  /** calculate_derivative_of_blend_function_by_source: the diagonal of dB/dc_s, channel by channel. */
  function BlendGradSVec3(cS: Vec3, cD: Vec3, mode: BlendMode): (r: Vec3)
    ensures forall i :: 0 <= i < 3 ==> r.At(i) == BlendGradS(cS.At(i), cD.At(i), mode, false)
  {
    Vec3(BlendGradS(cS.x, cD.x, mode, false), BlendGradS(cS.y, cD.y, mode, false),
         BlendGradS(cS.z, cD.z, mode, false))
  }

  /** calculate_derivative_of_blend_function_by_destination */
  function BlendGradDVec3(cS: Vec3, cD: Vec3, mode: BlendMode): (r: Vec3)
    ensures forall i :: 0 <= i < 3 ==> r.At(i) == BlendGradD(cS.At(i), cD.At(i), mode, false)
  {
    Vec3(BlendGradD(cS.x, cD.x, mode, false), BlendGradD(cS.y, cD.y, mode, false),
         BlendGradD(cS.z, cD.z, mode, false))
  }

  /** dC/dc_s: a_s a_d times the blend slope, plus Y (1 - a_d) a_s, per channel. */
  function PremultipliedSlopeBySourceColor(xS: Vec4, xD: Vec4, op: CompOp, mode: BlendMode): Vec3
  {
    BlendGradSVec3(xS.Rgb(), xD.Rgb(), mode).Scale(xS.w * xD.w)
      .Add(Constant3((op.y as real) * (1.0 - xD.w) * xS.w))
  }

  /** dC/dc_d: a_s a_d times the blend slope, plus Z (1 - a_s) a_d, per channel. */
  function PremultipliedSlopeByDestinationColor(xS: Vec4, xD: Vec4, op: CompOp, mode: BlendMode): Vec3
  {
    BlendGradDVec3(xS.Rgb(), xD.Rgb(), mode).Scale(xS.w * xD.w)
      .Add(Constant3((op.z as real) * (1.0 - xS.w) * xD.w))
  }

  /** dC/da_s for the blended colour D: D a_d + Y (1 - a_d) c_s - Z a_d c_d */
  function PremultipliedSlopeBySourceAlpha(blended: Vec3, xS: Vec4, xD: Vec4, op: CompOp): Vec3
  {
    blended.Scale(xD.w)
      .Add(xS.Rgb().Scale((op.y as real) * (1.0 - xD.w)))
      .Sub(xD.Rgb().Scale((op.z as real) * xD.w))
  }

  /** dC/da_d for the blended colour D: D a_s - Y a_s c_s + Z (1 - a_s) c_d */
  function PremultipliedSlopeByDestinationAlpha(blended: Vec3, xS: Vec4, xD: Vec4, op: CompOp): Vec3
  {
    blended.Scale(xS.w)
      .Sub(xS.Rgb().Scale((op.y as real) * xS.w))
      .Add(xD.Rgb().Scale((op.z as real) * (1.0 - xS.w)))
  }

  lemma ChannelAffineInSourceAlpha(f: real, s: real, d: real, aS: real, aD: real, y: real, z: real, t: real)
    ensures f * (aS + t) * aD + y * (aS + t) * (1.0 - aD) * s + z * aD * (1.0 - (aS + t)) * d
         == f * aS * aD + y * aS * (1.0 - aD) * s + z * aD * (1.0 - aS) * d
            + t * (f * aD + y * (1.0 - aD) * s - z * aD * d)
  {
    assert f * (aS + t) * aD == f * aS * aD + t * (f * aD);
    assert y * (aS + t) * (1.0 - aD) * s == y * aS * (1.0 - aD) * s + t * (y * (1.0 - aD) * s);
    assert z * aD * (1.0 - (aS + t)) * d == z * aD * (1.0 - aS) * d - t * (z * aD * d);
  }

  lemma ChannelAffineInDestinationAlpha(f: real, s: real, d: real, aS: real, aD: real, y: real, z: real, t: real)
    ensures f * aS * (aD + t) + y * aS * (1.0 - (aD + t)) * s + z * (aD + t) * (1.0 - aS) * d
         == f * aS * aD + y * aS * (1.0 - aD) * s + z * aD * (1.0 - aS) * d
            + t * (f * aS - y * aS * s + z * (1.0 - aS) * d)
  {
    assert f * aS * (aD + t) == f * aS * aD + t * (f * aS);
    assert y * aS * (1.0 - (aD + t)) * s == y * aS * (1.0 - aD) * s - t * (y * aS * s);
    assert z * (aD + t) * (1.0 - aS) * d == z * aD * (1.0 - aS) * d + t * (z * (1.0 - aS) * d);
  }

  /** The premultiplied colour is affine in the source alpha, whatever the blended colour. */
  lemma PremultipliedSlopeBySourceAlphaIsExact(blended: Vec3, xS: Vec4, xD: Vec4, op: CompOp, t: real)
    ensures PremultipliedOf(blended, xS.Rgb(), xD.Rgb(), xS.w + t, xD.w, op)
         == PremultipliedOf(blended, xS.Rgb(), xD.Rgb(), xS.w, xD.w, op)
              .Add(PremultipliedSlopeBySourceAlpha(blended, xS, xD, op).Scale(t))
  {
    var y, z := op.y as real, op.z as real;
    ChannelAffineInSourceAlpha(blended.x, xS.x, xD.x, xS.w, xD.w, y, z, t);
    ChannelAffineInSourceAlpha(blended.y, xS.y, xD.y, xS.w, xD.w, y, z, t);
    ChannelAffineInSourceAlpha(blended.z, xS.z, xD.z, xS.w, xD.w, y, z, t);
  }

  /** The premultiplied colour is affine in the destination alpha, whatever the blended colour. */
  lemma PremultipliedSlopeByDestinationAlphaIsExact(blended: Vec3, xS: Vec4, xD: Vec4, op: CompOp, t: real)
    ensures PremultipliedOf(blended, xS.Rgb(), xD.Rgb(), xS.w, xD.w + t, op)
         == PremultipliedOf(blended, xS.Rgb(), xD.Rgb(), xS.w, xD.w, op)
              .Add(PremultipliedSlopeByDestinationAlpha(blended, xS, xD, op).Scale(t))
  {
    var y, z := op.y as real, op.z as real;
    ChannelAffineInDestinationAlpha(blended.x, xS.x, xD.x, xS.w, xD.w, y, z, t);
    ChannelAffineInDestinationAlpha(blended.y, xS.y, xD.y, xS.w, xD.w, y, z, t);
    ChannelAffineInDestinationAlpha(blended.z, xS.z, xD.z, xS.w, xD.w, y, z, t);
  }

  lemma ChannelAffineInSourceColor(f: real, g: real, s: real, d: real, aS: real, aD: real, y: real, z: real, t: real)
    ensures (f + t * g) * aS * aD + y * aS * (1.0 - aD) * (s + t) + z * aD * (1.0 - aS) * d
         == f * aS * aD + y * aS * (1.0 - aD) * s + z * aD * (1.0 - aS) * d
            + t * (g * (aS * aD) + y * (1.0 - aD) * aS)
  {
    assert (f + t * g) * aS * aD == f * aS * aD + t * (g * (aS * aD));
    assert y * aS * (1.0 - aD) * (s + t) == y * aS * (1.0 - aD) * s + t * (y * (1.0 - aD) * aS);
  }

  lemma ChannelAffineInDestinationColor(f: real, g: real, s: real, d: real, aS: real, aD: real, y: real, z: real, t: real)
    ensures (f + t * g) * aS * aD + y * aS * (1.0 - aD) * s + z * aD * (1.0 - aS) * (d + t)
         == f * aS * aD + y * aS * (1.0 - aD) * s + z * aD * (1.0 - aS) * d
            + t * (g * (aS * aD) + z * (1.0 - aS) * aD)
  {
    assert (f + t * g) * aS * aD == f * aS * aD + t * (g * (aS * aD));
    assert z * aD * (1.0 - aS) * (d + t) == z * aD * (1.0 - aS) * d + t * (z * (1.0 - aS) * aD);
  }

  /**
    * One channel of dC/dc_s is the exact slope of the premultiplied channel
    * wherever the blend is affine along the step: if the blend moves from
    * f to f + t g when the source channel moves from s to s + t, the
    * premultiplied channel moves by t (a_s a_d g + Y (1 - a_d) a_s). For
    * Normal, Multiply, Screen and Exclusion the blend is affine in s with
    * g = BlendGradS (NormalSlopeS and the lemmas beside it).
    */
  lemma PremultipliedSlopeBySourceColorIsExact(f: real, g: real, s: real, d: real, aS: real, aD: real,
                                               op: CompOp, t: real)
    ensures PremultipliedChannel(f + t * g, s + t, d, aS, aD, op)
         == PremultipliedChannel(f, s, d, aS, aD, op) + t * (aS * aD * g + (op.y as real) * (1.0 - aD) * aS)
  {
    ChannelAffineInSourceColor(f, g, s, d, aS, aD, op.y as real, op.z as real, t);
  }

  /** The same for a step of the destination channel and dC/dc_d. */
  lemma PremultipliedSlopeByDestinationColorIsExact(f: real, g: real, s: real, d: real, aS: real, aD: real,
                                                    op: CompOp, t: real)
    ensures PremultipliedChannel(f + t * g, s, d + t, aS, aD, op)
         == PremultipliedChannel(f, s, d, aS, aD, op) + t * (aS * aD * g + (op.z as real) * (1.0 - aS) * aD)
  {
    ChannelAffineInDestinationColor(f, g, s, d, aS, aD, op.y as real, op.z as real, t);
  }

  // ---------------------------------------------------------------------
  // Two-layer derivatives
  // ---------------------------------------------------------------------

  /**
    * The zero pattern of every derivative here: the colour block is
    * diagonal (separable blending) and column 3 is zero in the colour rows
    * (the composite alpha does not depend on any colour).
    */
  predicate JacobianShape(j: Mat4)
  {
    j.r0.y == 0.0 && j.r0.z == 0.0 && j.r0.w == 0.0 &&
    j.r1.x == 0.0 && j.r1.z == 0.0 && j.r1.w == 0.0 &&
    j.r2.x == 0.0 && j.r2.y == 0.0 && j.r2.w == 0.0
  }

  /**
    * The quotient rule the derivative of the colour B = C / A obeys, with C
    * the premultiplied colour and A the composite alpha: A times each
    * diagonal entry is dC/dc, and A dB/da + B dA/da is dC/da.
    */
  predicate QuotientRuleHolds(j: Mat4, a: real, b: Vec3, dC: Vec3, dCa: Vec3)
  {
    a * j.r0.x == dC.x && a * j.r1.y == dC.y && a * j.r2.z == dC.z &&
    a * j.r3.x + b.x * j.r3.w == dCa.x &&
    a * j.r3.y + b.y * j.r3.w == dCa.y &&
    a * j.r3.z + b.z * j.r3.w == dCa.z
  }

  /**
    * The derivative for one layer from the composite alpha a, the composite
    * colour b, dC/dc, dC/da and dA/da: the diagonal is dC/dc / a, row 3 is
    * (dC/da - b dA/da) / a, entry (3, 3) is dA/da, every other entry zero.
    */
  function LayerDerivative(a: real, b: Vec3, dC: Vec3, dCa: Vec3, alphaSlope: real): (j: Mat4)
    requires a != 0.0
    ensures JacobianShape(j)
    ensures j.At(3, 3) == alphaSlope
    ensures QuotientRuleHolds(j, a, b, dC, dCa)
  {
    QuotientRule(a, dC, dCa, b, alphaSlope);
    var diagonal := dC.Div(a);
    var alphaRow := dCa.Sub(b.Scale(alphaSlope)).Div(a);
    Mat4(Vec4(diagonal.x, 0.0, 0.0, 0.0),
         Vec4(0.0, diagonal.y, 0.0, 0.0),
         Vec4(0.0, 0.0, diagonal.z, 0.0),
         Join(alphaRow, alphaSlope))
  }

  /**
    * calculate_derivative_of_composite_two_layers_by_source. With A the
    * composite alpha, B the composite colour and C the premultiplied
    * colour: the diagonal is dC/dc_s / A and row 3 is (dC/da_s - B dA/da_s) / A.
    */
  function DerivativeBySource(xS: Vec4, xD: Vec4, op: CompOp, mode: BlendMode): (j: Mat4)
    requires CompositeAlpha(op, xS.w, xD.w) != 0.0
    ensures JacobianShape(j)
    ensures j.At(3, 3) == AlphaSlopeBySource(xD.w, op)
    ensures var x := CompositeTwoLayersRgba(xS, xD, op, mode, false);
            QuotientRuleHolds(j, x.w, x.Rgb(), PremultipliedSlopeBySourceColor(xS, xD, op, mode),
                              PremultipliedSlopeBySourceAlpha(BlendVec3(xS.Rgb(), xD.Rgb(), mode, false), xS, xD, op))
  {
    var x := CompositeTwoLayersRgba(xS, xD, op, mode, false);
    LayerDerivative(x.w, x.Rgb(), PremultipliedSlopeBySourceColor(xS, xD, op, mode),
                    PremultipliedSlopeBySourceAlpha(BlendVec3(xS.Rgb(), xD.Rgb(), mode, false), xS, xD, op),
                    AlphaSlopeBySource(xD.w, op))
  }

  /** calculate_derivative_of_composite_two_layers_by_destination, the same with d in place of s. */
  function DerivativeByDestination(xS: Vec4, xD: Vec4, op: CompOp, mode: BlendMode): (j: Mat4)
    requires CompositeAlpha(op, xS.w, xD.w) != 0.0
    ensures JacobianShape(j)
    ensures j.At(3, 3) == AlphaSlopeByDestination(xS.w, op)
    ensures var x := CompositeTwoLayersRgba(xS, xD, op, mode, false);
            QuotientRuleHolds(j, x.w, x.Rgb(), PremultipliedSlopeByDestinationColor(xS, xD, op, mode),
                              PremultipliedSlopeByDestinationAlpha(BlendVec3(xS.Rgb(), xD.Rgb(), mode, false), xS, xD, op))
  {
    var x := CompositeTwoLayersRgba(xS, xD, op, mode, false);
    LayerDerivative(x.w, x.Rgb(), PremultipliedSlopeByDestinationColor(xS, xD, op, mode),
                    PremultipliedSlopeByDestinationAlpha(BlendVec3(xS.Rgb(), xD.Rgb(), mode, false), xS, xD, op),
                    AlphaSlopeByDestination(xS.w, op))
  }

  /** Dividing by a and multiplying back: the relations the derivatives promise. */
  lemma QuotientRule(a: real, dC: Vec3, dCa: Vec3, b: Vec3, alphaSlope: real)
    requires a != 0.0
    ensures a * dC.Div(a).x == dC.x && a * dC.Div(a).y == dC.y && a * dC.Div(a).z == dC.z
    ensures var r := dCa.Sub(b.Scale(alphaSlope)).Div(a);
            a * r.x + b.x * alphaSlope == dCa.x && a * r.y + b.y * alphaSlope == dCa.y &&
            a * r.z + b.z * alphaSlope == dCa.z
  {
    var r := dCa.Sub(b.Scale(alphaSlope));
    DivScale(dC, a);
    DivScale(r, a);
    assert dC.Div(a).Scale(a) == dC;
    assert r.Div(a).Scale(a) == r;
  }

  // ---------------------------------------------------------------------
  // The chained derivative over the stack
  // ---------------------------------------------------------------------

  /** The product of two matrices of the derivative shape has that shape; its alpha entry and diagonal multiply. */
  lemma ShapeMul(a: Mat4, b: Mat4)
    requires JacobianShape(a) && JacobianShape(b)
    ensures JacobianShape(a.Mul(b))
    ensures a.Mul(b).r3.w == Product(a.r3.w, b.r3.w)
    ensures a.Mul(b).r0.x == a.r0.x * b.r0.x && a.Mul(b).r1.y == a.r1.y * b.r1.y && a.Mul(b).r2.z == a.r2.z * b.r2.z
  {
  }

  /**
    * The composite after each of the layers max(i, 1) .. k has a nonzero
    * alpha: the divisions of the chained derivative are then defined.
    */
  predicate ChainAlphasNonzero(alphas: seq<real>, ops: seq<CompOp>, i: nat, k: nat)
    requires |ops| == |alphas| && k < |alphas|
  {
    forall n :: i < n <= k + 1 && 2 <= n ==> AlphaFold(CompositeAlpha, alphas, ops, n) != 0.0
  }

  /**
    * calculate_derivative_of_k_th_composited_rgba_by_i_th_layer_rgba: the
    * derivative of the composite of layers 0 .. k by the RGBA value of
    * layer i. The identity when i = k = 0; the derivative by the source
    * when i = k; otherwise the derivative for k - 1 times the derivative by
    * the destination. Layer k is composited over the composite of the
    * layers below it, computed from the stack truncated to k layers.
    */
  function KthJacobian(alphas: seq<real>, colors: seq<real>, ops: seq<CompOp>, modes: seq<BlendMode>,
                       i: nat, k: nat): (j: Mat4)
    requires WellFormedStack(alphas, colors, ops, modes) && i <= k < |alphas|
    requires ChainAlphasNonzero(alphas, ops, i, k)
    ensures JacobianShape(j)
    decreases k
  {
    if i == 0 && k == 0 then Identity4()
    else
      var xk := Join(LayerColor(colors, k), alphas[k]);
      var below := Below(alphas, colors, ops, modes, k);
      ChainAlphasNonzeroTop(alphas, ops, i, k);
      if i == k then DerivativeBySource(xk, below, ops[k], modes[k])
      else
        ChainAlphasNonzeroBelow(alphas, ops, i, k);
        var rest := KthJacobian(alphas, colors, ops, modes, i, k - 1);
        var step := DerivativeByDestination(xk, below, ops[k], modes[k]);
        ShapeMul(rest, step);
        rest.Mul(step)
  }

  /** The entry (3, 3) of KthJacobian is the chain-rule slope of the composite alpha by the alpha of layer i. */
  lemma {:induction false} KthJacobianAlphaSlope(alphas: seq<real>, colors: seq<real>, ops: seq<CompOp>,
                                                 modes: seq<BlendMode>, i: nat, k: nat)
    requires WellFormedStack(alphas, colors, ops, modes) && i <= k < |alphas|
    requires ChainAlphasNonzero(alphas, ops, i, k)
    ensures KthJacobian(alphas, colors, ops, modes, i, k).r3.w
         == StackSlope(CompositeAlpha, AlphaSlopeBySource, AlphaSlopeByDestination, alphas, ops, i, k)
    decreases k
  {
    if k > 0 {
      if i == k {
        SourceAlphaSlope(alphas, colors, ops, modes, k);
      } else {
        ChainAlphasNonzeroBelow(alphas, ops, i, k);
        KthJacobianAlphaSlope(alphas, colors, ops, modes, i, k - 1);
        AboveSourceAlphaSlope(alphas, colors, ops, modes, i, k);
      }
    }
  }

  /** KthJacobianAlphaSlope where layer k is the source layer itself. */
  lemma SourceAlphaSlope(alphas: seq<real>, colors: seq<real>, ops: seq<CompOp>, modes: seq<BlendMode>, k: nat)
    requires WellFormedStack(alphas, colors, ops, modes) && 0 < k < |alphas|
    requires ChainAlphasNonzero(alphas, ops, k, k)
    ensures KthJacobian(alphas, colors, ops, modes, k, k).r3.w
         == StackSlope(CompositeAlpha, AlphaSlopeBySource, AlphaSlopeByDestination, alphas, ops, k, k)
  {
    var xk := Join(LayerColor(colors, k), alphas[k]);
    var below := Below(alphas, colors, ops, modes, k);
    ChainAlphasNonzeroTop(alphas, ops, k, k);
    var j := DerivativeBySource(xk, below, ops[k], modes[k]);
    assert KthJacobian(alphas, colors, ops, modes, k, k) == j;
    CompositeSlopeAtSource(alphas, ops, k);
  }

  /** KthJacobianAlphaSlope one layer above the source, from the slope one layer lower. */
  lemma AboveSourceAlphaSlope(alphas: seq<real>, colors: seq<real>, ops: seq<CompOp>, modes: seq<BlendMode>, i: nat, k: nat)
    requires WellFormedStack(alphas, colors, ops, modes) && i < k < |alphas|
    requires ChainAlphasNonzero(alphas, ops, i, k) && ChainAlphasNonzero(alphas, ops, i, k - 1)
    requires KthJacobian(alphas, colors, ops, modes, i, k - 1).r3.w
          == StackSlope(CompositeAlpha, AlphaSlopeBySource, AlphaSlopeByDestination, alphas, ops, i, k - 1)
    ensures KthJacobian(alphas, colors, ops, modes, i, k).r3.w
         == StackSlope(CompositeAlpha, AlphaSlopeBySource, AlphaSlopeByDestination, alphas, ops, i, k)
  {
    var xk := Join(LayerColor(colors, k), alphas[k]);
    var below := Below(alphas, colors, ops, modes, k);
    ChainAlphasNonzeroTop(alphas, ops, i, k);
    var rest := KthJacobian(alphas, colors, ops, modes, i, k - 1);
    var step := DerivativeByDestination(xk, below, ops[k], modes[k]);
    ShapeMul(rest, step);
    assert KthJacobian(alphas, colors, ops, modes, i, k) == rest.Mul(step);
    CompositeSlopeAboveSource(alphas, ops, i, k);
  }

  /** The alpha of layers 0 .. k is nonzero when k >= 1 and the chain's alphas are. */
  lemma ChainAlphasNonzeroTop(alphas: seq<real>, ops: seq<CompOp>, i: nat, k: nat)
    requires |ops| == |alphas| && i <= k < |alphas| && 1 <= k
    requires ChainAlphasNonzero(alphas, ops, i, k)
    ensures AlphaFold(CompositeAlpha, alphas, ops, k + 1) != 0.0
  {
  }

  /** The chain below layer k keeps nonzero alphas. */
  lemma ChainAlphasNonzeroBelow(alphas: seq<real>, ops: seq<CompOp>, i: nat, k: nat)
    requires |ops| == |alphas| && i < k < |alphas|
    requires ChainAlphasNonzero(alphas, ops, i, k)
    ensures ChainAlphasNonzero(alphas, ops, i, k - 1)
  {
  }

  lemma CompositeSlopeAtSource(alphas: seq<real>, ops: seq<CompOp>, k: nat)
    requires |ops| == |alphas| && 1 <= k < |alphas|
    ensures StackSlope(CompositeAlpha, AlphaSlopeBySource, AlphaSlopeByDestination, alphas, ops, k, k)
         == AlphaSlopeBySource(AlphaFold(CompositeAlpha, alphas, ops, k), ops[k])
  {
  }

  lemma CompositeSlopeAboveSource(alphas: seq<real>, ops: seq<CompOp>, i: nat, k: nat)
    requires |ops| == |alphas| && i < k < |alphas|
    ensures StackSlope(CompositeAlpha, AlphaSlopeBySource, AlphaSlopeByDestination, alphas, ops, i, k)
         == Product(StackSlope(CompositeAlpha, AlphaSlopeBySource, AlphaSlopeByDestination, alphas, ops, i, k - 1),
                    AlphaSlopeByDestination(alphas[k], ops[k]))
  {
  }

  /**
    * The composite of the layers below layer k, from the stack truncated to
    * k layers; compositing layer k over it gives the alpha of k + 1 layers.
    */
  function Below(alphas: seq<real>, colors: seq<real>, ops: seq<CompOp>, modes: seq<BlendMode>, k: nat): (below: Vec4)
    requires WellFormedStack(alphas, colors, ops, modes) && 1 <= k < |alphas|
    ensures below.w == AlphaFold(CompositeAlpha, alphas, ops, k)
    ensures CompositeAlpha(ops[k], alphas[k], below.w) == AlphaFold(CompositeAlpha, alphas, ops, k + 1)
  {
    CompositePrefixTruncate(alphas, colors, ops, modes, false, k, k);
    CompositePrefixAlpha(alphas, colors, ops, modes, k);
    CompositePrefix(alphas[..k], colors[..3 * k], ops[..k], modes[..k], false, k)
  }

  /** over has slope sS in its source alpha, whatever the other arguments. */
  ghost predicate SlopeBySourceIsExact(over: (CompOp, real, real) -> real, sS: (real, CompOp) -> real)
  {
    forall op, a, a2, b {:trigger over(op, a2, b), over(op, a, b)} :: over(op, a2, b) == over(op, a, b) + Product(a2 - a, sS(b, op))
  }

  /** over has slope sD in its destination alpha, whatever the other arguments. */
  ghost predicate SlopeByDestinationIsExact(over: (CompOp, real, real) -> real, sD: (real, CompOp) -> real)
  {
    forall op, a, b, b2 {:trigger over(op, a, b2), over(op, a, b)} :: over(op, a, b2) == over(op, a, b) + Product(b2 - b, sD(a, op))
  }

  /**
    * The chain rule down a stack folded with over: the slope of the alpha
    * of layers 0 .. k by the alpha of layer i is the source slope of layer
    * i's own step, times the destination slope of each step above it.
    */
  function StackSlope(over: (CompOp, real, real) -> real, sS: (real, CompOp) -> real, sD: (real, CompOp) -> real,
                      alphas: seq<real>, ops: seq<CompOp>, i: nat, k: nat): real
    requires |ops| == |alphas| && i <= k < |alphas|
    decreases k
  {
    if i == k then (if k == 0 then 1.0 else sS(AlphaFold(over, alphas, ops, k), ops[k]))
    else Product(StackSlope(over, sS, sD, alphas, ops, i, k - 1), sD(alphas[k], ops[k]))
  }

  /** When every step is affine in both alphas, the folded alpha is affine in each layer's alpha, with StackSlope as slope. */
  lemma {:induction false} StackSlopeIsExact(over: (CompOp, real, real) -> real, sS: (real, CompOp) -> real,
                                             sD: (real, CompOp) -> real, alphas: seq<real>, ops: seq<CompOp>,
                                             i: nat, k: nat, t: real)
    requires |ops| == |alphas| && i <= k < |alphas|
    requires SlopeBySourceIsExact(over, sS) && SlopeByDestinationIsExact(over, sD)
    ensures AlphaFold(over, alphas[i := alphas[i] + t], ops, k + 1)
         == AlphaFold(over, alphas, ops, k + 1) + Product(t, StackSlope(over, sS, sD, alphas, ops, i, k))
    decreases k
  {
    var moved := alphas[i := alphas[i] + t];
    if k > 0 {
      var below, belowMoved := AlphaFold(over, alphas, ops, k), AlphaFold(over, moved, ops, k);
      if i == k {
        assert moved[..k] == alphas[..k];
        AlphaFoldIgnoresUpperAlphas(over, alphas, moved, ops, k);
        assert over(ops[k], alphas[k] + t, below) == over(ops[k], alphas[k], below) + Product(t, sS(below, ops[k]));
      } else {
        StackSlopeIsExact(over, sS, sD, alphas, ops, i, k - 1, t);
        var rest := StackSlope(over, sS, sD, alphas, ops, i, k - 1);
        assert moved[k] == alphas[k];
        assert over(ops[k], alphas[k], belowMoved)
            == over(ops[k], alphas[k], below) + Product(belowMoved - below, sD(alphas[k], ops[k]));
        ProductAssociates(t, rest, sD(alphas[k], ops[k]));
      }
    }
  }

  /** The composite alpha has AlphaSlopeBySource and AlphaSlopeByDestination as its exact slopes. */
  lemma CompositeAlphaSlopesAreExact()
    ensures SlopeBySourceIsExact(CompositeAlpha, AlphaSlopeBySource)
    ensures SlopeByDestinationIsExact(CompositeAlpha, AlphaSlopeByDestination)
  {
    forall op, a, a2, b
      ensures CompositeAlpha(op, a2, b) == CompositeAlpha(op, a, b) + Product(a2 - a, AlphaSlopeBySource(b, op))
    {
      AlphaSlopeBySourceIsExact(op, a, b, a2 - a);
      assert a + (a2 - a) == a2;
    }
    forall op, a, b, b2
      ensures CompositeAlpha(op, a, b2) == CompositeAlpha(op, a, b) + Product(b2 - b, AlphaSlopeByDestination(a, op))
    {
      AlphaSlopeByDestinationIsExact(op, a, b, b2 - b);
      assert b + (b2 - b) == b2;
    }
  }

  /** The final composite alpha is affine in the alpha of layer i, with StackSlope as its slope. */
  lemma ChainAlphaSlopeIsExact(alphas: seq<real>, ops: seq<CompOp>, i: nat, k: nat, t: real)
    requires |ops| == |alphas| && i <= k < |alphas|
    ensures AlphaFold(CompositeAlpha, alphas[i := alphas[i] + t], ops, k + 1)
         == AlphaFold(CompositeAlpha, alphas, ops, k + 1)
            + Product(t, StackSlope(CompositeAlpha, AlphaSlopeBySource, AlphaSlopeByDestination, alphas, ops, i, k))
  {
    CompositeAlphaSlopesAreExact();
    StackSlopeIsExact(CompositeAlpha, AlphaSlopeBySource, AlphaSlopeByDestination, alphas, ops, i, k, t);
  }

  /** The same for the composite itself: its alpha moves by t times KthJacobian's entry (3, 3). */
  lemma KthJacobianAlphaIsExact(alphas: seq<real>, colors: seq<real>, ops: seq<CompOp>,
                                modes: seq<BlendMode>, i: nat, k: nat, t: real)
    requires WellFormedStack(alphas, colors, ops, modes) && i <= k < |alphas|
    requires ChainAlphasNonzero(alphas, ops, i, k)
    ensures CompositePrefix(alphas[i := alphas[i] + t], colors, ops, modes, false, k + 1).w
         == CompositePrefix(alphas, colors, ops, modes, false, k + 1).w
            + Product(t, KthJacobian(alphas, colors, ops, modes, i, k).r3.w)
  {
    var moved := alphas[i := alphas[i] + t];
    var slope := StackSlope(CompositeAlpha, AlphaSlopeBySource, AlphaSlopeByDestination, alphas, ops, i, k);
    assert CompositePrefix(moved, colors, ops, modes, false, k + 1).w == AlphaFold(CompositeAlpha, moved, ops, k + 1) by {
      CompositePrefixAlpha(moved, colors, ops, modes, k + 1);
    }
    assert CompositePrefix(alphas, colors, ops, modes, false, k + 1).w == AlphaFold(CompositeAlpha, alphas, ops, k + 1) by {
      CompositePrefixAlpha(alphas, colors, ops, modes, k + 1);
    }
    assert AlphaFold(CompositeAlpha, moved, ops, k + 1) == AlphaFold(CompositeAlpha, alphas, ops, k + 1) + Product(t, slope) by {
      ChainAlphaSlopeIsExact(alphas, ops, i, k, t);
    }
    assert Product(t, slope) == Product(t, KthJacobian(alphas, colors, ops, modes, i, k).r3.w) by {
      KthJacobianAlphaSlope(alphas, colors, ops, modes, i, k);
    }
  }

  lemma ProductAssociates(a: real, b: real, c: real)
    ensures Product(Product(a, b), c) == Product(a, Product(b, c))
  {
  }
}
