/**
  * Per-pixel compositing of equations.cpp: the generalised Porter-Duff
  * composite of a source layer over a destination layer, weighted by the
  * CompOp integers X, Y, Z, and the fold of a whole layer stack from the
  * background (layer 0) upwards.
  *
  * A stack of N layers is stored as in the source: alphas is a vector of N
  * reals, colors a vector of 3N reals in which layer i owns entries
  * 3i, 3i + 1, 3i + 2.
  */
module Compositing {
  import opened LinearAlgebra
  import opened Common
  import opened CompOps
  import opened BlendModes

  /** Composite alphas at or below this value are not divided by (1e-12). */
  const AlphaEpsilon: real := 0.000000000001

  /** X a_s a_d + Y a_s (1 - a_d) + Z a_d (1 - a_s) */
  function CompositeAlpha(op: CompOp, aS: real, aD: real): real
  {
    (op.x as real) * aS * aD + (op.y as real) * aS * (1.0 - aD) + (op.z as real) * aD * (1.0 - aS)
  }

  /**
    * One channel of the premultiplied composite colour: the blended value f
    * where both layers are present (not weighted by X), the source channel s
    * where only the source is, and the destination channel d where only the
    * destination is.
    */
  function PremultipliedChannel(f: real, s: real, d: real, aS: real, aD: real, op: CompOp): real
  {
    f * aS * aD + (op.y as real) * aS * (1.0 - aD) * s + (op.z as real) * aD * (1.0 - aS) * d
  }

  /** c_pre for a given blended colour f, channel by channel. */
  function PremultipliedOf(f: Vec3, cS: Vec3, cD: Vec3, aS: real, aD: real, op: CompOp): (r: Vec3)
    ensures forall i :: 0 <= i < 3 ==> r.At(i) == PremultipliedChannel(f.At(i), cS.At(i), cD.At(i), aS, aD, op)
  {
    Vec3(PremultipliedChannel(f.x, cS.x, cD.x, aS, aD, op),
         PremultipliedChannel(f.y, cS.y, cD.y, aS, aD, op),
         PremultipliedChannel(f.z, cS.z, cD.z, aS, aD, op))
  }

  /** c_pre; the blend is evaluated with crop = false, the default of blend. */
  function Premultiplied(cS: Vec3, cD: Vec3, aS: real, aD: real, op: CompOp, mode: BlendMode): (r: Vec3)
    ensures forall i :: 0 <= i < 3 ==>
      r.At(i) == PremultipliedChannel(Blend(cS.At(i), cD.At(i), mode, false), cS.At(i), cD.At(i), aS, aD, op)
  {
    PremultipliedOf(BlendVec3(cS, cD, mode, false), cS, cD, aS, aD, op)
  }

  /**
    * composite_two_layers: the composite RGBA value. The colour is the
    * premultiplied colour divided by the composite alpha when that alpha
    * exceeds AlphaEpsilon, and the premultiplied colour itself otherwise;
    * with crop every channel is then clamped into [0, 1].
    */
  function CompositeTwoLayers(cS: Vec3, cD: Vec3, aS: real, aD: real, op: CompOp, mode: BlendMode, crop: bool): (r: Vec4)
    ensures crop ==> InUnitCube4(r)
    ensures r.w == if crop then CropValue(CompositeAlpha(op, aS, aD)) else CompositeAlpha(op, aS, aD)
  {
    var a := CompositeAlpha(op, aS, aD);
    var pre := Premultiplied(cS, cD, aS, aD, op, mode);
    var c := if a > AlphaEpsilon then pre.Div(a) else pre;
    if crop then CropVec4(Join(c, a)) else Join(c, a)
  }

  /**
    * The Vec4 overload: colour in x, y, z and alpha in w of each argument.
    * Its alpha is the composite alpha of the two w channels; without crop its
    * colour times that alpha is the premultiplied colour when the alpha
    * exceeds AlphaEpsilon, and is the premultiplied colour itself otherwise.
    */
  function CompositeTwoLayersRgba(s: Vec4, d: Vec4, op: CompOp, mode: BlendMode, crop: bool): (r: Vec4)
    ensures crop ==> InUnitCube4(r)
    ensures r.w == if crop then CropValue(CompositeAlpha(op, s.w, d.w)) else CompositeAlpha(op, s.w, d.w)
    ensures !crop && CompositeAlpha(op, s.w, d.w) > AlphaEpsilon ==>
      r.Rgb().Scale(CompositeAlpha(op, s.w, d.w)) == Premultiplied(s.Rgb(), d.Rgb(), s.w, d.w, op, mode)
    ensures !crop && CompositeAlpha(op, s.w, d.w) <= AlphaEpsilon ==>
      r.Rgb() == Premultiplied(s.Rgb(), d.Rgb(), s.w, d.w, op, mode)
  {
    if CompositeAlpha(op, s.w, d.w) > AlphaEpsilon then
      CompositeUnpremultiplies(s.Rgb(), d.Rgb(), s.w, d.w, op, mode);
      CompositeTwoLayers(s.Rgb(), d.Rgb(), s.w, d.w, op, mode, crop)
    else
      CompositeSmallAlpha(s.Rgb(), d.Rgb(), s.w, d.w, op, mode);
      CompositeTwoLayers(s.Rgb(), d.Rgb(), s.w, d.w, op, mode, crop)
  }

  // ---------------------------------------------------------------------
  // Two-layer facts
  // ---------------------------------------------------------------------

  /** Above the threshold the un-cropped colour times the alpha gives back the premultiplied colour. */
  lemma CompositeUnpremultiplies(cS: Vec3, cD: Vec3, aS: real, aD: real, op: CompOp, mode: BlendMode)
    requires CompositeAlpha(op, aS, aD) > AlphaEpsilon
    ensures CompositeTwoLayers(cS, cD, aS, aD, op, mode, false).Rgb().Scale(CompositeAlpha(op, aS, aD))
         == Premultiplied(cS, cD, aS, aD, op, mode)
  {
    var a := CompositeAlpha(op, aS, aD);
    var pre := Premultiplied(cS, cD, aS, aD, op, mode);
    DivScale(pre, a);
  }

  lemma DivScale(v: Vec3, a: real)
    requires a != 0.0
    ensures v.Div(a).Scale(a) == v
  {
    var x, y, z := v.x, v.y, v.z;
    assert a * (x / a) == x;
    assert a * (y / a) == y;
    assert a * (z / a) == z;
  }

  /** At or below the threshold the un-cropped colour is the premultiplied colour, undivided. */
  lemma CompositeSmallAlpha(cS: Vec3, cD: Vec3, aS: real, aD: real, op: CompOp, mode: BlendMode)
    requires CompositeAlpha(op, aS, aD) <= AlphaEpsilon
    ensures CompositeTwoLayers(cS, cD, aS, aD, op, mode, false).Rgb() == Premultiplied(cS, cD, aS, aD, op, mode)
  {
  }

  /** Source-over: the alpha is a_s + a_d (1 - a_s), stays in [0, 1], and is 1 over an opaque destination. */
  lemma OverAlpha(aS: real, aD: real)
    ensures CompositeAlpha(SourceOver(), aS, aD) == aS + aD * (1.0 - aS)
    ensures 0.0 <= aS <= 1.0 && 0.0 <= aD <= 1.0 ==> 0.0 <= CompositeAlpha(SourceOver(), aS, aD) <= 1.0
    ensures aD == 1.0 ==> CompositeAlpha(SourceOver(), aS, aD) == 1.0
  {
    var a := CompositeAlpha(SourceOver(), aS, aD);
    assert a == 1.0 * aS * aD + 1.0 * aS * (1.0 - aD) + 1.0 * aD * (1.0 - aS);
    assert aS * aD + aS * (1.0 - aD) == aS;
    if 0.0 <= aS <= 1.0 && 0.0 <= aD <= 1.0 {
      var rest := 1.0 - aS;
      MulUnitInterval(aD, rest);
      assert a == aS + aD * rest;
    }
  }

  /** Plus: the alpha is a_s + a_d. */
  lemma PlusAlpha(aS: real, aD: real)
    ensures CompositeAlpha(Plus(), aS, aD) == aS + aD
  {
    var a := CompositeAlpha(Plus(), aS, aD);
    assert a == 2.0 * aS * aD + 1.0 * aS * (1.0 - aD) + 1.0 * aD * (1.0 - aS);
    assert aS * (1.0 - aD) == aS - aS * aD;
    assert aD * (1.0 - aS) == aD - aS * aD;
  }

  /** Source-over in Normal mode over an opaque destination: a_s c_s + (1 - a_s) c_d. */
  lemma OverNormalOpaqueDestination(cS: Vec3, cD: Vec3, aS: real)
    ensures CompositeTwoLayers(cS, cD, aS, 1.0, SourceOver(), Normal, false).Rgb()
         == cS.Scale(aS).Add(cD.Scale(1.0 - aS))
  {
    OverAlpha(aS, 1.0);
    var pre := Premultiplied(cS, cD, aS, 1.0, SourceOver(), Normal);
    assert pre.Div(1.0) == pre;
    OverNormalPremultiplied(cS, cD, aS);
  }

  lemma OverNormalPremultiplied(cS: Vec3, cD: Vec3, aS: real)
    ensures Premultiplied(cS, cD, aS, 1.0, SourceOver(), Normal) == cS.Scale(aS).Add(cD.Scale(1.0 - aS))
  {
    NormalBlendVec3(cS, cD);
    OverOfSource(cS, cD, aS);
  }

  /** Source-over on an opaque destination with the source colour as the blended colour. */
  lemma OverOfSource(cS: Vec3, cD: Vec3, aS: real)
    ensures PremultipliedOf(cS, cS, cD, aS, 1.0, SourceOver()) == cS.Scale(aS).Add(cD.Scale(1.0 - aS))
  {
    var p := PremultipliedOf(cS, cS, cD, aS, 1.0, SourceOver());
    var q := cS.Scale(aS).Add(cD.Scale(1.0 - aS));
    assert p.x == q.x by { OverNormalChannel(cS.x, cD.x, aS); }
    assert p.y == q.y by { OverNormalChannel(cS.y, cD.y, aS); }
    assert p.z == q.z by { OverNormalChannel(cS.z, cD.z, aS); }
  }

  /** The Normal blend of two colours is the source colour. */
  lemma NormalBlendVec3(cS: Vec3, cD: Vec3)
    ensures BlendVec3(cS, cD, Normal, false) == cS
  {
  }

  lemma OverNormalChannel(s: real, d: real, aS: real)
    ensures PremultipliedChannel(s, s, d, aS, 1.0, SourceOver()) == aS * s + (1.0 - aS) * d
  {
  }

  // ---------------------------------------------------------------------
  // The layer stack
  // ---------------------------------------------------------------------

  /** colors.segment<3>(3 i) */
  function LayerColor(colors: seq<real>, i: nat): (c: Vec3)
    requires 3 * i + 3 <= |colors|
    ensures c.ToSeq() == colors[3 * i .. 3 * i + 3]
  {
    Vec3(colors[3 * i], colors[3 * i + 1], colors[3 * i + 2])
  }

  /** The sizes composite_layers asserts: one op and one mode per layer, three colour entries per layer, a background. */
  predicate WellFormedStack(alphas: seq<real>, colors: seq<real>, ops: seq<CompOp>, modes: seq<BlendMode>)
  {
    1 <= |alphas| && |colors| == 3 * |alphas| && |ops| == |alphas| && |modes| == |alphas|
  }

  /**
    * The RGBA value of layers 0 .. n - 1 composited: layer 0 as it is, then
    * each further layer as the source over the accumulated destination.
    */
  function CompositePrefix(alphas: seq<real>, colors: seq<real>, ops: seq<CompOp>, modes: seq<BlendMode>,
                           crop: bool, n: nat): Vec4
    requires WellFormedStack(alphas, colors, ops, modes)
    requires 1 <= n <= |alphas|
    decreases n
  {
    if n == 1 then Join(LayerColor(colors, 0), alphas[0])
    else
      var acc := CompositePrefix(alphas, colors, ops, modes, crop, n - 1);
      CompositeTwoLayers(LayerColor(colors, n - 1), acc.Rgb(), alphas[n - 1], acc.w, ops[n - 1], modes[n - 1], crop)
  }

  /** composite_layers (default build): the fold above over the whole stack. */
  method CompositeLayers(alphas: seq<real>, colors: seq<real>, ops: seq<CompOp>, modes: seq<BlendMode>, crop: bool)
    returns (r: Vec4)
    requires WellFormedStack(alphas, colors, ops, modes)
    ensures r == CompositePrefix(alphas, colors, ops, modes, crop, |alphas|)
    ensures |alphas| == 1 ==> r == Join(LayerColor(colors, 0), alphas[0])
  {
    var color := LayerColor(colors, 0);
    var alpha := alphas[0];
    var index := 1;
    while index < |alphas|
      invariant 1 <= index <= |alphas|
      invariant color == CompositePrefix(alphas, colors, ops, modes, crop, index).Rgb()
      invariant alpha == CompositePrefix(alphas, colors, ops, modes, crop, index).w
    {
      CompositePrefixStep(alphas, colors, ops, modes, crop, index);
      var x := CompositeTwoLayers(LayerColor(colors, index), color, alphas[index], alpha,
                                  ops[index], modes[index], crop);
      color := x.Rgb();
      alpha := x.w;
      index := index + 1;
    }
    r := Join(color, alpha);
  }

  /** One more layer: layer n over the composite of layers 0 .. n - 1. */
  lemma CompositePrefixStep(alphas: seq<real>, colors: seq<real>, ops: seq<CompOp>, modes: seq<BlendMode>,
                            crop: bool, n: nat)
    requires WellFormedStack(alphas, colors, ops, modes) && 1 <= n < |alphas|
    ensures CompositePrefix(alphas, colors, ops, modes, crop, n + 1)
         == CompositeTwoLayers(LayerColor(colors, n), CompositePrefix(alphas, colors, ops, modes, crop, n).Rgb(),
                               alphas[n], CompositePrefix(alphas, colors, ops, modes, crop, n).w, ops[n], modes[n], crop)
  {
  }

  /** Every layer above the background is composited with source-over. */
  predicate AllSourceOver(ops: seq<CompOp>)
  {
    forall i :: 1 <= i < |ops| ==> ops[i] == SourceOver()
  }

  predicate AllPlus(ops: seq<CompOp>)
  {
    forall i :: 1 <= i < |ops| ==> ops[i] == Plus()
  }

  predicate AlphasInUnit(alphas: seq<real>)
  {
    forall i :: 0 <= i < |alphas| ==> 0.0 <= alphas[i] <= 1.0
  }

  /** A source-over stack on an opaque background stays opaque, whatever the upper alphas. */
  lemma {:induction false} AllOverOpaque(alphas: seq<real>, colors: seq<real>, ops: seq<CompOp>,
                                         modes: seq<BlendMode>, crop: bool, n: nat)
    requires WellFormedStack(alphas, colors, ops, modes) && 1 <= n <= |alphas|
    requires AllSourceOver(ops) && alphas[0] == 1.0
    ensures CompositePrefix(alphas, colors, ops, modes, crop, n).w == 1.0
  {
    if n > 1 {
      AllOverOpaque(alphas, colors, ops, modes, crop, n - 1);
      OverAlpha(alphas[n - 1], 1.0);
    }
  }

  /** A source-over stack whose every alpha is zero composites to alpha zero. */
  lemma {:induction false} AllOverClear(alphas: seq<real>, colors: seq<real>, ops: seq<CompOp>,
                                        modes: seq<BlendMode>, crop: bool, n: nat)
    requires WellFormedStack(alphas, colors, ops, modes) && 1 <= n <= |alphas|
    requires AllSourceOver(ops) && forall i :: 0 <= i < |alphas| ==> alphas[i] == 0.0
    ensures CompositePrefix(alphas, colors, ops, modes, crop, n).w == 0.0
  {
    if n > 1 {
      var acc := CompositePrefix(alphas, colors, ops, modes, crop, n - 1);
      AllOverClear(alphas, colors, ops, modes, crop, n - 1);
      OverAlpha(alphas[n - 1], acc.w);
    }
  }

  /** A source-over stack of alphas in [0, 1] has a composite alpha in [0, 1]. */
  lemma {:induction false} AllOverAlphaInUnit(alphas: seq<real>, colors: seq<real>, ops: seq<CompOp>,
                                              modes: seq<BlendMode>, crop: bool, n: nat)
    requires WellFormedStack(alphas, colors, ops, modes) && 1 <= n <= |alphas|
    requires AllSourceOver(ops) && AlphasInUnit(alphas)
    ensures 0.0 <= CompositePrefix(alphas, colors, ops, modes, crop, n).w <= 1.0
  {
    if n > 1 {
      var acc := CompositePrefix(alphas, colors, ops, modes, crop, n - 1);
      AllOverAlphaInUnit(alphas, colors, ops, modes, crop, n - 1);
      OverAlpha(alphas[n - 1], acc.w);
    }
  }

  /** An un-cropped plus stack accumulates the sum of the layer alphas. */
  lemma {:induction false} AllPlusSum(alphas: seq<real>, colors: seq<real>, ops: seq<CompOp>,
                                      modes: seq<BlendMode>, n: nat)
    requires WellFormedStack(alphas, colors, ops, modes) && 1 <= n <= |alphas|
    requires AllPlus(ops)
    ensures CompositePrefix(alphas, colors, ops, modes, false, n).w == Sum(alphas[..n])
  {
    if n == 1 {
      assert alphas[..1][..0] == [];
    } else {
      var acc := CompositePrefix(alphas, colors, ops, modes, false, n - 1);
      AllPlusSum(alphas, colors, ops, modes, n - 1);
      PlusAlpha(alphas[n - 1], acc.w);
      assert alphas[..n][..n - 1] == alphas[..n - 1];
    }
  }

  /** The first n layers determine the composite of the first n layers: composite_layers over a truncated stack agrees. */
  lemma {:induction false} CompositePrefixTruncate(alphas: seq<real>, colors: seq<real>, ops: seq<CompOp>,
                                                   modes: seq<BlendMode>, crop: bool, m: nat, n: nat)
    requires WellFormedStack(alphas, colors, ops, modes) && 1 <= n <= m <= |alphas|
    ensures WellFormedStack(alphas[..m], colors[..3 * m], ops[..m], modes[..m])
    ensures CompositePrefix(alphas[..m], colors[..3 * m], ops[..m], modes[..m], crop, n)
         == CompositePrefix(alphas, colors, ops, modes, crop, n)
  {
    if n > 1 {
      CompositePrefixTruncate(alphas, colors, ops, modes, crop, m, n - 1);
    }
    assert LayerColor(colors[..3 * m], n - 1) == LayerColor(colors, n - 1);
  }

  /**
    * The alpha of layers 0 .. n - 1 stacked with a per-layer rule
    * over(op, source alpha, destination alpha): layer 0 as it is, then each
    * further layer over the accumulated alpha.
    */
  function AlphaFold(over: (CompOp, real, real) -> real, alphas: seq<real>, ops: seq<CompOp>, n: nat): real
    requires |ops| == |alphas| && 1 <= n <= |alphas|
    decreases n
  {
    if n == 1 then alphas[0] else over(ops[n - 1], alphas[n - 1], AlphaFold(over, alphas, ops, n - 1))
  }

  /** The composite alpha depends on the alphas and operations only: not on the colours, not on the modes. */
  lemma {:induction false} CompositePrefixAlpha(alphas: seq<real>, colors: seq<real>, ops: seq<CompOp>,
                                                modes: seq<BlendMode>, n: nat)
    requires WellFormedStack(alphas, colors, ops, modes) && 1 <= n <= |alphas|
    ensures CompositePrefix(alphas, colors, ops, modes, false, n).w == AlphaFold(CompositeAlpha, alphas, ops, n)
  {
    if n > 1 {
      CompositePrefixAlpha(alphas, colors, ops, modes, n - 1);
    }
  }

  /** Changing alphas at or above position n leaves the alpha of the first n layers alone. */
  lemma {:induction false} AlphaFoldIgnoresUpperAlphas(over: (CompOp, real, real) -> real, alphas: seq<real>,
                                                       alphas2: seq<real>, ops: seq<CompOp>, n: nat)
    requires |ops| == |alphas| == |alphas2| && 1 <= n <= |alphas|
    requires alphas2[..n] == alphas[..n]
    ensures AlphaFold(over, alphas2, ops, n) == AlphaFold(over, alphas, ops, n)
  {
    assert alphas2[n - 1] == alphas2[..n][n - 1];
    if n > 1 {
      assert alphas2[..n - 1] == alphas2[..n][..n - 1];
      assert alphas[..n - 1] == alphas[..n][..n - 1];
      AlphaFoldIgnoresUpperAlphas(over, alphas, alphas2, ops, n - 1);
    }
  }
}
