/**
  * The terms of the per-pixel augmented Lagrangian of equations.cpp: the
  * Lagrange and penalty terms of a constraint vector, the unmixing energy
  * (each layer's alpha times the colour model's distance of its colour),
  * its gradient, and the constraint vector itself (composited colour minus
  * the pixel colour, then the alpha constraints).
  *
  * The unknown vector x of a pixel holds the N alphas first and then the
  * 3N colour channels.
  */
module ConstraintEnergy {
  import opened LinearAlgebra
  import opened CompOps
  import opened BlendModes
  import opened ColorModels
  import opened Compositing

  // ---------------------------------------------------------------------
  // Lagrange and penalty terms
  // ---------------------------------------------------------------------

  /** calculate_lagrange_term: -lambda^T g */
  function LagrangeTerm(g: seq<real>, lambda: seq<real>): real
    requires |g| == |lambda|
  {
    -Dot(lambda, g)
  }

  /** The Lagrange term vanishes on a satisfied constraint and for zero multipliers. */
  lemma LagrangeVanishes(g: seq<real>, lambda: seq<real>)
    requires |g| == |lambda|
    ensures (forall i :: 0 <= i < |g| ==> g[i] == 0.0) ==> LagrangeTerm(g, lambda) == 0.0
    ensures (forall i :: 0 <= i < |lambda| ==> lambda[i] == 0.0) ==> LagrangeTerm(g, lambda) == 0.0
  {
    if forall i :: 0 <= i < |g| ==> g[i] == 0.0 {
      DotZeroRight(lambda, g);
    }
    if forall i :: 0 <= i < |lambda| ==> lambda[i] == 0.0 {
      DotZeroLeft(lambda, g);
    }
  }

  /** calculate_penalty_term: rho / 2 times the squared norm of g. */
  function PenaltyTerm(g: seq<real>, rho: real): real
  {
    0.5 * rho * SquaredNorm(g)
  }

  /** With a nonnegative weight the penalty is nonnegative; with a positive one it vanishes exactly on a satisfied constraint. */
  lemma PenaltyNonnegative(g: seq<real>, rho: real)
    requires 0.0 <= rho
    ensures 0.0 <= PenaltyTerm(g, rho)
    ensures 0.0 < rho ==> (PenaltyTerm(g, rho) == 0.0 <==> forall i :: 0 <= i < |g| ==> g[i] == 0.0)
  {
    var n := SquaredNorm(g);
    SquaredNormNonnegative(g);
    SquaredNormZeroIff(g);
    MulNonnegative(0.5 * rho, n);
    if 0.0 < rho && 0.0 < n {
      ProductPositive(0.5 * rho, n);
    }
  }

  // ---------------------------------------------------------------------
  // The unmixing energy
  // ---------------------------------------------------------------------

  /** The weight of the minimum-alpha term. */
  const MinimumAlphaWeight: real := 0.01

  /** One alpha, three colour channels and one colour model per layer. */
  predicate LayerData(alphas: seq<real>, colors: seq<real>, models: seq<ColorModel>)
  {
    |colors| == 3 * |alphas| && |models| == |alphas|
  }

  /** The cost of each layer's colour under its colour model. */
  function LayerDistances(colors: seq<real>, models: seq<ColorModel>): (dists: seq<real>)
    requires |colors| == 3 * |models|
    ensures |dists| == |models|
  {
    seq(|models|, i requires 0 <= i < |models| => Distance(models[i], LayerColor(colors, i)))
  }

  /** The gradient of each layer's cost by its colour. */
  function LayerDistanceGradients(colors: seq<real>, models: seq<ColorModel>): (grads: seq<Vec3>)
    requires |colors| == 3 * |models|
    ensures |grads| == |models|
  {
    seq(|models|, i requires 0 <= i < |models| => DistanceGradient(models[i], LayerColor(colors, i)))
  }

  /**
    * The energy from the layer costs: the sum of alpha_i times the cost of
    * layer i, plus 0.01 times the alpha sum when the minimum-alpha term is
    * on. The sparsity term is off in the default build.
    */
  function Energy(alphas: seq<real>, dists: seq<real>, useMinimumAlpha: bool): real
    requires |dists| == |alphas|
  {
    Dot(alphas, dists) + (if useMinimumAlpha then MinimumAlphaWeight * Sum(alphas) else 0.0)
  }

  /** calculate_unmixing_energy_term: the energy of the layer colours under their colour models. */
  function UnmixingEnergy(alphas: seq<real>, colors: seq<real>, models: seq<ColorModel>, useMinimumAlpha: bool): real
    requires LayerData(alphas, colors, models)
  {
    Energy(alphas, LayerDistances(colors, models), useMinimumAlpha)
  }

  method CalculateUnmixingEnergy(alphas: seq<real>, colors: seq<real>, models: seq<ColorModel>, useMinimumAlpha: bool)
    returns (energy: real)
    requires LayerData(alphas, colors, models)
    ensures energy == UnmixingEnergy(alphas, colors, models, useMinimumAlpha)
  {
    ghost var dists := LayerDistances(colors, models);
    energy := 0.0;
    for index := 0 to |alphas|
      invariant energy == Dot(alphas[..index], dists[..index])
    {
      assert alphas[..index + 1][..index] == alphas[..index];
      assert dists[..index + 1][..index] == dists[..index];
      energy := energy + alphas[index] * Distance(models[index], LayerColor(colors, index));
    }
    assert alphas[..|alphas|] == alphas && dists[..|alphas|] == dists;
    if useMinimumAlpha {
      energy := energy + MinimumAlphaWeight * Sum(alphas);
    }
  }

  predicate AlphasNonnegative(alphas: seq<real>)
  {
    forall i :: 0 <= i < |alphas| ==> 0.0 <= alphas[i]
  }

  /** With nonnegative alphas and positive semi-definite inverse covariances the energy is nonnegative. */
  lemma EnergyNonnegative(alphas: seq<real>, colors: seq<real>, models: seq<ColorModel>, useMinimumAlpha: bool)
    requires LayerData(alphas, colors, models) && AlphasNonnegative(alphas)
    requires forall i :: 0 <= i < |models| ==> PositiveSemiDefinite(models[i].sigmaInv)
    ensures 0.0 <= UnmixingEnergy(alphas, colors, models, useMinimumAlpha)
  {
    var dists := LayerDistances(colors, models);
    forall i | 0 <= i < |dists| ensures 0.0 <= dists[i] {
      DistanceNonnegative(models[i], LayerColor(colors, i));
    }
    DotNonnegative(alphas, dists);
    SumNonnegative(alphas);
  }

  // ---------------------------------------------------------------------
  // The energy gradient
  // ---------------------------------------------------------------------

  /** Entries N + 3 i .. N + 3 i + 2 of the gradient: alpha_i times layer i's cost gradient. */
  function ColorGradients(alphas: seq<real>, grads: seq<Vec3>): (r: seq<real>)
    requires |grads| == |alphas|
    ensures |r| == 3 * |alphas|
  {
    Flatten(seq(|alphas|, i requires 0 <= i < |alphas| => grads[i].Scale(alphas[i])))
  }

  /**
    * calculate_derivative_of_unmixing_energy as written: with the
    * minimum-alpha term, the alpha entries are set to 0.01 and the layer
    * costs they held are lost.
    */
  function EnergyGradientAsWritten(alphas: seq<real>, dists: seq<real>, grads: seq<Vec3>,
                                   useMinimumAlpha: bool): (grad: seq<real>)
    requires |dists| == |alphas| && |grads| == |alphas|
    ensures |grad| == 4 * |alphas|
    ensures forall i :: 0 <= i < |alphas| ==> grad[i] == if useMinimumAlpha then MinimumAlphaWeight else dists[i]
  {
    seq(|alphas|, i requires 0 <= i < |alphas| => if useMinimumAlpha then MinimumAlphaWeight else dists[i])
      + ColorGradients(alphas, grads)
  }

  /** The gradient of Energy: with the minimum-alpha term the alpha entries add 0.01 to the layer cost. */
  function EnergyGradient(alphas: seq<real>, dists: seq<real>, grads: seq<Vec3>, useMinimumAlpha: bool): (grad: seq<real>)
    requires |dists| == |alphas| && |grads| == |alphas|
    ensures |grad| == 4 * |alphas|
  {
    seq(|alphas|, i requires 0 <= i < |alphas| => dists[i] + if useMinimumAlpha then MinimumAlphaWeight else 0.0)
      + ColorGradients(alphas, grads)
  }

  /** The energy is affine in each alpha, and the alpha entries of EnergyGradient are its exact slopes. */
  lemma EnergyGradientIsAlphaSlope(alphas: seq<real>, dists: seq<real>, grads: seq<Vec3>,
                                   useMinimumAlpha: bool, i: nat, t: real)
    requires |dists| == |alphas| && |grads| == |alphas| && i < |alphas|
    ensures Energy(alphas[i := alphas[i] + t], dists, useMinimumAlpha)
         == Energy(alphas, dists, useMinimumAlpha) + t * EnergyGradient(alphas, dists, grads, useMinimumAlpha)[i]
  {
    DotUpdateLeft(alphas, dists, i, t);
    SumUpdate(alphas, i, t);
    var w := if useMinimumAlpha then MinimumAlphaWeight else 0.0;
    assert EnergyGradient(alphas, dists, grads, useMinimumAlpha)[i] == dists[i] + w;
    assert w * (Sum(alphas) + t) == w * Sum(alphas) + t * w;
    assert t * (dists[i] + w) == t * dists[i] + t * w;
  }

  /** Entry N + 3 i + c of the gradient is alpha_i times channel c of layer i's cost gradient. */
  lemma EnergyGradientColorEntry(alphas: seq<real>, dists: seq<real>, grads: seq<Vec3>,
                                 useMinimumAlpha: bool, i: nat, c: nat)
    requires |dists| == |alphas| && |grads| == |alphas| && i < |alphas| && c < 3
    ensures EnergyGradient(alphas, dists, grads, useMinimumAlpha)[|alphas| + 3 * i + c] == alphas[i] * grads[i].At(c)
    ensures EnergyGradientAsWritten(alphas, dists, grads, useMinimumAlpha)[|alphas| + 3 * i + c]
         == alphas[i] * grads[i].At(c)
  {
    var scaled := seq(|alphas|, j requires 0 <= j < |alphas| => grads[j].Scale(alphas[j]));
    FlattenAt(scaled, i, c);
  }

  /** Without the minimum-alpha term the as-written gradient is the gradient. */
  lemma EnergyGradientAsWrittenWithoutMinimumAlpha(alphas: seq<real>, dists: seq<real>, grads: seq<Vec3>)
    requires |dists| == |alphas| && |grads| == |alphas|
    ensures EnergyGradientAsWritten(alphas, dists, grads, false) == EnergyGradient(alphas, dists, grads, false)
  {
    var n := |alphas|;
    var w := EnergyGradientAsWritten(alphas, dists, grads, false);
    var e := EnergyGradient(alphas, dists, grads, false);
    assert w[..n] == e[..n];
    assert w[n..] == e[n..];
    assert w == w[..n] + w[n..] && e == e[..n] + e[n..];
  }

  /**
    * The two gradients differ only in the alpha entries, and there by the
    * layer's cost when the minimum-alpha term is on: the as-written entry
    * lacks exactly the cost that the overwrite discards.
    */
  lemma EnergyGradientAsWrittenOffset(alphas: seq<real>, dists: seq<real>, grads: seq<Vec3>, useMinimumAlpha: bool)
    requires |dists| == |alphas| && |grads| == |alphas|
    ensures forall i :: 0 <= i < |alphas| ==>
      EnergyGradient(alphas, dists, grads, useMinimumAlpha)[i]
        == EnergyGradientAsWritten(alphas, dists, grads, useMinimumAlpha)[i] + (if useMinimumAlpha then dists[i] else 0.0)
    ensures forall k :: |alphas| <= k < 4 * |alphas| ==>
      EnergyGradient(alphas, dists, grads, useMinimumAlpha)[k]
        == EnergyGradientAsWritten(alphas, dists, grads, useMinimumAlpha)[k]
  {
    var n := |alphas|;
    var w := EnergyGradientAsWritten(alphas, dists, grads, useMinimumAlpha);
    var e := EnergyGradient(alphas, dists, grads, useMinimumAlpha);
    var colorPart := ColorGradients(alphas, grads);
    forall k | n <= k < 4 * n
      ensures e[k] == w[k]
    {
      assert e[k] == colorPart[k - n];
      assert w[k] == colorPart[k - n];
    }
  }

  /**
    * The as-written gradient is not the slope of the energy: one layer with
    * alpha 1 and cost 1 (colour (1, 0, 0) under a unit Gaussian at the
    * origin). Raising the alpha by 1 raises the energy by 1.01, while the
    * as-written entry is 0.01.
    */
  lemma EnergyGradientAsWrittenIsNotSlope()
    ensures EnergyGradientAsWritten([1.0], [1.0], [Zero3()], true)[0] == 0.01
    ensures Energy([2.0], [1.0], true) - Energy([1.0], [1.0], true) == 1.01
    ensures EnergyGradient([1.0], [1.0], [Zero3()], true)[0] == 1.01
  {
    SingleLayerEnergy(1.0);
    SingleLayerEnergy(2.0);
  }

  /** The cost 1 of the example: colour (1, 0, 0) under a unit Gaussian at the origin. */
  lemma UnitGaussianCost()
    ensures Distance(Gaussian(Zero3(), Identity3()), Vec3(1.0, 0.0, 0.0)) == 1.0
  {
    var mu := Zero3();
    assert mu.x == 0.0 && mu.y == 0.0 && mu.z == 0.0;
    IdentityDistance(mu, Vec3(1.0, 0.0, 0.0));
  }

  lemma SingleLayerEnergy(alpha: real)
    ensures Energy([alpha], [1.0], true) == alpha + MinimumAlphaWeight * alpha
  {
    assert [alpha][..0] == [] && [1.0][..0] == [];
    assert Dot([alpha], [1.0]) == Dot([], []) + alpha * 1.0;
    assert Sum([alpha]) == Sum([]) + alpha;
  }

  /** The loops of calculate_derivative_of_unmixing_energy, as written. */
  method CalculateDerivativeOfUnmixingEnergy(alphas: seq<real>, colors: seq<real>, models: seq<ColorModel>,
                                             useMinimumAlpha: bool)
    returns (grad: seq<real>)
    requires LayerData(alphas, colors, models)
    ensures grad == EnergyGradientAsWritten(alphas, LayerDistances(colors, models),
                                            LayerDistanceGradients(colors, models), useMinimumAlpha)
  {
    ghost var dists := LayerDistances(colors, models);
    ghost var grads := LayerDistanceGradients(colors, models);
    ghost var scaled := seq(|alphas|, i requires 0 <= i < |alphas| => grads[i].Scale(alphas[i]));
    var n := |alphas|;
    var alphaPart: seq<real> := [];
    var colorPart: seq<real> := [];
    for index := 0 to n
      invariant alphaPart == dists[..index]
      invariant colorPart == Flatten(scaled[..index])
    {
      var u := LayerColor(colors, index);
      var dg := DistanceGradient(models[index], u).Scale(alphas[index]);
      assert scaled[..index + 1][..index] == scaled[..index];
      alphaPart := alphaPart + [Distance(models[index], u)];
      colorPart := colorPart + dg.ToSeq();
    }
    assert scaled[..n] == scaled;
    assert colorPart == ColorGradients(alphas, grads);
    if useMinimumAlpha {
      for index := 0 to n
        invariant |alphaPart| == n
        invariant forall k :: 0 <= k < n ==> alphaPart[k] == if k < index then MinimumAlphaWeight else dists[k]
      {
        alphaPart := alphaPart[index := MinimumAlphaWeight];
      }
    }
    EnergyGradientAsWrittenParts(alphas, dists, grads, useMinimumAlpha, alphaPart);
    grad := alphaPart + colorPart;
  }

  /** The as-written gradient is its N alpha entries followed by ColorGradients. */
  lemma EnergyGradientAsWrittenParts(alphas: seq<real>, dists: seq<real>, grads: seq<Vec3>,
                                     useMinimumAlpha: bool, alphaPart: seq<real>)
    requires |dists| == |alphas| && |grads| == |alphas| && |alphaPart| == |alphas|
    requires forall k :: 0 <= k < |alphaPart| ==> alphaPart[k] == if useMinimumAlpha then MinimumAlphaWeight else dists[k]
    ensures alphaPart + ColorGradients(alphas, grads) == EnergyGradientAsWritten(alphas, dists, grads, useMinimumAlpha)
  {
  }

  // ---------------------------------------------------------------------
  // The constraint vector
  // ---------------------------------------------------------------------

  /** 3 colour constraints, then N alpha constraints in refinement and one otherwise. */
  function ConstraintCount(numLayers: nat, useTargetAlphas: bool): nat
  {
    3 + (if useTargetAlphas then numLayers else 1)
  }

  /**
    * calculate_constraint_vector without gray layers: the composited colour
    * minus the target colour, then either alphas minus the target alphas or
    * the composited alpha minus 1.
    */
  function ConstraintVector(alphas: seq<real>, colors: seq<real>, target: Vec3, ops: seq<CompOp>,
                            modes: seq<BlendMode>, useTargetAlphas: bool, targetAlphas: seq<real>): (g: seq<real>)
    requires WellFormedStack(alphas, colors, ops, modes)
    requires useTargetAlphas ==> |targetAlphas| == |alphas|
    ensures |g| == ConstraintCount(|alphas|, useTargetAlphas)
  {
    var c := CompositePrefix(alphas, colors, ops, modes, false, |alphas|);
    var gColor := c.Rgb().Sub(target).ToSeq();
    if useTargetAlphas then gColor + SubX(alphas, targetAlphas) else gColor + [c.w - 1.0]
  }

  /** The constraint holds exactly when the composite matches the pixel colour and the alphas their targets (or the composite is opaque). */
  lemma ConstraintVectorZeroIff(alphas: seq<real>, colors: seq<real>, target: Vec3, ops: seq<CompOp>,
                                modes: seq<BlendMode>, useTargetAlphas: bool, targetAlphas: seq<real>)
    requires WellFormedStack(alphas, colors, ops, modes)
    requires useTargetAlphas ==> |targetAlphas| == |alphas|
    ensures var g := ConstraintVector(alphas, colors, target, ops, modes, useTargetAlphas, targetAlphas);
            var c := CompositePrefix(alphas, colors, ops, modes, false, |alphas|);
            (forall k :: 0 <= k < |g| ==> g[k] == 0.0)
            <==> c.Rgb() == target && (if useTargetAlphas then alphas == targetAlphas else c.w == 1.0)
  {
    var g := ConstraintVector(alphas, colors, target, ops, modes, useTargetAlphas, targetAlphas);
    var c := CompositePrefix(alphas, colors, ops, modes, false, |alphas|);
    if forall k :: 0 <= k < |g| ==> g[k] == 0.0 {
      assert g[0] == 0.0 && g[1] == 0.0 && g[2] == 0.0;
      if useTargetAlphas {
        forall j | 0 <= j < |alphas| ensures alphas[j] == targetAlphas[j] {
          assert g[3 + j] == 0.0;
        }
      } else {
        assert g[3] == 0.0;
      }
    }
  }

  /** The composite-alpha constraint is the folded composite alpha minus 1; it reads no colour. */
  lemma CompositeAlphaConstraint(alphas: seq<real>, colors: seq<real>, target: Vec3, ops: seq<CompOp>,
                                 modes: seq<BlendMode>)
    requires WellFormedStack(alphas, colors, ops, modes)
    ensures ConstraintVector(alphas, colors, target, ops, modes, false, [])[3]
         == AlphaFold(CompositeAlpha, alphas, ops, |alphas|) - 1.0
  {
    CompositePrefixAlpha(alphas, colors, ops, modes, |alphas|);
  }

  /** In refinement the alpha constraint of layer l is its alpha minus its target; it reads no colour. */
  lemma TargetAlphaConstraint(alphas: seq<real>, colors: seq<real>, target: Vec3, ops: seq<CompOp>,
                              modes: seq<BlendMode>, targetAlphas: seq<real>, l: nat)
    requires WellFormedStack(alphas, colors, ops, modes)
    requires |targetAlphas| == |alphas| && l < |alphas|
    ensures ConstraintVector(alphas, colors, target, ops, modes, true, targetAlphas)[3 + l]
         == alphas[l] - targetAlphas[l]
  {
  }

  /** calculate_constraint_vector: the composite, then the entries written in place. */
  method CalculateConstraintVector(alphas: seq<real>, colors: seq<real>, target: Vec3, ops: seq<CompOp>,
                                   modes: seq<BlendMode>, useTargetAlphas: bool, targetAlphas: seq<real>)
    returns (g: seq<real>)
    requires WellFormedStack(alphas, colors, ops, modes)
    requires useTargetAlphas ==> |targetAlphas| == |alphas|
    ensures g == ConstraintVector(alphas, colors, target, ops, modes, useTargetAlphas, targetAlphas)
  {
    var composited := CompositeLayers(alphas, colors, ops, modes, false);
    var gColor := composited.Rgb().Sub(target);
    var n := |alphas|;
    var numAlphaConstraints := if useTargetAlphas then n else 1;
    var constraints := new real[3 + numAlphaConstraints];
    constraints[0], constraints[1], constraints[2] := gColor.x, gColor.y, gColor.z;
    if useTargetAlphas {
      for j := 0 to n
        invariant constraints[..3] == gColor.ToSeq()
        invariant forall k :: 0 <= k < j ==> constraints[3 + k] == alphas[k] - targetAlphas[k]
      {
        constraints[3 + j] := alphas[j] - targetAlphas[j];
      }
      assert constraints[..] == gColor.ToSeq() + SubX(alphas, targetAlphas);
    } else {
      constraints[3] := composited.w - 1.0;
      assert constraints[..] == gColor.ToSeq() + [composited.w - 1.0];
    }
    g := constraints[..];
  }

  // ---------------------------------------------------------------------
  // The unknown vector of a pixel
  // ---------------------------------------------------------------------

  /** x.segment(0, N) with N = |x| / 4 */
  function AlphasOf(x: seq<real>): (alphas: seq<real>)
    ensures |alphas| == |x| / 4
  {
    x[..|x| / 4]
  }

  /** x.segment(N, 3 N) */
  function ColorsOf(x: seq<real>): (colors: seq<real>)
    ensures |colors| == 3 * (|x| / 4)
  {
    x[|x| / 4 .. 4 * (|x| / 4)]
  }

  /** Alphas followed by colours is split back into the same two parts. */
  lemma SplitPacked(alphas: seq<real>, colors: seq<real>)
    requires |colors| == 3 * |alphas|
    ensures AlphasOf(alphas + colors) == alphas && ColorsOf(alphas + colors) == colors
  {
    assert |alphas + colors| / 4 == |alphas|;
  }
}
