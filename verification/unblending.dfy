/**
  * The per-pixel solver of unblending.cpp: the augmented Lagrangian
  * objective, the initial guess, the box bounds and the outer loop that
  * updates the Lagrange multipliers and the penalty weight around an inner
  * bound-constrained solver.
  *
  * The unknown vector x of a pixel packs the N layer alphas first and the
  * N layer colours after them (AlphasOf and ColorsOf split it). The inner
  * L-BFGS solver is a function parameter: all the loop relies on is that
  * its result lies within the bounds it is given.
  */
module Unblending {
  import opened LinearAlgebra
  import opened CompOps
  import opened BlendModes
  import opened ColorModels
  import opened Compositing
  import opened ConstraintEnergy
  import opened ConstraintJacobians

  // ---------------------------------------------------------------------
  // The parameter set and the objective
  // ---------------------------------------------------------------------

  /**
    * OptimizationParameterSet without the sparsity weight and the gray
    * layers (both off in the default build).
    */
  datatype OptimizationParameterSet = OptimizationParameterSet(
    models: seq<ColorModel>,
    compOps: seq<CompOp>,
    modes: seq<BlendMode>,
    targetColor: Vec3,
    lambda: seq<real>,
    lo: real,
    useMinimumAlpha: bool,
    useTargetAlphas: bool,
    targetAlphas: seq<real>)
  {
    /** x packs one alpha and one colour per model; every per-layer list and the multipliers have matching sizes. */
    predicate Fits(x: seq<real>)
    {
      1 <= |models| && |x| == 4 * |models| && |compOps| == |models| && |modes| == |models|
      && (useTargetAlphas ==> |targetAlphas| == |models|)
      && |lambda| == ConstraintCount(|models|, useTargetAlphas)
    }
  }

  /** calculate_constraint_vector on the packed unknowns. */
  function Constraints(ps: OptimizationParameterSet, x: seq<real>): (g: seq<real>)
    requires ps.Fits(x)
    ensures |g| == |ps.lambda|
  {
    ConstraintVector(AlphasOf(x), ColorsOf(x), ps.targetColor, ps.compOps, ps.modes,
                     ps.useTargetAlphas, ps.targetAlphas)
  }

  /** The value of objective_function: E - lambda^T g + lo / 2 |g|^2. */
  function ObjectiveValue(ps: OptimizationParameterSet, x: seq<real>): real
    requires ps.Fits(x)
  {
    var g := Constraints(ps, x);
    UnmixingEnergy(AlphasOf(x), ColorsOf(x), ps.models, ps.useMinimumAlpha)
      + LagrangeTerm(g, ps.lambda) + PenaltyTerm(g, ps.lo)
  }

  /**
    * The gradient of objective_function: the energy gradient plus the
    * constraint Jacobian applied to lo g - lambda. The energy gradient is
    * the corrected one, whose alpha part adds the minimum-alpha weight.
    */
  function ObjectiveGradient(ps: OptimizationParameterSet, x: seq<real>): (grad: seq<real>)
    requires ps.Fits(x) && StackAlphasNonzero(AlphasOf(x), ps.compOps)
    ensures |grad| == |x|
  {
    var alphas := AlphasOf(x);
    var colors := ColorsOf(x);
    var g := Constraints(ps, x);
    var dE := EnergyGradient(alphas, LayerDistances(colors, ps.models),
                             LayerDistanceGradients(colors, ps.models), ps.useMinimumAlpha);
    var d := ConstraintJacobian(alphas, colors, ps.compOps, ps.modes, ps.useTargetAlphas);
    AddX(dE, MatVec(d, SubX(ScaleX(ps.lo, g), ps.lambda)))
  }

  /**
    * The gradient objective_function hands to the inner solver: the energy
    * gradient as calculate_derivative_of_unmixing_energy writes it plus the
    * constraint Jacobian applied to lo g - lambda. It agrees with
    * ObjectiveGradient except in the alpha entries, which with the
    * minimum-alpha term on lack the layer's cost.
    */
  function ObjectiveGradientAsWritten(ps: OptimizationParameterSet, x: seq<real>): (grad: seq<real>)
    requires ps.Fits(x) && StackAlphasNonzero(AlphasOf(x), ps.compOps)
    ensures |grad| == |x|
    ensures forall i :: 0 <= i < |ps.models| ==>
      grad[i] == ObjectiveGradient(ps, x)[i]
                 - (if ps.useMinimumAlpha then LayerDistances(ColorsOf(x), ps.models)[i] else 0.0)
    ensures forall k :: |ps.models| <= k < |x| ==> grad[k] == ObjectiveGradient(ps, x)[k]
  {
    var alphas := AlphasOf(x);
    var colors := ColorsOf(x);
    var g := Constraints(ps, x);
    var dists := LayerDistances(colors, ps.models);
    var grads := LayerDistanceGradients(colors, ps.models);
    var d := ConstraintJacobian(alphas, colors, ps.compOps, ps.modes, ps.useTargetAlphas);
    var m := MatVec(d, SubX(ScaleX(ps.lo, g), ps.lambda));
    var dE := EnergyGradient(alphas, dists, grads, ps.useMinimumAlpha);
    var w := EnergyGradientAsWritten(alphas, dists, grads, ps.useMinimumAlpha);
    EnergyGradientAsWrittenOffset(alphas, dists, grads, ps.useMinimumAlpha);
    AddXOffset(dE, w, m, dists, ps.useMinimumAlpha);
    assert ObjectiveGradient(ps, x) == AddX(dE, m);
    AddX(w, m)
  }

  /** Adding the same vector keeps an offset confined to the first |dists| entries. */
  lemma AddXOffset(e: seq<real>, w: seq<real>, m: seq<real>, dists: seq<real>, on: bool)
    requires |e| == |w| == |m| && |dists| <= |e|
    requires forall i :: 0 <= i < |dists| ==> e[i] == w[i] + (if on then dists[i] else 0.0)
    requires forall k :: |dists| <= k < |e| ==> e[k] == w[k]
    ensures forall i :: 0 <= i < |dists| ==> AddX(w, m)[i] == AddX(e, m)[i] - (if on then dists[i] else 0.0)
    ensures forall k :: |dists| <= k < |e| ==> AddX(w, m)[k] == AddX(e, m)[k]
  {
  }

  /** Without the minimum-alpha term, as in refinement, the gradient as written is the gradient. */
  lemma ObjectiveGradientAsWrittenWithoutMinimumAlpha(ps: OptimizationParameterSet, x: seq<real>)
    requires ps.Fits(x) && StackAlphasNonzero(AlphasOf(x), ps.compOps) && !ps.useMinimumAlpha
    ensures ObjectiveGradientAsWritten(ps, x) == ObjectiveGradient(ps, x)
  {
    var w, e := ObjectiveGradientAsWritten(ps, x), ObjectiveGradient(ps, x);
    forall k | 0 <= k < |x|
      ensures w[k] == e[k]
    {
      if k < |ps.models| {
        assert w[k] == e[k] - 0.0;
      }
    }
  }

  /**
    * With the minimum-alpha term on, as in every solve that is not a
    * refinement, the alpha entry of a layer whose colour costs anything
    * differs between the two gradients.
    */
  lemma ObjectiveGradientAsWrittenDiffers(ps: OptimizationParameterSet, x: seq<real>, i: nat)
    requires ps.Fits(x) && StackAlphasNonzero(AlphasOf(x), ps.compOps) && ps.useMinimumAlpha
    requires i < |ps.models| && LayerDistances(ColorsOf(x), ps.models)[i] != 0.0
    ensures ObjectiveGradientAsWritten(ps, x)[i] != ObjectiveGradient(ps, x)[i]
  {
  }

  /** At a point that satisfies the constraints the objective is the unmixing energy. */
  lemma ObjectiveAtFeasiblePoint(ps: OptimizationParameterSet, x: seq<real>)
    requires ps.Fits(x)
    requires forall i :: 0 <= i < |Constraints(ps, x)| ==> Constraints(ps, x)[i] == 0.0
    ensures ObjectiveValue(ps, x) == UnmixingEnergy(AlphasOf(x), ColorsOf(x), ps.models, ps.useMinimumAlpha)
  {
    var g := Constraints(ps, x);
    LagrangeVanishes(g, ps.lambda);
    SquaredNormZeroIff(g);
  }

  /** With zero multipliers and a nonnegative penalty weight the objective bounds the energy from above. */
  lemma ObjectiveAtLeastEnergy(ps: OptimizationParameterSet, x: seq<real>)
    requires ps.Fits(x) && 0.0 <= ps.lo
    requires forall i :: 0 <= i < |ps.lambda| ==> ps.lambda[i] == 0.0
    ensures UnmixingEnergy(AlphasOf(x), ColorsOf(x), ps.models, ps.useMinimumAlpha) <= ObjectiveValue(ps, x)
  {
    var g := Constraints(ps, x);
    LagrangeVanishes(g, ps.lambda);
    PenaltyNonnegative(g, ps.lo);
  }

  /**
    * lo g - lambda is the exact slope of the Lagrange and penalty terms in
    * each constraint entry: raising g_k by t changes them by
    * t (lo g_k - lambda_k) + lo t^2 / 2.
    */
  lemma AugmentedTermsSlope(g: seq<real>, lambda: seq<real>, lo: real, k: nat, t: real)
    requires |g| == |lambda| && k < |g|
    ensures LagrangeTerm(g[k := g[k] + t], lambda) + PenaltyTerm(g[k := g[k] + t], lo)
         == LagrangeTerm(g, lambda) + PenaltyTerm(g, lo) + t * (lo * g[k] - lambda[k]) + 0.5 * lo * t * t
  {
    var u := g[k := g[k] + t];
    DotUpdateRight(lambda, g, k, t);
    SquaredNormUpdate(g, k, t);
    PenaltyExpansion(lo, SquaredNorm(g), t, g[k]);
  }

  /** Raising g_k by t raises |g|^2 by 2 t g_k + t^2. */
  lemma SquaredNormUpdate(g: seq<real>, k: nat, t: real)
    requires k < |g|
    ensures SquaredNorm(g[k := g[k] + t]) == SquaredNorm(g) + 2.0 * t * g[k] + t * t
  {
    var u := g[k := g[k] + t];
    DotUpdateLeft(g, u, k, t);
    DotUpdateRight(g, g, k, t);
    assert Dot(u, u) == Dot(g, g) + t * g[k] + t * (g[k] + t);
  }

  lemma PenaltyExpansion(lo: real, n: real, t: real, gk: real)
    ensures 0.5 * lo * (n + 2.0 * t * gk + t * t) == 0.5 * lo * n + t * (lo * gk) + 0.5 * lo * t * t
  {
  }

  /** Where lo g equals lambda the multiplier term vanishes and the gradient is the energy gradient. */
  lemma ObjectiveGradientAtBalancedMultipliers(ps: OptimizationParameterSet, x: seq<real>)
    requires ps.Fits(x) && StackAlphasNonzero(AlphasOf(x), ps.compOps)
    requires forall i :: 0 <= i < |ps.lambda| ==> ps.lo * Constraints(ps, x)[i] == ps.lambda[i]
    ensures ObjectiveGradient(ps, x)
         == EnergyGradient(AlphasOf(x), LayerDistances(ColorsOf(x), ps.models),
                           LayerDistanceGradients(ColorsOf(x), ps.models), ps.useMinimumAlpha)
  {
    BalancedTermVanishes(EnergyGradient(AlphasOf(x), LayerDistances(ColorsOf(x), ps.models),
                                        LayerDistanceGradients(ColorsOf(x), ps.models), ps.useMinimumAlpha),
                         ConstraintJacobian(AlphasOf(x), ColorsOf(x), ps.compOps, ps.modes, ps.useTargetAlphas),
                         Constraints(ps, x), ps.lambda, ps.lo);
  }

  /** Where lo g equals lambda the gradient as written is the energy gradient as written. */
  lemma ObjectiveGradientAsWrittenAtBalancedMultipliers(ps: OptimizationParameterSet, x: seq<real>)
    requires ps.Fits(x) && StackAlphasNonzero(AlphasOf(x), ps.compOps)
    requires forall i :: 0 <= i < |ps.lambda| ==> ps.lo * Constraints(ps, x)[i] == ps.lambda[i]
    ensures ObjectiveGradientAsWritten(ps, x)
         == EnergyGradientAsWritten(AlphasOf(x), LayerDistances(ColorsOf(x), ps.models),
                                    LayerDistanceGradients(ColorsOf(x), ps.models), ps.useMinimumAlpha)
  {
    var alphas, colors := AlphasOf(x), ColorsOf(x);
    var dists, grads := LayerDistances(colors, ps.models), LayerDistanceGradients(colors, ps.models);
    ObjectiveGradientAtBalancedMultipliers(ps, x);
    EnergyGradientAsWrittenOffset(alphas, dists, grads, ps.useMinimumAlpha);
    var a := ObjectiveGradientAsWritten(ps, x);
    var w := EnergyGradientAsWritten(alphas, dists, grads, ps.useMinimumAlpha);
    forall k | 0 <= k < |a|
      ensures a[k] == w[k]
    {
    }
  }

  /** The multiplier and penalty part of the gradient vanishes when lo g == lambda. */
  lemma BalancedTermVanishes(dE: seq<real>, d: seq<seq<real>>, g: seq<real>, lambda: seq<real>, lo: real)
    requires |g| == |lambda| && |d| == |dE| && forall r :: 0 <= r < |d| ==> |d[r]| == |g|
    requires forall i :: 0 <= i < |lambda| ==> lo * g[i] == lambda[i]
    ensures AddX(dE, MatVec(d, SubX(ScaleX(lo, g), lambda))) == dE
  {
    var v := SubX(ScaleX(lo, g), lambda);
    BalancedIsZero(g, lambda, lo);
    assert IsMatrix(d, |d|, |v|);
    MatVecOfZero(d, v);
  }

  lemma BalancedIsZero(g: seq<real>, lambda: seq<real>, lo: real)
    requires |g| == |lambda|
    requires forall i :: 0 <= i < |lambda| ==> lo * g[i] == lambda[i]
    ensures forall i :: 0 <= i < |g| ==> SubX(ScaleX(lo, g), lambda)[i] == 0.0
  {
  }

  /** A matrix applied to a zero vector, added to a, leaves a. */
  lemma MatVecOfZero(d: seq<seq<real>>, v: seq<real>)
    requires IsMatrix(d, |d|, |v|)
    requires forall i :: 0 <= i < |v| ==> v[i] == 0.0
    ensures forall a: seq<real> :: |a| == |d| ==> AddX(a, MatVec(d, v)) == a
  {
    var m := MatVec(d, v);
    forall r | 0 <= r < |m|
      ensures m[r] == 0.0
    {
      DotZeroRight(d[r], v);
    }
  }

  // ---------------------------------------------------------------------
  // The initial solution and the bounds
  // ---------------------------------------------------------------------

  /** The representative colour of every model, in layer order. */
  function RepresentativeColors(models: seq<ColorModel>): (colors: seq<Vec3>)
    ensures |colors| == |models|
  {
    seq(|models|, i requires 0 <= i < |models| => RepresentativeColor(models[i]))
  }

  /** find_initial_solution (default build): every alpha 0.5, every colour its model's representative colour. */
  function InitialSolution(models: seq<ColorModel>): (x: seq<real>)
    ensures |x| == 4 * |models|
  {
    seq(|models|, _ => 0.5) + Flatten(RepresentativeColors(models))
  }

  /** The initial solution holds alpha 0.5 for every layer and the model's representative colour for every colour. */
  lemma InitialSolutionShape(models: seq<ColorModel>)
    ensures AlphasOf(InitialSolution(models)) == seq(|models|, _ => 0.5)
    ensures forall i :: 0 <= i < |models| ==> LayerColor(ColorsOf(InitialSolution(models)), i) == RepresentativeColor(models[i])
  {
    var reps := RepresentativeColors(models);
    SplitPacked(seq(|models|, _ => 0.5), Flatten(reps));
    var colors := ColorsOf(InitialSolution(models));
    assert colors == Flatten(reps);
    forall i | 0 <= i < |models|
      ensures LayerColor(colors, i) == reps[i]
    {
      FlattenAt(reps, i, 0);
      FlattenAt(reps, i, 1);
      FlattenAt(reps, i, 2);
    }
  }

  /** Every initial layer colour costs nothing under its model, so the initial energy is the minimum-alpha term alone. */
  lemma InitialColorsCostNothing(models: seq<ColorModel>)
    ensures forall i :: 0 <= i < |models| ==> Distance(models[i], LayerColor(ColorsOf(InitialSolution(models)), i)) == 0.0
  {
    InitialSolutionShape(models);
    forall i | 0 <= i < |models|
      ensures Distance(models[i], LayerColor(ColorsOf(InitialSolution(models)), i)) == 0.0
    {
      DistanceAtMu(models[i]);
    }
  }

  method FindInitialSolution(targetColor: Vec3, models: seq<ColorModel>) returns (x: seq<real>)
    ensures x == InitialSolution(models)
  {
    var n := |models|;
    ghost var spec := InitialSolution(models);
    ghost var reps := RepresentativeColors(models);
    x := Zeros(4 * n);
    x := seq(n, _ => 0.5) + x[n..];
    for index := 0 to n
      invariant |x| == 4 * n
      invariant forall k :: 0 <= k < n + 3 * index ==> x[k] == spec[k]
    {
      var color := RepresentativeColor(models[index]);
      FlattenAt(reps, index, 0);
      FlattenAt(reps, index, 1);
      FlattenAt(reps, index, 2);
      x := x[n + 3 * index := color.x][n + 3 * index + 1 := color.y][n + 3 * index + 2 := color.z];
    }
  }

  /** The box bounds and the starting point of one per-pixel problem. */
  datatype Box = Box(upper: seq<real>, lower: seq<real>, x: seq<real>)
  {
    /** Bounds for n unknowns with every lower bound at most its upper bound. */
    predicate Ordered(n: nat)
    {
      |upper| == n && |lower| == n && forall k :: 0 <= k < n ==> lower[k] <= upper[k]
    }

    predicate Contains(y: seq<real>)
    {
      |y| == |upper| && |y| == |lower| && forall k :: 0 <= k < |y| ==> lower[k] <= y[k] <= upper[k]
    }
  }

  /** What solve_per_pixel_optimization asserts of its optional arguments. */
  predicate ProblemInputs(models: seq<ColorModel>, isForRefinement: bool, hasOpaqueBackground: bool,
                          initialColors: seq<real>, targetAlphas: seq<real>, forceSmoothBackground: bool)
  {
    1 <= |models|
    && (isForRefinement ==> |targetAlphas| == |models| && |initialColors| == 3 * |models|)
    && (forceSmoothBackground ==> hasOpaqueBackground)
  }

  /** True for the three unknowns of the background colour when it is forced smooth. */
  predicate SmoothEntry(n: nat, forceSmoothBackground: bool, k: nat)
  {
    forceSmoothBackground && n <= k < n + 3
  }

  /**
    * The bounds and the starting point built by solve_per_pixel_optimization:
    * [0, 1] for every unknown, x seeded by the initial solution or, in
    * refinement, by the target alphas and initial colours; an opaque
    * background fixes alpha 0 at 1 from below; a smooth background fixes
    * its colour at the target background colour.
    */
  function ProblemBox(models: seq<ColorModel>, isForRefinement: bool, hasOpaqueBackground: bool,
                      initialColors: seq<real>, targetAlphas: seq<real>,
                      forceSmoothBackground: bool, targetBackgroundColor: Vec3): (b: Box)
    requires ProblemInputs(models, isForRefinement, hasOpaqueBackground, initialColors, targetAlphas, forceSmoothBackground)
    ensures b.Ordered(4 * |models|) && |b.x| == 4 * |models|
    ensures hasOpaqueBackground ==> b.lower[0] == b.upper[0] == b.x[0] == 1.0
    ensures forall k :: 0 <= k < 4 * |models| && SmoothEntry(|models|, forceSmoothBackground, k)
              ==> b.lower[k] == b.upper[k] == b.x[k] == targetBackgroundColor.At(k - |models|)
    ensures forall k :: 0 <= k < 4 * |models| && !SmoothEntry(|models|, forceSmoothBackground, k)
              ==> b.upper[k] == 1.0 && b.lower[k] == (if hasOpaqueBackground && k == 0 then 1.0 else 0.0)
  {
    var n := |models|;
    var seeded := if isForRefinement then targetAlphas + initialColors else InitialSolution(models);
    Box(seq(4 * n, k requires 0 <= k < 4 * n =>
          if SmoothEntry(n, forceSmoothBackground, k) then targetBackgroundColor.At(k - n) else 1.0),
        seq(4 * n, k requires 0 <= k < 4 * n =>
          if SmoothEntry(n, forceSmoothBackground, k) then targetBackgroundColor.At(k - n)
          else if hasOpaqueBackground && k == 0 then 1.0 else 0.0),
        seq(4 * n, k requires 0 <= k < 4 * n =>
          if SmoothEntry(n, forceSmoothBackground, k) then targetBackgroundColor.At(k - n)
          else if hasOpaqueBackground && k == 0 then 1.0 else seeded[k]))
  }

  /** Outside the forced entries the starting point is the seed: the initial solution, or the refinement inputs. */
  lemma ProblemBoxSeed(models: seq<ColorModel>, isForRefinement: bool, hasOpaqueBackground: bool,
                       initialColors: seq<real>, targetAlphas: seq<real>,
                       forceSmoothBackground: bool, targetBackgroundColor: Vec3, k: nat)
    requires ProblemInputs(models, isForRefinement, hasOpaqueBackground, initialColors, targetAlphas, forceSmoothBackground)
    requires k < 4 * |models| && !SmoothEntry(|models|, forceSmoothBackground, k) && !(hasOpaqueBackground && k == 0)
    ensures var b := ProblemBox(models, isForRefinement, hasOpaqueBackground, initialColors, targetAlphas,
                                forceSmoothBackground, targetBackgroundColor);
            b.x[k] == (if isForRefinement then (targetAlphas + initialColors)[k] else InitialSolution(models)[k])
  {
  }

  /** The bound and seeding statements of solve_per_pixel_optimization, writing the vectors in place. */
  method SetUpProblem(targetColor: Vec3, models: seq<ColorModel>, isForRefinement: bool, hasOpaqueBackground: bool,
                      initialColors: seq<real>, targetAlphas: seq<real>,
                      forceSmoothBackground: bool, targetBackgroundColor: Vec3)
    returns (upper: seq<real>, lower: seq<real>, x: seq<real>)
    requires ProblemInputs(models, isForRefinement, hasOpaqueBackground, initialColors, targetAlphas, forceSmoothBackground)
    ensures Box(upper, lower, x) == ProblemBox(models, isForRefinement, hasOpaqueBackground, initialColors,
                                               targetAlphas, forceSmoothBackground, targetBackgroundColor)
  {
    var n := |models|;
    upper := seq(4 * n, _ => 1.0);
    lower := seq(4 * n, _ => 0.0);
    x := FindInitialSolution(targetColor, models);
    if isForRefinement {
      x := targetAlphas + initialColors;
    }
    if hasOpaqueBackground {
      lower := lower[0 := 1.0];
      x := x[0 := 1.0];
    }
    if forceSmoothBackground {
      var c := targetBackgroundColor;
      upper := upper[n := c.x][n + 1 := c.y][n + 2 := c.z];
      lower := lower[n := c.x][n + 1 := c.y][n + 2 := c.z];
      x := x[n := c.x][n + 1 := c.y][n + 2 := c.z];
    }
    ghost var b := ProblemBox(models, isForRefinement, hasOpaqueBackground, initialColors,
                              targetAlphas, forceSmoothBackground, targetBackgroundColor);
    assert upper == b.upper;
    assert lower == b.lower;
    assert x == b.x;
  }

  // ---------------------------------------------------------------------
  // The outer loop
  // ---------------------------------------------------------------------

  const Gamma: real := 0.25
  const Epsilon: real := 0.005
  const Beta: real := 10.0
  const InitialLo: real := 100.0
  const MaxCount: nat := 20

  /** The parameter set the loop starts from: zero multipliers, lo = 100, the minimum-alpha term outside refinement. */
  function InitialParameterSet(targetColor: Vec3, models: seq<ColorModel>, compOps: seq<CompOp>, modes: seq<BlendMode>,
                               isForRefinement: bool, targetAlphas: seq<real>): (ps: OptimizationParameterSet)
    ensures ps.models == models && ps.compOps == compOps && ps.modes == modes && ps.targetColor == targetColor
    ensures |ps.lambda| == ConstraintCount(|models|, isForRefinement)
    ensures forall i :: 0 <= i < |ps.lambda| ==> ps.lambda[i] == 0.0
    ensures ps.lo == InitialLo && ps.useMinimumAlpha == !isForRefinement && ps.useTargetAlphas == isForRefinement
  {
    OptimizationParameterSet(models, compOps, modes, targetColor, Zeros(ConstraintCount(|models|, isForRefinement)),
                             InitialLo, !isForRefinement, isForRefinement, targetAlphas)
  }

  /**
    * The inner solver nloptutil::solve(x, upper, lower, objective, set):
    * given ordered bounds of the size of x it returns a point of that
    * size within them.
    */
  type InnerSolver = (seq<real>, seq<real>, seq<real>, OptimizationParameterSet) -> seq<real>

  ghost predicate RespectsBounds(solve: InnerSolver)
  {
    forall x, upper, lower, ps ::
      Box(upper, lower, x).Ordered(|x|) ==> Box(upper, lower, x).Contains(solve(x, upper, lower, ps))
  }

  /**
    * The constraint vector of one pixel problem as a map on unknown
    * vectors. It reads only the fields of the parameter set that the loop
    * leaves alone, so it is the same map throughout the loop.
    */
  function ConstraintMap(ps: OptimizationParameterSet): (cv: seq<real> -> seq<real>)
    ensures forall x :: |cv(x)| == ConstraintCount(|ps.models|, ps.useTargetAlphas)
    ensures forall x :: ps.Fits(x) ==> cv(x) == Constraints(ps, x)
  {
    ConstraintMapOf(ps.models, ps.targetColor, ps.compOps, ps.modes, ps.useTargetAlphas, ps.targetAlphas)
  }

  function ConstraintMapOf(models: seq<ColorModel>, targetColor: Vec3, compOps: seq<CompOp>, modes: seq<BlendMode>,
                           useTargetAlphas: bool, targetAlphas: seq<real>): seq<real> -> seq<real>
  {
    x =>
      if 1 <= |models| && |x| == 4 * |models| && |compOps| == |models| && |modes| == |models|
         && (useTargetAlphas ==> |targetAlphas| == |models|)
      then ConstraintVector(AlphasOf(x), ColorsOf(x), targetColor, compOps, modes, useTargetAlphas, targetAlphas)
      else Zeros(ConstraintCount(|models|, useTargetAlphas))
  }

  /** The state of the loop between two inner solves; solves counts the calls of the inner solver. */
  datatype LoopState = LoopState(x: seq<real>, ps: OptimizationParameterSet, count: nat, solves: nat)

  /** The loop state fits the bounds and the constraint map: ordered bounds of the size of x, multipliers of the size of g. */
  ghost predicate Fitting(cv: seq<real> -> seq<real>, upper: seq<real>, lower: seq<real>, s: LoopState)
  {
    Box(upper, lower, s.x).Ordered(|s.x|) && forall y :: |cv(y)| == |s.ps.lambda|
  }

  /**
    * One iteration: solve, update lambda by the new constraint value with
    * the old lo, multiply lo by beta when |g_new| > gamma |g|, and stop
    * when x barely moved and the constraints hold, or after count 20.
    * Norms are compared through their squares.
    */
  function Step(solve: InnerSolver, cv: seq<real> -> seq<real>, upper: seq<real>, lower: seq<real>, s: LoopState)
    : (r: (LoopState, bool))
    requires RespectsBounds(solve) && Fitting(cv, upper, lower, s)
    ensures Fitting(cv, upper, lower, r.0) && Box(upper, lower, r.0.x).Contains(r.0.x)
    ensures r.0.count == s.count && r.0.solves == s.solves + 1
    ensures r.0.ps == s.ps.(lambda := r.0.ps.lambda, lo := r.0.ps.lo)
  {
    var xNew := solve(s.x, upper, lower, s.ps);
    var g := cv(s.x);
    var gNew := cv(xNew);
    var lambda := SubX(s.ps.lambda, ScaleX(s.ps.lo, gNew));
    (LoopState(xNew, s.ps.(lambda := lambda, lo := NextLo(s.ps.lo, g, gNew)), s.count, s.solves + 1),
     Stops(s.x, xNew, gNew, s.count))
  }

  /**
    * What one step does: the multipliers move against lo times the new
    * constraint value; lo is kept or multiplied by beta, and (for lo not
    * zero) multiplied exactly when |g_new| > gamma |g|; the loop stops
    * exactly when x barely moved and the constraints hold, or the count
    * ran past 20.
    */
  lemma StepUpdates(solve: InnerSolver, cv: seq<real> -> seq<real>, upper: seq<real>, lower: seq<real>, s: LoopState)
    requires RespectsBounds(solve) && Fitting(cv, upper, lower, s)
    ensures var r := Step(solve, cv, upper, lower, s);
            && r.0.ps.lambda == SubX(s.ps.lambda, ScaleX(s.ps.lo, cv(r.0.x)))
            && (r.0.ps.lo == s.ps.lo || r.0.ps.lo == Beta * s.ps.lo)
            && (s.ps.lo != 0.0 ==> (r.0.ps.lo == Beta * s.ps.lo
                  <==> SquaredNorm(cv(r.0.x)) > Gamma * Gamma * SquaredNorm(cv(s.x))))
            && (r.1 <==> (SquaredNorm(SubX(r.0.x, s.x)) < Epsilon * Epsilon
                          && SquaredNorm(cv(r.0.x)) < Epsilon * Epsilon) || s.count > MaxCount)
  {
  }

  /** Step spelled out, for callers that hold the pieces separately. */
  lemma StepOutcome(solve: InnerSolver, cv: seq<real> -> seq<real>, upper: seq<real>, lower: seq<real>, s: LoopState)
    requires RespectsBounds(solve) && Fitting(cv, upper, lower, s)
    ensures var xNew := solve(s.x, upper, lower, s.ps);
            var lambda := SubX(s.ps.lambda, ScaleX(s.ps.lo, cv(xNew)));
            Step(solve, cv, upper, lower, s)
            == (LoopState(xNew, s.ps.(lambda := lambda, lo := NextLo(s.ps.lo, cv(s.x), cv(xNew))), s.count, s.solves + 1),
                Stops(s.x, xNew, cv(xNew), s.count))
  {
  }

  /** Run unfolded once where the step says stop, for a loop that holds the pieces of the step separately. */
  lemma RunStopsAfter(solve: InnerSolver, cv: seq<real> -> seq<real>, upper: seq<real>, lower: seq<real>, s: LoopState,
                      xNew: seq<real>, ps: OptimizationParameterSet)
    requires RespectsBounds(solve) && Fitting(cv, upper, lower, s) && s.count <= MaxCount + 1
    requires xNew == solve(s.x, upper, lower, s.ps)
    requires ps == s.ps.(lambda := SubX(s.ps.lambda, ScaleX(s.ps.lo, cv(xNew))), lo := NextLo(s.ps.lo, cv(s.x), cv(xNew)))
    requires Stops(s.x, xNew, cv(xNew), s.count)
    ensures Run(solve, cv, upper, lower, s) == LoopState(xNew, ps, s.count, s.solves + 1)
  {
    StepOutcome(solve, cv, upper, lower, s);
  }

  /** Run unfolded once where the step goes on, for a loop that holds the pieces of the step separately. */
  lemma RunGoesOnAfter(solve: InnerSolver, cv: seq<real> -> seq<real>, upper: seq<real>, lower: seq<real>, s: LoopState,
                       xNew: seq<real>, ps: OptimizationParameterSet, count: nat, solves: nat)
    requires RespectsBounds(solve) && Fitting(cv, upper, lower, s) && s.count <= MaxCount + 1
    requires xNew == solve(s.x, upper, lower, s.ps)
    requires ps == s.ps.(lambda := SubX(s.ps.lambda, ScaleX(s.ps.lo, cv(xNew))), lo := NextLo(s.ps.lo, cv(s.x), cv(xNew)))
    requires !Stops(s.x, xNew, cv(xNew), s.count)
    requires count == s.count + 1 && solves == s.solves + 1
    ensures Fitting(cv, upper, lower, LoopState(xNew, ps, count, solves)) && count <= MaxCount + 1
    ensures Run(solve, cv, upper, lower, s) == Run(solve, cv, upper, lower, LoopState(xNew, ps, count, solves))
  {
    StepOutcome(solve, cv, upper, lower, s);
    var r := Step(solve, cv, upper, lower, s);
    assert !r.1 && r.0.x == xNew && r.0.ps == ps;
    assert r.0.(count := r.0.count + 1) == LoopState(xNew, ps, count, solves);
  }

  /** The penalty weight after a step: times beta when the constraints did not shrink by gamma. */
  function NextLo(lo: real, g: seq<real>, gNew: seq<real>): real
  {
    if Grew(g, gNew) then lo * Beta else lo
  }

  /** The constraint violation did not shrink by the factor gamma: |g_new| > gamma |g|. */
  predicate Grew(g: seq<real>, gNew: seq<real>)
  {
    SquaredNorm(gNew) > Gamma * Gamma * SquaredNorm(g)
  }

  /** The stopping test: x barely moved and the constraints hold, or the count ran out. */
  predicate Stops(x: seq<real>, xNew: seq<real>, gNew: seq<real>, count: nat)
    requires |xNew| == |x|
  {
    var isUnchanged := SquaredNorm(SubX(xNew, x)) < Epsilon * Epsilon;
    var isSatisfied := SquaredNorm(gNew) < Epsilon * Epsilon;
    (isUnchanged && isSatisfied) || count > MaxCount
  }

  /** The rest of the loop from state s: steps until one says stop, counting up in between. */
  function Run(solve: InnerSolver, cv: seq<real> -> seq<real>, upper: seq<real>, lower: seq<real>, s: LoopState)
    : (r: LoopState)
    requires RespectsBounds(solve) && Fitting(cv, upper, lower, s) && s.count <= MaxCount + 1
    ensures Fitting(cv, upper, lower, r) && r.count <= MaxCount + 1
    decreases MaxCount + 1 - s.count
  {
    var (next, stop) := Step(solve, cv, upper, lower, s);
    if stop then next else Run(solve, cv, upper, lower, next.(count := next.count + 1))
  }

  /** The loop calls the inner solver at least once and at most 22 times in all. */
  lemma {:induction false} RunSolveCount(solve: InnerSolver, cv: seq<real> -> seq<real>, upper: seq<real>,
                                         lower: seq<real>, s: LoopState)
    requires RespectsBounds(solve) && Fitting(cv, upper, lower, s) && s.count <= MaxCount + 1
    ensures s.solves + 1 <= Run(solve, cv, upper, lower, s).solves <= s.solves + MaxCount + 2 - s.count
    decreases MaxCount + 1 - s.count
  {
    var (next, stop) := Step(solve, cv, upper, lower, s);
    if !stop {
      RunSolveCount(solve, cv, upper, lower, next.(count := next.count + 1));
    }
  }

  /** The penalty weight never decreases while it is nonnegative. */
  lemma {:induction false} RunLoNeverDecreases(solve: InnerSolver, cv: seq<real> -> seq<real>, upper: seq<real>,
                                               lower: seq<real>, s: LoopState)
    requires RespectsBounds(solve) && Fitting(cv, upper, lower, s) && s.count <= MaxCount + 1
    requires 0.0 <= s.ps.lo
    ensures s.ps.lo <= Run(solve, cv, upper, lower, s).ps.lo
    decreases MaxCount + 1 - s.count
  {
    var (next, stop) := Step(solve, cv, upper, lower, s);
    assert s.ps.lo <= next.ps.lo;
    if !stop {
      RunLoNeverDecreases(solve, cv, upper, lower, next.(count := next.count + 1));
    }
  }

  /** The loop returns a point within the bounds, for the same problem (only lambda and lo have changed). */
  lemma {:induction false} RunStaysInBounds(solve: InnerSolver, cv: seq<real> -> seq<real>, upper: seq<real>,
                                            lower: seq<real>, s: LoopState)
    requires RespectsBounds(solve) && Fitting(cv, upper, lower, s) && s.count <= MaxCount + 1
    ensures var r := Run(solve, cv, upper, lower, s);
            Box(upper, lower, s.x).Contains(r.x) && r.ps == s.ps.(lambda := r.ps.lambda, lo := r.ps.lo)
    decreases MaxCount + 1 - s.count
  {
    var (next, stop) := Step(solve, cv, upper, lower, s);
    if !stop {
      RunStaysInBounds(solve, cv, upper, lower, next.(count := next.count + 1));
    }
  }

  /** Unless the loop stopped on the count, the constraint vector at its result has norm below epsilon. */
  lemma {:induction false} RunMeetsConstraints(solve: InnerSolver, cv: seq<real> -> seq<real>, upper: seq<real>,
                                               lower: seq<real>, s: LoopState)
    requires RespectsBounds(solve) && Fitting(cv, upper, lower, s) && s.count <= MaxCount + 1
    ensures var r := Run(solve, cv, upper, lower, s);
            r.count <= MaxCount ==> SquaredNorm(cv(r.x)) < Epsilon * Epsilon
    decreases MaxCount + 1 - s.count
  {
    var (next, stop) := Step(solve, cv, upper, lower, s);
    if !stop {
      RunMeetsConstraints(solve, cv, upper, lower, next.(count := next.count + 1));
    } else {
      StepUpdates(solve, cv, upper, lower, s);
    }
  }

  /**
    * solve_per_pixel_optimization: set up the bounds and the starting
    * point, then run the outer loop from zero multipliers and lo = 100.
    */
  method SolvePerPixelOptimization(targetColor: Vec3, models: seq<ColorModel>, compOps: seq<CompOp>,
                                   modes: seq<BlendMode>, isForRefinement: bool, hasOpaqueBackground: bool,
                                   initialColors: seq<real>, targetAlphas: seq<real>,
                                   forceSmoothBackground: bool, targetBackgroundColor: Vec3, solve: InnerSolver)
    returns (x: seq<real>)
    requires ProblemInputs(models, isForRefinement, hasOpaqueBackground, initialColors, targetAlphas, forceSmoothBackground)
    requires |compOps| == |models| && |modes| == |models|
    requires RespectsBounds(solve)
    ensures var b := ProblemBox(models, isForRefinement, hasOpaqueBackground, initialColors, targetAlphas,
                                forceSmoothBackground, targetBackgroundColor);
            var ps := InitialParameterSet(targetColor, models, compOps, modes, isForRefinement, targetAlphas);
            x == Run(solve, ConstraintMap(ps), b.upper, b.lower, LoopState(b.x, ps, 0, 0)).x
            && b.Contains(x)
  {
    var upper, lower, x0 := SetUpProblem(targetColor, models, isForRefinement, hasOpaqueBackground,
                                         initialColors, targetAlphas, forceSmoothBackground, targetBackgroundColor);
    var ps := InitialParameterSet(targetColor, models, compOps, modes, isForRefinement, targetAlphas);
    RunStaysInBounds(solve, ConstraintMap(ps), upper, lower, LoopState(x0, ps, 0, 0));
    x := OuterLoop(solve, upper, lower, x0, ps);
  }

  /**
    * The outer loop of the augmented Lagrangian method: inner solves with
    * multiplier and penalty updates until the stopping test holds.
    */
  method OuterLoop(solve: InnerSolver, upper: seq<real>, lower: seq<real>, x0: seq<real>, ps0: OptimizationParameterSet)
    returns (x: seq<real>)
    requires RespectsBounds(solve) && ps0.Fits(x0) && Box(upper, lower, x0).Ordered(|x0|)
    ensures Fitting(ConstraintMap(ps0), upper, lower, LoopState(x0, ps0, 0, 0))
    ensures x == Run(solve, ConstraintMap(ps0), upper, lower, LoopState(x0, ps0, 0, 0)).x
  {
    ghost var cv := ConstraintMap(ps0);
    ghost var final := Run(solve, cv, upper, lower, LoopState(x0, ps0, 0, 0));
    x := x0;
    var ps := ps0;
    var count := 0;
    ghost var solves := 0;
    var stop := false;
    while true
      invariant ps.Fits(x) && count <= MaxCount + 1
      invariant ps == ps0.(lambda := ps.lambda, lo := ps.lo)
      invariant Fitting(cv, upper, lower, LoopState(x, ps, count, solves))
      invariant Run(solve, cv, upper, lower, LoopState(x, ps, count, solves)) == final
      decreases MaxCount + 1 - count
    {
      ghost var before := LoopState(x, ps, count, solves);
      assert ConstraintMap(ps) == cv;
      x, ps, stop := OuterIteration(solve, upper, lower, x, ps, count);
      solves := solves + 1;
      if stop {
        RunStopsAfter(solve, cv, upper, lower, before, x, ps);
        break;
      }
      count := count + 1;
      RunGoesOnAfter(solve, cv, upper, lower, before, x, ps, count, solves);
    }
  }

  /** The constraint vector of the pixel problem at x, as the loop computes it. */
  method EvaluateConstraints(ps: OptimizationParameterSet, x: seq<real>) returns (g: seq<real>)
    requires ps.Fits(x)
    ensures g == ConstraintMap(ps)(x) && |g| == |ps.lambda|
  {
    g := CalculateConstraintVector(AlphasOf(x), ColorsOf(x), ps.targetColor, ps.compOps, ps.modes,
                                   ps.useTargetAlphas, ps.targetAlphas);
  }

  /** The body of the outer loop: one inner solve, the multiplier and penalty updates and the stopping test. */
  method OuterIteration(solve: InnerSolver, upper: seq<real>, lower: seq<real>, x: seq<real>,
                        ps: OptimizationParameterSet, count: nat)
    returns (xNew: seq<real>, psNew: OptimizationParameterSet, stop: bool)
    requires RespectsBounds(solve) && ps.Fits(x) && Box(upper, lower, x).Ordered(|x|)
    ensures psNew.Fits(xNew) && xNew == solve(x, upper, lower, ps)
    ensures var cv := ConstraintMap(ps);
            psNew == ps.(lambda := SubX(ps.lambda, ScaleX(ps.lo, cv(xNew))), lo := NextLo(ps.lo, cv(x), cv(xNew)))
            && stop == Stops(x, xNew, cv(xNew), count)
  {
    xNew := solve(x, upper, lower, ps);
    var g := EvaluateConstraints(ps, x);
    var gNew := EvaluateConstraints(ps, xNew);
    var lambda := SubX(ps.lambda, ScaleX(ps.lo, gNew));
    var lo := ps.lo;
    if Grew(g, gNew) {
      lo := lo * Beta;
    }
    assert lo == NextLo(ps.lo, g, gNew);
    psNew := ps.(lambda := lambda, lo := lo);
    var isUnchanged := SquaredNorm(SubX(xNew, x)) < Epsilon * Epsilon;
    var isSatisfied := SquaredNorm(gNew) < Epsilon * Epsilon;
    stop := (isUnchanged && isSatisfied) || count > MaxCount;
    assert stop == Stops(x, xNew, gNew, count);
  }
}
