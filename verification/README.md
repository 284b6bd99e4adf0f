# unblending in Dafny

A model of the per-pixel core of *unblending*, a layer-decomposition
library by Yuki Koyama. Given an image and a list of layers, each with a
composition operation (source-over or plus), a blend mode and a Gaussian
colour model, the library finds for every pixel the alphas and colours of
all layers. Its search is an augmented-Lagrangian method:

- the energy is the sum of each layer's alpha times the Mahalanobis cost
  of its colour under the layer's model;
- the constraints are that the layers composite back to the pixel's
  colour, and either to full opacity or, in refinement, to target alphas.

The model covers:

- **Clamping and composition operations.** `crop_value` and its vector
  forms, and the integer-weighted Porter–Duff operations.
- **Blend modes.** The thirteen separable blend modes, their names and
  their partial derivatives.
- **Colour model and layer descriptors.** The Gaussian colour model and
  the layer-info projections.
- **Compositing and the constraint model.**
  - The two-layer composite and its left fold over the stack.
  - The Lagrange, penalty and energy terms.
  - The constraint vector.
  - The energy gradient.
  - The chained derivatives of the composite and the constraint Jacobian.
- **The per-pixel solver.**
  - The objective and its gradient, the initial guess, and the box bounds.
  - The outer multiplier and penalty loop, with the inner bounded L-BFGS
    solve as a parameter.
- **Image-level passes.** `normalize_alphas`, the clamp and normalise
  passes of matte refinement, and the recomposition of layer images.
- **Image buffers.** Single-channel and RGBA images, their pointwise
  operations, `force_unity`, `scale_to_unit`, convolution with
  clamp-to-edge indexing and the box filter, and the byte export layout.
- **Layer-info JSON helpers.** The matrix, vector, variance, comp-op and
  blend-mode conversions, and the field mapping of the importer.

Doubles are modelled as exact reals: the proofs are about the algebra the
code writes down, not about rounding. Each source file becomes a module.
`equations.cpp` is split into `Compositing`, `ConstraintEnergy`,
`Jacobians` and `ConstraintJacobians`. Value-like data (vectors, matrices,
composite operations, layer infos, JSON) are datatypes. Objects the source
updates in place (`Image`, `ColorImage`, `GaussianColorModel`) are
classes, and loops that update variables are methods. Each such method is
proved against a function that specifies it.

## Model

| member | source | states |
|---|---|---|
| Common.CropValue | unblending/include/unblending/common.hpp:29-33 | the result lies in [0, 1]; a value already in [0, 1] is returned unchanged; values below 0 become 0 and values above 1 become 1 |
| Common.CropValueIdempotent | unblending/include/unblending/common.hpp:29-33 | cropping a cropped value changes nothing |
| Common.CropValueMonotone | unblending/include/unblending/common.hpp:29-33 | cropping preserves the order of two values |
| Common.CropVec3 | unblending/include/unblending/common.hpp:35-38 | the componentwise max with zero and min with one crops each channel as crop_value does |
| Common.CropVec4 | unblending/include/unblending/common.hpp:40-43 | the same for the four channels of an RGBA value |
| CompOps.DefaultCompOp | unblending/include/unblending/comp_op.hpp:12 | the default op has X = Y = Z = 0 and is neither source-over nor plus |
| CompOps.SourceOver | unblending/include/unblending/comp_op.hpp:18-24 | the factory gives (1, 1, 1), which is source-over and not plus |
| CompOps.Plus | unblending/include/unblending/comp_op.hpp:19-29 | the factory gives (2, 1, 1), which is plus and not source-over |
| CompOps.SourceOverAndPlusExclusive | unblending/include/unblending/comp_op.hpp:18-29 | no op is both; the predicates hold exactly for the two factory values |
| BlendModes.BlendMode.Ordinal | unblending/include/unblending/blend_mode.hpp:9-24 | each of the thirteen modes has a position below 13 in declaration order |
| BlendModes.RetrieveName | unblending/include/unblending/blend_mode.hpp:26-47 | the name of each of the thirteen modes; NameRoundTrip and NameInjective state that the naming is one-to-one and that retrieve_by_name inverts it |
| BlendModes.RetrieveByName | unblending/include/unblending/blend_mode.hpp:49-67 | the mode of a name, and None (the failed assertion) for any other string; ByNameInverse states that it yields m exactly when the name is retrieve_name(m) |
| BlendModes.NameRoundTrip | unblending/include/unblending/blend_mode.hpp:26-67 | looking a mode up by its own name gives the mode back |
| BlendModes.NameInjective | unblending/include/unblending/blend_mode.hpp:26-47 | two modes with the same name are the same mode |
| BlendModes.ByNameInverse | unblending/include/unblending/blend_mode.hpp:26-67 | retrieve_by_name(name) yields a mode exactly when retrieve_name of that mode is name, in both directions |
| BlendModes.BlendModeList | unblending/include/unblending/blend_mode.hpp:69-86 | the list has thirteen entries and entry i is the mode declared i-th |
| BlendModes.BlendModeListComplete | unblending/include/unblending/blend_mode.hpp:69-86 | every mode is in the list, and no mode appears twice |
| BlendModes.Blend | unblending/include/unblending/blend_mode.hpp:162-196 | blend for one channel; BlendInUnit bounds every mode in [0, 1] on the unit square, and MinMaxModes, ColorDodgeGuards, ColorBurnGuards and LinearDodgeAdds state its cases |
| BlendModes.BlendGradS | unblending/include/unblending/blend_mode.hpp:90-124 | blend_grad_s; the lemmas NormalSlopeS to ExclusionSlopeS state that it is the exact slope of Blend in s for each polynomial mode and branch |
| BlendModes.BlendGradD | unblending/include/unblending/blend_mode.hpp:126-160 | blend_grad_d; the lemmas NormalSlopeD to ExclusionSlopeD state that it is the exact slope of Blend in d, and SoftLightGradDIsTangent that it is the tangent slope on the polynomial branch |
| BlendModes.BlendVec3 | unblending/include/unblending/blend_mode.hpp:198-202 | each channel of the colour blend is the scalar blend of that channel |
| BlendModes.MultiplyInUnit | unblending/include/unblending/blend_mode.hpp:168-169 | Multiply maps [0, 1] × [0, 1] into [0, 1] |
| BlendModes.ScreenInUnit | unblending/include/unblending/blend_mode.hpp:170-171 | Screen maps [0, 1] × [0, 1] into [0, 1] |
| BlendModes.LowerHalfInUnit | unblending/include/unblending/blend_mode.hpp:173-183 | the lower branch 2sd of Overlay and HardLight stays in [0, 1] when s or d is at most 1/2 |
| BlendModes.UpperHalfInUnit | unblending/include/unblending/blend_mode.hpp:173-183 | the upper branch 1 − 2(1 − s)(1 − d) stays in [0, 1] when s or d is above 1/2 |
| BlendModes.UpperHalfBySource | unblending/include/unblending/blend_mode.hpp:183 | the upper branch stays in [0, 1] when s is above 1/2 |
| BlendModes.UpperHalfByDestination | unblending/include/unblending/blend_mode.hpp:173 | the upper branch stays in [0, 1] when d is above 1/2 |
| BlendModes.OverlayInUnit | unblending/include/unblending/blend_mode.hpp:172-173 | Overlay maps [0, 1] × [0, 1] into [0, 1] |
| BlendModes.HardLightInUnit | unblending/include/unblending/blend_mode.hpp:182-183 | HardLight maps [0, 1] × [0, 1] into [0, 1] |
| BlendModes.ColorDodgeInUnit | unblending/include/unblending/blend_mode.hpp:178-179 | ColorDodge maps [0, 1] × [0, 1] into [0, 1] |
| BlendModes.ColorBurnInUnit | unblending/include/unblending/blend_mode.hpp:180-181 | ColorBurn maps [0, 1] × [0, 1] into [0, 1] |
| BlendModes.SoftLightLowerInUnit | unblending/include/unblending/blend_mode.hpp:185 | the branch s ≤ 1/2 of SoftLight stays in [0, 1] |
| BlendModes.SoftLightPolynomialInUnit | unblending/include/unblending/blend_mode.hpp:185 | the polynomial D(d) = ((16d − 12)d + 4)d stays in [0, 1] for d ≤ 1/4 |
| BlendModes.ConvexCombinationInUnit | unblending/include/unblending/blend_mode.hpp:185 | d + (2s − 1)(v − d) stays in [0, 1] for s above 1/2 and d, v in [0, 1] |
| BlendModes.SoftLightUpperInUnit | unblending/include/unblending/blend_mode.hpp:185 | SoftLight with s above 1/2 and d ≤ 1/4 stays in [0, 1] |
| BlendModes.SoftLightInUnit | unblending/include/unblending/blend_mode.hpp:184-185 | SoftLight stays in [0, 1] off its square-root branch |
| BlendModes.ExclusionInUnit | unblending/include/unblending/blend_mode.hpp:188-189 | Exclusion maps [0, 1] × [0, 1] into [0, 1] |
| BlendModes.BlendInUnit | unblending/include/unblending/blend_mode.hpp:162-196 | every mode maps [0, 1] × [0, 1] into [0, 1], LinearDodge only with cropping, SoftLight off its square-root branch |
| BlendModes.ColorDodgeGuards | unblending/include/unblending/blend_mode.hpp:178-179 | ColorDodge is 0 below the epsilon destination, 1 for a source within epsilon of 1, and otherwise d / (1 − s) saturated at 1 |
| BlendModes.ColorBurnGuards | unblending/include/unblending/blend_mode.hpp:180-181 | ColorBurn is 1 for a destination within epsilon of 1, 0 below the epsilon source, and otherwise 1 − (1 − d) / s floored at 0 |
| BlendModes.MinMaxModes | unblending/include/unblending/blend_mode.hpp:174-187 | Darken is the smaller input, Lighten the larger, Difference the absolute difference |
| BlendModes.LinearDodgeAdds | unblending/include/unblending/blend_mode.hpp:190-191 | LinearDodge is s + d; with cropping it never exceeds 1 and equals s + d when that sum is at most 1 |
| BlendModes.NormalSlopeS | unblending/include/unblending/blend_mode.hpp:94-95 | blend_grad_s is the exact slope of Normal in s |
| BlendModes.MultiplySlopeS | unblending/include/unblending/blend_mode.hpp:96-97 | blend_grad_s is the exact slope of Multiply in s |
| BlendModes.ScreenSlopeS | unblending/include/unblending/blend_mode.hpp:98-99 | blend_grad_s is the exact slope of Screen in s |
| BlendModes.OverlaySlopeS | unblending/include/unblending/blend_mode.hpp:100-101 | blend_grad_s is the exact slope of Overlay in s |
| BlendModes.HardLightSlopeS | unblending/include/unblending/blend_mode.hpp:110-111 | blend_grad_s is the exact slope of HardLight in s between two sources on the same side of 1/2 |
| BlendModes.SoftLightLowerSlopeS | unblending/include/unblending/blend_mode.hpp:112-113 | blend_grad_s is the exact slope of SoftLight in s for sources at most 1/2 |
| BlendModes.SoftLightUpperSlopeS | unblending/include/unblending/blend_mode.hpp:112-113 | blend_grad_s is the exact slope of SoftLight in s for sources above 1/2 and d ≤ 1/4 |
| BlendModes.ExclusionSlopeS | unblending/include/unblending/blend_mode.hpp:116-117 | blend_grad_s is the exact slope of Exclusion in s |
| BlendModes.NormalSlopeD | unblending/include/unblending/blend_mode.hpp:130-131 | blend_grad_d is the exact slope of Normal in d |
| BlendModes.MultiplySlopeD | unblending/include/unblending/blend_mode.hpp:132-133 | blend_grad_d is the exact slope of Multiply in d |
| BlendModes.ScreenSlopeD | unblending/include/unblending/blend_mode.hpp:134-135 | blend_grad_d is the exact slope of Screen in d |
| BlendModes.OverlaySlopeD | unblending/include/unblending/blend_mode.hpp:136-137 | blend_grad_d is the exact slope of Overlay in d between two destinations on the same side of 1/2 |
| BlendModes.HardLightSlopeD | unblending/include/unblending/blend_mode.hpp:146-147 | blend_grad_d is the exact slope of HardLight in d |
| BlendModes.ExclusionSlopeD | unblending/include/unblending/blend_mode.hpp:152-153 | blend_grad_d is the exact slope of Exclusion in d |
| BlendModes.SoftLightGradDIsTangent | unblending/include/unblending/blend_mode.hpp:148-149 | for s ≤ 1/2 SoftLight is quadratic in d, blend_grad_d is its tangent slope and the remainder is (1 − 2s) times the squared step |
| ColorModels.Distance | unblending/include/unblending/color_model.hpp:29-32 | (c − mu)ᵀ Σ⁻¹ (c − mu); DistanceAtMu, DistanceScale, IdentityDistance and DistanceNonnegative state its value at mu, its scaling, the identity case and its sign |
| ColorModels.DistanceGradient | unblending/include/unblending/color_model.hpp:34-37 | 2 Σ⁻¹ (c − mu); DistanceExpansion states that it is the linear part of Distance, and GradientAtMu that it vanishes at mu |
| ColorModels.RepresentativeColor | unblending/include/unblending/color_model.hpp:39-42 | mu; DistanceAtMu and GradientAtMu state that it costs nothing and is a stationary point of the cost |
| ColorModels.DistanceAtMu | unblending/include/unblending/color_model.hpp:29-42 | the representative colour mu has distance zero |
| ColorModels.GradientAtMu | unblending/include/unblending/color_model.hpp:34-37 | the distance gradient vanishes at mu |
| ColorModels.DistanceScale | unblending/include/unblending/color_model.hpp:29-32 | scaling the inverse covariance by k scales the distance by k |
| ColorModels.GradientScale | unblending/include/unblending/color_model.hpp:34-37 | scaling the inverse covariance by k scales the gradient by k |
| ColorModels.IdentityDistance | unblending/include/unblending/color_model.hpp:29-32 | with the identity as inverse covariance the distance is the squared Euclidean distance to mu |
| ColorModels.SymmetricForm | unblending/include/unblending/color_model.hpp:29-37 | for a symmetric matrix A, u·(Av) = v·(Au) |
| ColorModels.DistanceExpansion | unblending/include/unblending/color_model.hpp:29-37 | for a symmetric inverse covariance, moving the colour by v changes the distance by v·gradient plus v·(Σ⁻¹v): the gradient is the linear part of the distance |
| ColorModels.DistanceNonnegative | unblending/include/unblending/color_model.hpp:29-32 | a positive semi-definite inverse covariance gives a nonnegative distance |
| ColorModels.GaussianColorModel.Model | unblending/include/unblending/color_model.hpp:56-58 | the object stands for the (mu, sigma_inv) pair it holds |
| ColorModels.GaussianColorModel.constructor | unblending/include/unblending/color_model.hpp:22-27 | the new model holds the given mu and sigma_inv |
| ColorModels.GaussianColorModel.CalculateDistance | unblending/include/unblending/color_model.hpp:29-32 | returns (c − mu)ᵀ Σ⁻¹ (c − mu) of the model it holds |
| ColorModels.GaussianColorModel.CalculateDistanceGradient | unblending/include/unblending/color_model.hpp:34-37 | returns 2 Σ⁻¹ (c − mu) of the model it holds |
| ColorModels.GaussianColorModel.GetRepresentativeColor | unblending/include/unblending/color_model.hpp:39-42 | returns mu, whose distance is zero |
| ColorModels.GaussianColorModel.GetMu | unblending/include/unblending/color_model.hpp:47 | returns mu |
| ColorModels.GaussianColorModel.GetSigmaInv | unblending/include/unblending/color_model.hpp:48 | returns sigma_inv |
| ColorModels.GaussianColorModel.SetMu | unblending/include/unblending/color_model.hpp:52 | mu is replaced and sigma_inv kept |
| ColorModels.GaussianColorModel.SetSigmaInv | unblending/include/unblending/color_model.hpp:54 | sigma_inv is replaced and mu kept |
| LayerInfos.CompOpsOf | unblending/include/unblending/layer_info.hpp:21-26 | one comp op per layer, entry i being layer i's |
| LayerInfos.BlendModesOf | unblending/include/unblending/layer_info.hpp:28-33 | one blend mode per layer, entry i being layer i's |
| LayerInfos.ColorModelsOf | unblending/include/unblending/layer_info.hpp:35-40 | one colour model per layer, entry i being layer i's |
| LayerInfos.Zip | unblending/include/unblending/layer_info.hpp:10-15 | three parallel lists of equal length give as many layer descriptors |
| LayerInfos.ZipExtracted | unblending/include/unblending/layer_info.hpp:10-40 | the three extracted lists zipped together give back the descriptors, so extraction loses nothing |
| LayerInfos.ExtractCompOps | unblending/include/unblending/layer_info.hpp:21-26 | the push_back loop yields layer i's comp op at index i, for every layer |
| LayerInfos.ExtractBlendModes | unblending/include/unblending/layer_info.hpp:28-33 | the push_back loop yields layer i's blend mode at index i, for every layer |
| LayerInfos.ExtractColorModels | unblending/include/unblending/layer_info.hpp:35-40 | the push_back loop yields layer i's colour model at index i, for every layer |
| Compositing.CompositeAlpha | unblending/src/equations.cpp:24 | X·a_s·a_d + Y·a_s(1 − a_d) + Z·a_d(1 − a_s); OverAlpha and PlusAlpha state its value for the two ops, and AlphaSlopeBySourceIsExact and AlphaSlopeByDestinationIsExact its slopes |
| Compositing.PremultipliedOf | unblending/src/equations.cpp:26 | each channel of c_pre is f·a_s·a_d + Y·a_s(1 − a_d)·c_s + Z·a_d(1 − a_s)·c_d for that channel |
| Compositing.Premultiplied | unblending/src/equations.cpp:25-26 | c_pre uses the un-cropped blend of the two colours in every channel |
| Compositing.CompositeTwoLayers | unblending/src/equations.cpp:10-32 | the alpha is X·a_s·a_d + Y·a_s(1 − a_d) + Z·a_d(1 − a_s), cropped when crop is set; with crop every channel lies in [0, 1] |
| Compositing.CompositeTwoLayersRgba | unblending/src/equations.cpp:403-416 | the Vec4 overload (declared at equations.hpp:66-70): its alpha is the composite alpha of the two w channels, cropped when crop is set; with crop every channel lies in [0, 1]; without crop its colour times the composite alpha is the premultiplied colour of the x, y, z parts when that alpha exceeds 1e-12, and is the premultiplied colour itself otherwise |
| Compositing.CompositeUnpremultiplies | unblending/src/equations.cpp:22-27 | above the 1e-12 threshold the un-cropped colour times the alpha is the premultiplied colour |
| Compositing.CompositeSmallAlpha | unblending/src/equations.cpp:22-27 | at or below the threshold the colour is the premultiplied colour itself |
| Compositing.OverAlpha | unblending/src/equations.cpp:24 | source-over gives a_s + a_d(1 − a_s), stays in [0, 1] for inputs in [0, 1], and is 1 over an opaque destination |
| Compositing.PlusAlpha | unblending/src/equations.cpp:24 | plus gives a_s + a_d |
| Compositing.OverNormalOpaqueDestination | unblending/src/equations.cpp:24-27 | source-over in Normal mode over an opaque destination is the mix a_s·c_s + (1 − a_s)·c_d |
| Compositing.OverNormalPremultiplied | unblending/src/equations.cpp:25-26 | the premultiplied colour of that case is the same mix |
| Compositing.NormalBlendVec3 | unblending/include/unblending/blend_mode.hpp:166-202 | the Normal blend of two colours is the source colour |
| Compositing.OverNormalChannel | unblending/src/equations.cpp:26 | one channel of that mix |
| Compositing.LayerColor | unblending/src/equations.cpp:56-61 | colors.segment<3>(3i) is entries 3i .. 3i + 2 |
| Compositing.CompositeLayers | unblending/src/equations.cpp:34-74 | the loop's colour and alpha equal the fold CompositePrefix over the whole stack; a single layer is returned as it is |
| Compositing.CompositePrefix | unblending/src/equations.cpp:59-70 | the left fold of composite_two_layers over the first n layers; CompositeLayers states that the loop computes it, and AllOverOpaque, AllOverAlphaInUnit and AllPlusSum state its alpha |
| Compositing.CompositePrefixStep | unblending/src/equations.cpp:59-70 | one more iteration composites layer n over the composite of layers 0 .. n − 1 |
| Compositing.AllOverOpaque | unblending/src/equations.cpp:59-70 | a source-over stack on an opaque background composites to alpha 1 whatever the upper alphas |
| Compositing.AllOverClear | unblending/src/equations.cpp:59-70 | a source-over stack whose every alpha is zero composites to alpha 0 |
| Compositing.AllOverAlphaInUnit | unblending/src/equations.cpp:59-70 | a source-over stack of alphas in [0, 1] composites to an alpha in [0, 1] |
| Compositing.AllPlusSum | unblending/src/equations.cpp:59-70 | an un-cropped plus stack composites to the sum of the layer alphas |
| Compositing.CompositePrefixTruncate | unblending/src/equations.cpp:301-304 | composite_layers over the first m layers agrees with the fold of the full stack up to any n ≤ m |
| Compositing.CompositePrefixAlpha | unblending/src/equations.cpp:59-70 | the composite alpha depends only on the alphas and ops, not on the colours or modes |
| Compositing.AlphaFoldIgnoresUpperAlphas | unblending/src/equations.cpp:59-70 | changing the alphas at or above position n leaves the alpha of the first n layers unchanged |
| ConstraintEnergy.LagrangeTerm | unblending/src/equations.cpp:76-80 | −λᵀg; LagrangeVanishes states that it is zero for a satisfied constraint and for zero multipliers |
| ConstraintEnergy.LagrangeVanishes | unblending/src/equations.cpp:76-80 | −λᵀg is zero when the constraint vector is zero and when the multipliers are zero |
| ConstraintEnergy.PenaltyTerm | unblending/src/equations.cpp:82-86 | ½ρ‖g‖²; PenaltyNonnegative states its sign and when it vanishes |
| ConstraintEnergy.PenaltyNonnegative | unblending/src/equations.cpp:82-86 | ½ρ‖g‖² is nonnegative for ρ ≥ 0, and for ρ > 0 it is zero exactly when g is zero |
| ConstraintEnergy.Energy | unblending/src/equations.cpp:97-110 | Σ αᵢ·costᵢ plus 0.01·Σ αᵢ with the minimum-alpha term; EnergyGradientIsAlphaSlope states that it is affine in each alpha, EnergyNonnegative its sign |
| ConstraintEnergy.UnmixingEnergy | unblending/src/equations.cpp:88-111 | the energy of the layer colours under their models; CalculateUnmixingEnergy states that the loop computes it |
| ConstraintEnergy.CalculateUnmixingEnergy | unblending/src/equations.cpp:88-111 | the accumulating loop computes the energy Σ αᵢ·costᵢ, plus 0.01·Σ αᵢ with the minimum-alpha term |
| ConstraintEnergy.EnergyNonnegative | unblending/src/equations.cpp:97-110 | nonnegative alphas and positive semi-definite inverse covariances give a nonnegative energy |
| ConstraintEnergy.EnergyGradientAsWritten | unblending/src/equations.cpp:157-196 | as written: with the minimum-alpha term every alpha entry is 0.01, otherwise the layer cost |
| ConstraintEnergy.EnergyGradient | unblending/src/equations.cpp:168-193 | the corrected gradient: 4N entries, the alpha entry is the layer cost plus 0.01 with the minimum-alpha term (its slope property is EnergyGradientIsAlphaSlope) |
| ConstraintEnergy.EnergyGradientIsAlphaSlope | unblending/src/equations.cpp:168-193 | the energy is affine in each alpha, and the corrected alpha entry is its exact slope |
| ConstraintEnergy.EnergyGradientColorEntry | unblending/src/equations.cpp:174 | entry N + 3i + c of both gradients is αᵢ times channel c of layer i's cost gradient |
| ConstraintEnergy.EnergyGradientAsWrittenWithoutMinimumAlpha | unblending/src/equations.cpp:168-175 | without the minimum-alpha term the code as written computes the corrected gradient |
| ConstraintEnergy.EnergyGradientAsWrittenOffset | unblending/src/equations.cpp:168-193 | the two gradients agree in the colour entries; each alpha entry of the corrected one is the as-written entry plus the layer cost when the minimum-alpha term is on |
| ConstraintEnergy.EnergyGradientAsWrittenIsNotSlope | unblending/src/equations.cpp:189-193 | one layer with α = 1 and cost 1: the as-written alpha entry is 0.01, but the energy rises by 1.01 per unit of α, as the corrected entry says |
| ConstraintEnergy.UnitGaussianCost | unblending/include/unblending/color_model.hpp:29-32 | the colour (1, 0, 0) costs 1 under a unit Gaussian at the origin |
| ConstraintEnergy.SingleLayerEnergy | unblending/src/equations.cpp:99-108 | one layer of cost 1 has energy α + 0.01·α |
| ConstraintEnergy.CalculateDerivativeOfUnmixingEnergy | unblending/src/equations.cpp:157-196 | the two loops compute the as-written gradient |
| ConstraintEnergy.EnergyGradientAsWrittenParts | unblending/src/equations.cpp:165-193 | the as-written gradient is its N alpha entries followed by the colour entries |
| ConstraintEnergy.ConstraintVector | unblending/src/equations.cpp:125-129 | 3 + N entries in refinement, 4 otherwise |
| ConstraintEnergy.ConstraintVectorZeroIff | unblending/src/equations.cpp:113-155 | the constraint vector is zero exactly when the composite colour is the target colour and, in refinement, the alphas are their targets, otherwise the composite alpha is 1 |
| ConstraintEnergy.CompositeAlphaConstraint | unblending/src/equations.cpp:138-142 | the fourth entry is the folded composite alpha minus 1 and reads no colour |
| ConstraintEnergy.TargetAlphaConstraint | unblending/src/equations.cpp:133-137 | entry 3 + l is αₗ minus its target in refinement |
| ConstraintEnergy.CalculateConstraintVector | unblending/src/equations.cpp:113-155 | the entries written in place form the constraint vector |
| ConstraintEnergy.SplitPacked | unblending/src/unblending.cpp:44-49 | packing alphas then colours and splitting them again gives both parts back |
| Jacobians.AlphaSlopeBySource | unblending/src/equations.cpp:198-202 | X·a_d + Y(1 − a_d) − Z·a_d; AlphaSlopeBySourceIsExact states that it is the exact slope of the composite alpha in a_s |
| Jacobians.AlphaSlopeByDestination | unblending/src/equations.cpp:204-208 | X·a_s − Y·a_s + Z(1 − a_s); AlphaSlopeByDestinationIsExact states that it is the exact slope in a_d |
| Jacobians.AlphaSlopeBySourceIsExact | unblending/src/equations.cpp:198-202 | the composite alpha is affine in the source alpha, with X a_d + Y (1 − a_d) − Z a_d as its exact slope |
| Jacobians.AlphaSlopeByDestinationIsExact | unblending/src/equations.cpp:204-208 | the composite alpha is affine in the destination alpha, with X a_s − Y a_s + Z (1 − a_s) as its exact slope |
| Jacobians.BlendGradSVec3 | unblending/src/equations.cpp:210-214 | channel i is the blend's slope by source channel i |
| Jacobians.BlendGradDVec3 | unblending/src/equations.cpp:216-220 | channel i is the blend's slope by destination channel i |
| Jacobians.PremultipliedSlopeBySourceAlphaIsExact | unblending/src/equations.cpp:238 | the premultiplied colour is affine in the source alpha, with D a_d + Y (1 − a_d) c_s − Z a_d c_d as its exact slope |
| Jacobians.PremultipliedSlopeByDestinationAlphaIsExact | unblending/src/equations.cpp:269 | the premultiplied colour is affine in the destination alpha, with D a_s − Y a_s c_s + Z (1 − a_s) c_d as its exact slope |
| Jacobians.PremultipliedSlopeBySourceColorIsExact | unblending/src/equations.cpp:236 | where the blend moves by t·g along a source channel step t, the premultiplied channel moves by t (a_s a_d g + Y (1 − a_d) a_s) |
| Jacobians.PremultipliedSlopeByDestinationColorIsExact | unblending/src/equations.cpp:267 | the same for a destination channel step, with Z (1 − a_s) a_d |
| Jacobians.LayerDerivative | unblending/src/equations.cpp:237-249 | the 4×4 derivative has the diagonal colour block, a zero alpha column in the colour rows, the given alpha slope at (3, 3) and obeys the quotient rule for B = C / A |
| Jacobians.DerivativeBySource | unblending/src/equations.cpp:222-251 | the derivative by the source RGBA has the Jacobian shape, dA/da_s at (3, 3), and obeys the quotient rule with the composite's A and B |
| Jacobians.DerivativeByDestination | unblending/src/equations.cpp:253-282 | the same by the destination RGBA, with dA/da_d at (3, 3) |
| Jacobians.QuotientRule | unblending/src/equations.cpp:237-241 | multiplying the divided slopes back by A recovers dC/dc and dC/da − B dA/da |
| Jacobians.ShapeMul | unblending/src/equations.cpp:327 | a product of two derivatives of that shape has the shape, and its alpha entry and diagonal multiply |
| Jacobians.KthJacobian | unblending/src/equations.cpp:284-329 | the chained derivative (identity at i = k = 0, by-source at i = k, by-destination times the one below otherwise) has the Jacobian shape |
| Jacobians.KthJacobianAlphaSlope | unblending/src/equations.cpp:284-329 | its entry (3, 3) is the chain-rule slope of the composite alpha by layer i's alpha |
| Jacobians.SourceAlphaSlope | unblending/src/equations.cpp:306-312 | the case k = i of that chain rule |
| Jacobians.AboveSourceAlphaSlope | unblending/src/equations.cpp:313-328 | the step from k − 1 to k of that chain rule |
| Jacobians.ChainAlphasNonzeroTop | unblending/src/equations.cpp:301-304 | the composite of layers 0 .. k that the chained derivative divides by is nonzero |
| Jacobians.ChainAlphasNonzeroBelow | unblending/src/equations.cpp:315-321 | the recursive call keeps the nonzero-alpha precondition |
| Jacobians.CompositeSlopeAtSource | unblending/src/equations.cpp:306-312 | the chain-rule slope at k = i is dA/da_s over the composite below |
| Jacobians.CompositeSlopeAboveSource | unblending/src/equations.cpp:313-328 | above it, the slope multiplies by dA/da_d of layer k |
| Jacobians.Below | unblending/src/equations.cpp:297-304 | the composite of the truncated stack has the folded alpha of k layers, and layer k over it gives that of k + 1 |
| Jacobians.StackSlopeIsExact | unblending/src/equations.cpp:284-329 | for any step affine in both alphas, the folded alpha moves by t times the chain-rule slope when layer i's alpha moves by t |
| Jacobians.CompositeAlphaSlopesAreExact | unblending/src/equations.cpp:198-208 | the composite alpha's two slope functions are exact for every argument |
| Jacobians.ChainAlphaSlopeIsExact | unblending/src/equations.cpp:284-329 | the folded composite alpha moves by exactly t times the chain-rule slope |
| Jacobians.KthJacobianAlphaIsExact | unblending/src/equations.cpp:284-329 | the alpha of the composite of layers 0 .. k moves by exactly t times entry (3, 3) of the chained derivative |
| ConstraintJacobians.StackChainAlphasNonzero | unblending/src/equations.cpp:359-365 | every chain from a layer to the top has defined divisions |
| ConstraintJacobians.LayerJacobians | unblending/src/equations.cpp:359-365 | one derivative per layer, each of the Jacobian shape |
| ConstraintJacobians.LayerJacobian | unblending/src/equations.cpp:359-365 | i_th_derivative is the chained derivative of the top composite by layer i |
| ConstraintJacobians.AlphaRow | unblending/src/equations.cpp:370-376 | the alpha row has one entry per constraint |
| ConstraintJacobians.ColorRow | unblending/src/equations.cpp:371-377 | the colour row has one entry per constraint |
| ConstraintJacobians.ConstraintJacobianOf | unblending/src/equations.cpp:345 | 4N rows of one entry per constraint |
| ConstraintJacobians.UnknownRow | unblending/src/equations.cpp:368-378 | each row has one entry per constraint |
| ConstraintJacobians.ConstraintJacobian | unblending/src/equations.cpp:331-397 | 4N rows, one column per constraint |
| ConstraintJacobians.AlphaRowAt | unblending/src/equations.cpp:370-376 | row i is layer i's alpha row |
| ConstraintJacobians.ColorRowAt | unblending/src/equations.cpp:371-377 | row N + 3i + rr is channel rr's colour row of layer i |
| ConstraintJacobians.ColorRowsAt | unblending/src/equations.cpp:371-377 | the three colour rows of layer i at once |
| ConstraintJacobians.ColorRowZeros | unblending/src/equations.cpp:371-377 | the colour rows are diagonal in the colour columns and zero in the composite-alpha column |
| ConstraintJacobians.CompositeAlphaColumnIsSlope | unblending/src/equations.cpp:376 | the composite-alpha column holds the chain-rule slope of the composite alpha by each layer's alpha |
| ConstraintJacobians.CompositeAlphaColumnIsExact | unblending/src/equations.cpp:138-142 | moving layer i's alpha by t moves the composite-alpha constraint by exactly t times row i's entry |
| ConstraintJacobians.CompositeAlphaColumnOfColorRows | unblending/src/equations.cpp:138-142 | the composite-alpha constraint ignores the colours and its column is zero in every colour row |
| ConstraintJacobians.TargetAlphaColumns | unblending/src/equations.cpp:133-137 | column 3 + l holds 1 in row l and 0 in every other alpha row, and is exact |
| ConstraintJacobians.TargetAlphaColumnsOfColorRows | unblending/src/equations.cpp:133-137 | the target-alpha constraints ignore the colours and their columns are zero in every colour row |
| ConstraintJacobians.ColorBlockDiagonal | unblending/src/equations.cpp:210-220 | channel rr of a layer's colour enters only the colour constraint of channel rr |
| ConstraintJacobians.SingleLayerJacobian | unblending/src/equations.cpp:292-295 | a lone layer's derivative is the fixed 4×4 identity-like pattern, in either mode |
| ConstraintJacobians.SetRowBlock | unblending/src/equations.cpp:370-377 | a block assignment writes the first entries of one row and nothing else |
| ConstraintJacobians.WriteLayerRows | unblending/src/equations.cpp:368-378 | one loop iteration writes layer i's four rows of the derivative and nothing else |
| ConstraintJacobians.CalculateDerivativeOfConstraintVector | unblending/src/equations.cpp:331-397 | the fresh matrix is 4N × constraints and equals the derivative of the constraint vector entry by entry |
| UnblendingIo.Mat3AsJson | unblending/src/unblending_io.cpp:14-25 | nine numbers, entry (col, row) of the matrix at position 3·col + row |
| UnblendingIo.Mat3FromItems | unblending/src/unblending_io.cpp:41-52 | entry (row, col) is the number at position 3·col + row |
| UnblendingIo.JsonAsMat3 | unblending/src/unblending_io.cpp:41-52 | the nested loop fills every entry (row, col) from position 3·col + row |
| UnblendingIo.Mat3RoundTrip | unblending/src/unblending_io.cpp:14-52 | writing a matrix and reading it back gives its transpose, so a symmetric matrix comes back unchanged |
| UnblendingIo.VecxAsJson | unblending/src/unblending_io.cpp:59-67 | one number per entry, in order |
| UnblendingIo.JsonAsVec3 | unblending/src/unblending_io.cpp:54-57 | defined exactly when the array has at least three items, and then it is their numbers |
| UnblendingIo.Vec3RoundTrip | unblending/src/unblending_io.cpp:54-67 | a vector written as an array reads back unchanged |
| UnblendingIo.VarianceAsJson | unblending/src/unblending_io.cpp:27-39 | a number exactly when the covariance is a multiple of the identity, that number being sigma(0, 0); nine numbers otherwise |
| UnblendingIo.JsonAsVariance | unblending/src/unblending_io.cpp:69-85 | succeeds exactly on a number or an array of nine items; a number k reads as k·I |
| UnblendingIo.VarianceRoundTrip | unblending/src/unblending_io.cpp:27-85 | a covariance with nonzero sigma(0, 0) reads back as itself if uniform and as its transpose otherwise, so a symmetric one survives |
| UnblendingIo.UniformVarianceRoundTrip | unblending/src/unblending_io.cpp:31-33 | k·I is written as the number k and read back as k·I |
| UnblendingIo.CompOpAsJson | unblending/src/unblending_io.cpp:87-93 | "plus" exactly for plus, "source-over" exactly for source-over, "unknown" for anything else |
| UnblendingIo.CompOpFromName | unblending/src/unblending_io.cpp:186-188 | source-over exactly for the name "source-over", plus for every other name |
| UnblendingIo.CompOpRoundTrip | unblending/src/unblending_io.cpp:87-93 | source-over and plus round-trip; every other operation comes back as plus |
| UnblendingIo.BlendModeAsJson | unblending/src/unblending_io.cpp:107-110 | the mode's name, which retrieve_by_name maps back to the mode |
| UnblendingIo.ColorModelAsJson | unblending/src/unblending_io.cpp:95-105 | an object with exactly the keys primary_color and color_variance |
| UnblendingIo.LayerRecordAsJson | unblending/src/unblending_io.cpp:112-120 | an object with exactly the keys mode, color_model and comp_op |
| UnblendingIo.LayerRecordsAsJson | unblending/src/unblending_io.cpp:122-131 | one object per layer, in order |
| UnblendingIo.ImportLayerRecord | unblending/src/unblending_io.cpp:183-196 | succeeds exactly when the mode name is known, the primary colour has three items and the covariance parses; the operation is CompOpFromName of the comp_op string (so source-over or plus), the mode has the given name, mu is the primary_color read by JsonAsVec3 and sigma the color_variance read by JsonAsVariance |
| UnblendingIo.LayerRecordRoundTrip | unblending/src/unblending_io.cpp:112-120 | exporting a record with a source-over or plus operation and a symmetric covariance and importing it gives the record back |
| UnblendingIo.ImportLayerRecords | unblending/src/unblending_io.cpp:173-200 | succeeds exactly when every item imports, with one record per item in order |
| ImageProcessing.TimesIsProduct | unblending/include/unblending/image_processing.hpp:35 | the buffer size w·h spelled as repeated addition is the product |
| ImageProcessing.PixelIndexInRange | unblending/include/unblending/image_processing.hpp:38-48 | a pixel in range is stored at an index y·w + x inside the w·h buffer |
| ImageProcessing.PixelIndexInjective | unblending/include/unblending/image_processing.hpp:38-48 | two pixels in range share a storage index only when they are the same pixel |
| ImageProcessing.PixelIndexOnto | unblending/include/unblending/image_processing.hpp:38-48 | every storage index is the index of the pixel (k mod w, k div w) |
| ImageProcessing.AllPixelIndicesInRange | unblending/include/unblending/image_processing.hpp:38-48 | every pixel in range has its storage index in range |
| ImageProcessing.Crop | unblending/src/image_processing.cpp:13-17 | the template on integers, taken from the double instantiation: max(min(x, hi), lo) lies in [lo, hi] when lo ≤ hi and is x when x already does |
| ImageProcessing.CropReal | unblending/src/image_processing.cpp:13-17 | the template on doubles: the result is one of x, lo and hi, lies in [lo, hi] when lo ≤ hi and is x when x already does |
| ImageProcessing.SumDivided | unblending/src/image_processing.cpp:21-26 | dividing every entry by s divides the sum by s |
| ImageProcessing.BufferQuotient | unblending/src/image_processing.cpp:21-26 | a buffer whose every pixel was divided by s sums to the old sum divided by s |
| ImageProcessing.MaxValue | unblending/src/image_processing.cpp:31-39 | the maximum folded from −DBL_MAX is at least −DBL_MAX and every pixel, and is one of them |
| ImageProcessing.MinValue | unblending/src/image_processing.cpp:31-39 | the minimum folded from +DBL_MAX is at most +DBL_MAX and every pixel, and is one of them |
| ImageProcessing.MaxValueUnique | unblending/src/image_processing.cpp:31-39 | any value with those properties is the folded maximum, whatever the order of the fold |
| ImageProcessing.MinValueUnique | unblending/src/image_processing.cpp:31-39 | the same for the minimum |
| ImageProcessing.MaxValueOfFinite | unblending/src/image_processing.cpp:31-39 | of finite pixels, the largest is the folded maximum |
| ImageProcessing.Image.constructor | unblending/include/unblending/image_processing.hpp:33-36 | a w × h image whose every pixel is the given value |
| ImageProcessing.Image.GetPixel | unblending/include/unblending/image_processing.hpp:44-48 | pixels[y·w + x]; PixelIndexInRange and PixelIndexInjective state that each pixel has its own place in the buffer, and the constructor and SetPixel state their results through it |
| ImageProcessing.Image.SetPixel | unblending/include/unblending/image_processing.hpp:38-42 | pixel (x, y) becomes the value, every other pixel and the size stay |
| ImageProcessing.Image.Add | unblending/include/unblending/image_processing.hpp:54-64 | a new image of the same size holding per-pixel sums |
| ImageProcessing.Image.Subtract | unblending/include/unblending/image_processing.hpp:66-76 | a new image of the same size holding per-pixel differences |
| ImageProcessing.Image.Multiply | unblending/include/unblending/image_processing.hpp:78-88 | a new image of the same size holding per-pixel products |
| ImageProcessing.Image.ForceUnity | unblending/src/image_processing.cpp:19-27 | every pixel is divided by the old pixel sum, and the pixels then sum to 1 |
| ImageProcessing.Image.ScaleToUnit | unblending/src/image_processing.cpp:29-45 | every pixel p becomes (p − min) / (max − min): all pixels land in [0, 1], the maximum on 1 and the minimum on 0 |
| ImageProcessing.Image.MapRange | unblending/src/image_processing.cpp:41-44 | the second pass maps every pixel p to (p − lo) / (hi − lo) |
| ImageProcessing.Image.ScanRange | unblending/src/image_processing.cpp:31-39 | the first pass computes the folded maximum and minimum |
| ImageProcessing.Image.ScanColumn | unblending/src/image_processing.cpp:34-39 | one column folded into the running extremes bounds every pixel of the column, and a changed extreme is a pixel of it |
| ImageProcessing.Image.Fill | unblending/src/image_processing.cpp:47-50 | every pixel becomes the value and the size stays |
| ImageProcessing.RangeEndpoints | unblending/src/image_processing.cpp:43 | the two ends of the range map to 1 and 0 |
| ColorImages.ChannelToInt | unblending/src/image_processing.cpp:70-75 | the channel cropped into [0, 1] times 255, truncated: an integer in 0 .. 255, the floor inside the range, 0 below it and 255 above it |
| ColorImages.ChannelToIntOfByte | unblending/src/image_processing.cpp:70-92 | an 8-bit value k read as k / 255 is written back as k |
| ColorImages.ChannelToIntMonotone | unblending/src/image_processing.cpp:70-75 | a larger channel value never gives a smaller integer |
| ColorImages.Luminance | unblending/src/image_processing.cpp:160-161 | a gray pixel has its own value as luminance, and colours in [0, 1] give a luminance in [0, 1] |
| ColorImages.OverWhite | unblending/src/image_processing.cpp:146 | an opaque pixel keeps its colour and a transparent one turns white |
| ColorImages.OverWhiteInUnit | unblending/src/image_processing.cpp:146 | over white, values in [0, 1] stay in [0, 1] |
| ColorImages.ColorImage.constructor | unblending/include/unblending/image_processing.hpp:100-103 | a w × h image whose four channels are all 1 |
| ColorImages.ColorImage.SetChannelPixel | unblending/include/unblending/image_processing.hpp:110-116 | one value of one channel changes and nothing else |
| ColorImages.ColorImage.SetRgb | unblending/include/unblending/image_processing.hpp:107-111 | the colour at (x, y) becomes rgb; its alpha and every other pixel stay |
| ColorImages.ColorImage.SetRgba | unblending/include/unblending/image_processing.hpp:113-117 | the RGBA value at (x, y) is replaced; every other pixel stays |
| ColorImages.ColorImage.SetRgbAndAlpha | unblending/include/unblending/image_processing.hpp:119-124 | the pixel at (x, y) becomes (rgb, a); every other pixel stays |
| ColorImages.ColorImage.GetChannel | unblending/include/unblending/image_processing.hpp:154-161 | a fresh image of the same size holding channel c |
| ColorImages.ColorImage.SetChannel | unblending/include/unblending/image_processing.hpp:162-165 | channel c takes the image's pixels and the other three channels stay |
| ColorImages.ColorImage.Fill | unblending/src/image_processing.cpp:168-172 | every pixel becomes (rgb, 1) |
| ColorImages.ColorImage.FillRgba | unblending/src/image_processing.cpp:174-177 | every pixel becomes the RGBA value |
| ColorImages.ColorImage.GetColor | unblending/src/image_processing.cpp:70-75 | four integers in 0 .. 255, each the converted channel |
| ColorImages.ColorImage.RgbaBits | unblending/src/image_processing.cpp:125-139 | a buffer of 4·w·h bytes |
| ColorImages.ColorImage.RgbaBitsAt | unblending/src/image_processing.cpp:129-136 | the four bytes of pixel (x, y) at 4 (y·w + x) hold get_color's four values |
| ColorImages.ColorImage.GetRgbaBits | unblending/src/image_processing.cpp:125-139 | the loop over rows and columns fills a fresh array with exactly that buffer |
| ColorImages.ColorImage.MakeFullyOpaque | unblending/src/image_processing.cpp:141-149 | every pixel is composited over white and its alpha set to 1 |
| ColorImages.ColorImage.GetLuminance | unblending/src/image_processing.cpp:151-166 | a fresh image of the same size holding each pixel's luminance |
| ColorImages.MakeFullyOpaqueIdempotent | unblending/src/image_processing.cpp:141-149 | making a pixel fully opaque twice is the same as once |
| Convolution.Convolved | unblending/src/image_processing.cpp:193-207 | Σ kernel(kx, ky)·pixel at the clamped coordinates; ConvolvePixel states that the loop computes it, ConvolvedConstant its value on a constant image |
| Convolution.SourceIndex | unblending/src/image_processing.cpp:200-201 | the coordinate read lies in the image: the requested one inside it, the nearest edge outside it |
| Convolution.TapAt | unblending/src/image_processing.cpp:200-203 | one term is the kernel entry times the pixel at the clamped coordinates, which lies in the buffer |
| Convolution.ConvolvedConstant | unblending/src/image_processing.cpp:181-212 | convolving a constant image gives the kernel total times the constant, so the constant itself for a kernel summing to 1 |
| Convolution.RowTermsOfConstant | unblending/src/image_processing.cpp:198-204 | the inner kernel loop over a constant image is the row's entries times the constant |
| Convolution.KernelTermsOfConstant | unblending/src/image_processing.cpp:196-205 | the outer kernel loop over a constant image is the kernel's entries times the constant |
| Convolution.RowScaledIsWeight | unblending/src/image_processing.cpp:198-204 | the row's entries times v, summed in order, are the row weight times v |
| Convolution.KernelScaledIsWeight | unblending/src/image_processing.cpp:196-205 | the same for the whole kernel |
| Convolution.ConvolvePixel | unblending/src/image_processing.cpp:193-207 | the per-pixel process accumulates exactly the convolved value |
| Convolution.AccumulateRow | unblending/src/image_processing.cpp:198-204 | the inner kernel loop adds row kx's terms onto the running value |
| Convolution.ApplyConvolution | unblending/src/image_processing.cpp:181-212 | a fresh image of the same size whose every pixel is the convolved value |
| Convolution.BoxKernel | unblending/include/unblending/image_processing.hpp:228-229 | a (2r + 1) × (2r + 1) kernel whose every entry is 1 / (2r + 1)² |
| Convolution.BoxKernelTotal | unblending/include/unblending/image_processing.hpp:228-229 | the entries of a box kernel sum to 1 |
| Convolution.BoxRowWeight | unblending/include/unblending/image_processing.hpp:229 | a row of equal entries c weighs count·c |
| Convolution.BoxKernelWeight | unblending/include/unblending/image_processing.hpp:229 | a kernel of equal entries c weighs count·size·c |
| Convolution.ApplyBoxFilter | unblending/include/unblending/image_processing.hpp:224-231 | radius 0 gives a copy; a positive radius gives the convolution with the box kernel |
| Convolution.BoxFilterOfConstant | unblending/include/unblending/image_processing.hpp:224-231 | the box filter leaves a constant image unchanged |
| Unblending.Constraints | unblending/src/unblending.cpp:51-58 | the constraint vector has one entry per multiplier |
| Unblending.ObjectiveValue | unblending/src/unblending.cpp:42-88 | E − λᵀg + ½lo‖g‖²; ObjectiveAtFeasiblePoint and ObjectiveAtLeastEnergy state that it is the energy where the constraints hold and bounds it from above with zero multipliers |
| Unblending.ObjectiveGradient | unblending/src/unblending.cpp:60-75 | the gradient of the objective with the corrected energy gradient; ObjectiveGradientAtBalancedMultipliers states that it is the energy gradient where lo·g equals λ, and ObjectiveGradientAsWritten relates it entry by entry to the gradient the library computes |
| Unblending.ObjectiveGradientAsWritten | unblending/src/unblending.cpp:60-75 | the gradient objective_function writes: equal to ObjectiveGradient in the colour entries, and lower by the layer cost in each alpha entry when the minimum-alpha term is on |
| Unblending.ObjectiveGradientAsWrittenWithoutMinimumAlpha | unblending/src/unblending.cpp:60-75 | without the minimum-alpha term, as in refinement, the two gradients are equal |
| Unblending.ObjectiveGradientAsWrittenDiffers | unblending/src/unblending.cpp:60-75 | with the minimum-alpha term on, the alpha entry of a layer whose colour has nonzero cost differs between the two gradients |
| Unblending.ObjectiveAtFeasiblePoint | unblending/src/unblending.cpp:79-88 | where the constraints hold, the objective is the unmixing energy |
| Unblending.ObjectiveAtLeastEnergy | unblending/src/unblending.cpp:79-88 | with zero multipliers and lo ≥ 0 the objective is at least the energy |
| Unblending.AugmentedTermsSlope | unblending/src/unblending.cpp:75-86 | lo·g − λ is the exact slope of the Lagrange and penalty terms in each constraint entry, up to the quadratic ½·lo·t² |
| Unblending.SquaredNormUpdate | unblending/src/equations.cpp:82-86 | raising g_k by t raises ‖g‖² by 2t·g_k + t² |
| Unblending.ObjectiveGradientAtBalancedMultipliers | unblending/src/unblending.cpp:75 | where lo·g equals λ the gradient is the energy gradient |
| Unblending.ObjectiveGradientAsWrittenAtBalancedMultipliers | unblending/src/unblending.cpp:60-75 | where lo·g equals λ the library's gradient is the energy gradient as written |
| Unblending.BalancedTermVanishes | unblending/src/unblending.cpp:75 | the Jacobian applied to a zero lo·g − λ adds nothing |
| Unblending.MatVecOfZero | unblending/src/unblending.cpp:75 | a matrix applied to a zero vector, added to a, leaves a |
| Unblending.RepresentativeColors | unblending/src/unblending.cpp:121-124 | one representative colour per model |
| Unblending.InitialSolution | unblending/src/unblending.cpp:96-124 | 4N unknowns |
| Unblending.InitialSolutionShape | unblending/src/unblending.cpp:120-124 | every alpha is 0.5 and every colour its model's representative colour |
| Unblending.InitialColorsCostNothing | unblending/src/unblending.cpp:120-124 | every initial layer colour costs nothing under its own model |
| Unblending.FindInitialSolution | unblending/src/unblending.cpp:91-128 | the loop writes the initial solution |
| Unblending.ProblemBox | unblending/src/unblending.cpp:149-183 | ordered bounds of 4N entries: an opaque background pins alpha 0 to 1, a smooth background pins its colour to the target background colour, every other unknown lies in [0, 1] |
| Unblending.ProblemBoxSeed | unblending/src/unblending.cpp:152-166 | outside the pinned entries the start is the initial solution, or in refinement the target alphas then the initial colours |
| Unblending.SetUpProblem | unblending/src/unblending.cpp:149-183 | the statements that write bounds and start in place build exactly that box |
| Unblending.InitialParameterSet | unblending/src/unblending.cpp:195-218 | the loop starts from zero multipliers, one per constraint, lo = 100, the minimum-alpha term exactly outside refinement |
| Unblending.ConstraintMap | unblending/src/unblending.cpp:243 | the map has one entry per constraint and is the constraint vector on every fitting x |
| Unblending.Step | unblending/src/unblending.cpp:222-248 | one iteration keeps the state fitting, returns a point within the bounds, counts one solve and changes only λ and lo |
| Unblending.StepUpdates | unblending/src/unblending.cpp:224-248 | λ moves by −lo·g_new; lo is multiplied by β = 10 exactly when ‖g_new‖ > γ‖g‖; it stops exactly when x moved less than ε and ‖g_new‖ < ε, or the count exceeded 20 |
| Unblending.StepOutcome | unblending/src/unblending.cpp:222-248 | the step is the inner solve followed by those updates and that test |
| Unblending.RunStopsAfter | unblending/src/unblending.cpp:246-249 | where the test says stop, the loop ends with that step's state |
| Unblending.RunGoesOnAfter | unblending/src/unblending.cpp:246-250 | where it does not, the loop goes on from the updated state with the count raised by one |
| Unblending.Run | unblending/src/unblending.cpp:220-251 | the loop ends in a fitting state with the count at most 21 |
| Unblending.RunSolveCount | unblending/src/unblending.cpp:220-251 | the inner solver runs at least once and at most 22 times |
| Unblending.RunLoNeverDecreases | unblending/src/unblending.cpp:240-244 | a nonnegative penalty weight never decreases |
| Unblending.RunStaysInBounds | unblending/src/unblending.cpp:220-251 | the result lies within the bounds, for the same problem with only λ and lo changed |
| Unblending.RunMeetsConstraints | unblending/src/unblending.cpp:243-248 | unless the loop stopped on the count, the constraint vector at the result has norm below ε |
| Unblending.SolvePerPixelOptimization | unblending/src/unblending.cpp:130-251 | the result is the outer loop run from the box and the initial parameter set, and lies within the bounds |
| Unblending.OuterLoop | unblending/src/unblending.cpp:220-251 | the while loop computes the result of Run |
| Unblending.EvaluateConstraints | unblending/src/unblending.cpp:225-238 | the constraint vector at x, one entry per multiplier |
| Unblending.OuterIteration | unblending/src/unblending.cpp:222-248 | one pass of the loop body: the inner solve, the λ and lo updates and the stopping test |
| UnblendingImages.Normalized | unblending/src/unblending.cpp:286-308 | one alpha per layer; NormalizedPlusSumsToOne, NormalizedOpaqueKeeps, NormalizedTranslucentZeros, NormalizedIdempotent and NormalizedInUnit state what each branch gives |
| UnblendingImages.NormalizeAlphas | unblending/src/unblending.cpp:286-308 | the two flags folded over the comp ops select the branch of Normalized |
| UnblendingImages.EveryPlusExcludesSourceOver | unblending/src/unblending.cpp:289-297 | a non-empty stack is never both all plus and all source-over |
| UnblendingImages.NormalizedPlusSumsToOne | unblending/src/unblending.cpp:304 | a plus stack with a nonzero sum comes back divided by its sum, and sums to one |
| UnblendingImages.DivXTimes | unblending/src/unblending.cpp:304 | every entry of alphas / s times s is the entry it came from |
| UnblendingImages.NormalizedOpaqueKeeps | unblending/src/unblending.cpp:299-303 | a source-over stack whose background alpha is within 1e-05 of 1 comes back unchanged |
| UnblendingImages.NormalizedTranslucentZeros | unblending/src/unblending.cpp:303-307 | a non-empty source-over stack on a background that is not opaque comes back as zeros |
| UnblendingImages.NormalizedIdempotent | unblending/src/unblending.cpp:286-308 | normalising a normalised stack changes nothing |
| UnblendingImages.NormalizedOfUnitSum | unblending/src/unblending.cpp:304 | a plus stack that sums to one is its own normalisation |
| UnblendingImages.EntryAtMostSum | unblending/src/unblending.cpp:304 | each of a stack of nonnegative alphas is at most their sum |
| UnblendingImages.NormalizedInUnit | unblending/src/unblending.cpp:286-308 | alphas in [0, 1] stay in [0, 1] |
| UnblendingImages.NormalizedPlusCompositesOpaque | unblending/src/unblending.cpp:351 | on a plus stack the normalised alphas composite, without cropping, to an alpha of exactly 1 |
| UnblendingImages.EverySourceOverIsAllSourceOver | unblending/src/unblending.cpp:289-295 | a stack whose every comp op is source-over composites every upper layer with source-over |
| UnblendingImages.NormalizedTranslucentCompositesClear | unblending/src/unblending.cpp:303-307 | the zeroing branch as written: a source-over stack on a background that is not opaque comes back as zeros, and those composite to alpha 0, not the alpha 1 the pass at line 350 is for (see Findings) |
| UnblendingImages.NormalizedWithOpaqueBackground | unblending/src/unblending.cpp:286-308 | the corrected normalisation: equal to Normalized on every stack except a source-over stack whose background is not opaque (see Findings) |
| UnblendingImages.NormalizedWithOpaqueBackgroundCompositesOpaque | unblending/src/unblending.cpp:350-351 | on such a stack the corrected normalisation makes the background opaque, keeps every upper alpha and composites to alpha exactly 1 |
| UnblendingImages.FilterRadius | unblending/src/unblending.cpp:328 | 60·min(w, h) / 1000 in integer arithmetic, the floor of 6 % of the shorter side |
| UnblendingImages.FilterRadiusOfSmallImage | unblending/src/unblending.cpp:328 | an image shorter than 17 pixels on a side gets radius 0 |
| UnblendingImages.AlphasAt | unblending/src/unblending.cpp:354-358 | one alpha per layer at the pixel |
| UnblendingImages.CropAll | unblending/src/unblending.cpp:345-348 | every alpha cropped into [0, 1], alphas already there unchanged |
| UnblendingImages.Refined | unblending/src/unblending.cpp:342-366 | the crop then the normalisation keep one alpha per layer |
| UnblendingImages.ClampPixel | unblending/src/unblending.cpp:345-348 | every layer's alpha at (x, y) is cropped, every other pixel stays |
| UnblendingImages.ClampPass | unblending/src/unblending.cpp:342-349 | every pixel's alphas are cropped into [0, 1] |
| UnblendingImages.GatherAlphas | unblending/src/unblending.cpp:354-358 | the loop reads every layer's alpha at (x, y) |
| UnblendingImages.ScatterAlphas | unblending/src/unblending.cpp:362-365 | the loop writes the alphas at (x, y), every other pixel stays |
| UnblendingImages.NormalizePixel | unblending/src/unblending.cpp:354-365 | the alphas at (x, y) become their normalisation (kept where the source divides by zero), every other pixel stays |
| UnblendingImages.NormalizePass | unblending/src/unblending.cpp:351-366 | every pixel's alphas become their normalisation |
| UnblendingImages.ClampAndNormalize | unblending/src/unblending.cpp:342-366 | every pixel's alphas become the refined value of the filtered ones |
| UnblendingImages.RefinedInUnit | unblending/src/unblending.cpp:342-366 | whatever the filter produced, the refined alphas lie in [0, 1] |
| UnblendingImages.RefinedPlusCompositesOpaque | unblending/src/unblending.cpp:351-366 | on a plus stack whose cropped alphas are not all zero the refined alphas sum to one and composite to full opacity |
| UnblendingImages.PixelAlphas | unblending/src/unblending.cpp:473 | one alpha per layer at the pixel |
| UnblendingImages.PixelColors | unblending/src/unblending.cpp:474 | three colour values per layer at the pixel |
| UnblendingImages.GatherLayers | unblending/src/unblending.cpp:468-475 | the loop gathers every layer's alpha and colour at (x, y) |
| UnblendingImages.CompositePixel | unblending/src/unblending.cpp:468-478 | the pixel (x, y) becomes the composite of the layers there, every other pixel stays |
| UnblendingImages.CompositeColumn | unblending/src/unblending.cpp:466-479 | column x becomes the composite of the layers, every other column stays |
| UnblendingImages.CompositeImages | unblending/src/unblending.cpp:456-482 | a fresh image of the first layer's size whose every pixel is the composite of the layers' values there |
| UnblendingImages.CompositeAt | unblending/src/unblending.cpp:468-478 | composite_layers of the layers' values at (x, y), without cropping; CompositeImages states that the method fills every pixel with it, CompositeAtSingleLayer and CompositeAtOpaque its value |
| UnblendingImages.CompositeAtSingleLayer | unblending/src/unblending.cpp:456-482 | a single layer composites to its own RGBA value |
| UnblendingImages.CompositeAtOpaque | unblending/src/unblending.cpp:456-482 | source-over layers on an opaque background composite to an opaque pixel |

## Left out

- The inner L-BFGS solve of nlopt is a function parameter. It is only required to return a point within the bounds. Its local tolerance is not modelled.
- The solver's tests on Euclidean norms are stated on squared norms. For nonnegative norms this is equivalent.
- Square roots are left out: SoftLight's `sqrt(d)` branch, the gray-layer constraint and its Jacobian, `calculate_gradient_magnitude` and `calculate_difference`. Blend's SoftLight branch for s > 0.5 and d > 0.25 uses a stand-in square root, and nothing is proved about that branch.
- The sparsity term, the gray layers and every non-default compile-time branch are left out: `SPARCITY`, `SECOND_LAYER_GRAY`, `AKSOY_*`, `MATTE_ALPHA_FORCE_FIXED`, `USE_ORIGINAL_HYPERPARAMETERS` and `VERBOSE`. Only the default paths are modelled.
- `apply_guided_filter` (its 3×3 inverse included), `calculate_guided_filter_kernel`, the Sobel filters and the smoothing of the background in `perform_matte_refinement` are left out. The refinement passes start from whatever mattes the filter produced.
- The per-pixel drivers of `perform_matte_refinement` and `compute_color_unmixing` are left out, as is the timer. Their per-pixel solve, normalisation and recomposition steps are modelled.
- `parallel_for_2d` is modelled as sequential loops over x, then y. `ImageProcessingConcurrencyManager` is left out.
- File and pixel I/O is left out: `ColorImage(file_path)`, `save`, `get_scaled_image`, `export_layers`, `export_models`, `export_layer_infos`, the file read and json11 parsing in `import_layer_infos`, and `get_current_time_in_string`. JSON is a small datatype, and the importer starts from the parsed value.
- The eigen decomposition and visualisation of the colour model are left out, as are `get_sigma`/`set_sigma`. The importer keeps the covariance it read and does not invert it (`sigma.inverse()`).
- IEEE behaviour is not modelled: NaN, infinities, rounding and Eigen's fuzzy `isIdentity`. The uniform-covariance test is exact.
- BlendModes.RetrieveByName: an unknown name hits `assert(false)` in the library; here it gives None, and the importer fails on it.
- UnblendingIo.JsonAsVec3: an array of fewer than three items is read out of range by the library; here it gives None.
- UnblendingIo.JsonAsVariance: the library prints an error and exits on a malformed covariance; here it gives a failure.
- UnblendingImages.Normalized: on a plus stack whose alphas sum to zero the library divides by zero. Here that case has no value, and the normalise pass keeps the pixel's alphas.
- UnblendingImages.NormalizeAlphas: the library's assertion that the stack is all plus or all source-over is a precondition.
- UnblendingImages.Refined and UnblendingImages.ClampAndNormalize follow normalize_alphas as written (UnblendingImages.Normalized), including the zeroing branch reported under Findings. UnblendingImages.NormalizedWithOpaqueBackground is the corrected normalisation; the passes do not use it.
- UnblendingImages.ClampAndNormalize: the `refined_alphas` mattes are distinct `Image` objects. The library keeps them by value in a vector.
- UnblendingImages.CompositeImages: every layer must have the size of the first. The library reads the other layers without checking.
- Unblending.ObjectiveGradient uses the corrected energy gradient (see Findings). The gradient the library hands to L-BFGS is Unblending.ObjectiveGradientAsWritten. The inner solve is a parameter of the outer loop, so the model does not say which of the two gradients it follows.
- ConstraintJacobians.StackAlphasNonzero: the derivatives divide by the composite alpha without a guard, so the Jacobian requires that alpha to be nonzero from the second layer up.
- ColorImages.ColorImage: the four channels are pixel buffers in one object. The channel getters and setters copy whole buffers between it and `Image` objects, and `SetChannel` requires an image of the same size.
- The colour model's `std::shared_ptr` is modelled as the value it refers to during a run.

## Findings

| source | as written | input that shows it | evidently intended | confidence | as-written member | corrected member |
|---|---|---|---|---|---|---|
| unblending/src/equations.cpp:189-193 | with the minimum-alpha term on, every alpha entry of the energy gradient is set to 0.01 (`=`), which discards the layer cost the loop above stored there | one layer, alpha 1, colour (1, 0, 0) under a unit Gaussian at the origin (cost 1), minimum-alpha term on: the alpha entry is 0.01, but the energy α·1 + 0.01·α rises by 1.01 per unit of α | add 0.01 to each alpha entry (`+=`), so that the entry is the slope of the energy, which adds 0.01·Σα (line 108) | not executed | ConstraintEnergy.EnergyGradientAsWritten (counterexample in ConstraintEnergy.EnergyGradientAsWrittenIsNotSlope); in the objective, Unblending.ObjectiveGradientAsWritten (alpha entries lower by the layer cost, Unblending.ObjectiveGradientAsWrittenDiffers) | ConstraintEnergy.EnergyGradient (slope proved in ConstraintEnergy.EnergyGradientIsAlphaSlope); in the objective, Unblending.ObjectiveGradient |
| unblending/src/unblending.cpp:303-307 | the last branch of normalize_alphas, which its comment says is never reached, is taken by every source-over stack whose background alpha is not within 1e-05 of 1; it returns zeros, so perform_matte_refinement (lines 350-366) clears every layer's alpha at that pixel | perform_matte_refinement called with has_opaque_background = false on two source-over layers, at a pixel whose filtered alphas are (0.5, 0.5): both become 0 and the pixel composites to alpha 0 | the pass is there to make every pixel composite to alpha one (comment at line 350): give the stack an opaque background and keep the upper alphas, which composites to alpha 1 | not executed; low: the command-line and GUI front ends pass has_opaque_background = true, which pins the background alpha to 1 before the guided filter, and the guided filter is not part of this model | UnblendingImages.Normalized (zeros in UnblendingImages.NormalizedTranslucentZeros, alpha 0 in UnblendingImages.NormalizedTranslucentCompositesClear) | UnblendingImages.NormalizedWithOpaqueBackground (alpha 1 in UnblendingImages.NormalizedWithOpaqueBackgroundCompositesOpaque) |
