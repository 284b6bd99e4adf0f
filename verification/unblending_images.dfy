/**
  * The image-level steps of unblending.cpp around the per-pixel solver:
  * normalize_alphas, the clamp and normalise passes that
  * perform_matte_refinement runs over the per-layer alpha mattes, the
  * radius of its guided filter, and composite_layers over whole ColorImage
  * layers.
  *
  * A matte (one entry of refined_alphas) is an Image; the mattes of all
  * layers are distinct objects of the image's size, and a pass rewrites
  * them pixel by pixel as the source does.
  */
module UnblendingImages {
  import opened Wrappers
  import opened LinearAlgebra
  import opened Common
  import opened CompOps
  import opened BlendModes
  import opened Compositing
  import opened ImageProcessing
  import opened ColorImages

  // ---------------------------------------------------------------------
  // normalize_alphas
  // ---------------------------------------------------------------------

  /** How far alphas(0) may be from 1 for the background to count as opaque (1e-05). */
  const OpaqueEpsilon: real := 0.00001

  /** Every comp op of the stack, the background's included, is plus. */
  predicate EveryPlus(ops: seq<CompOp>)
  {
    forall i :: 0 <= i < |ops| ==> ops[i].IsPlus()
  }

  /** Every comp op of the stack, the background's included, is source-over. */
  predicate EverySourceOver(ops: seq<CompOp>)
  {
    forall i :: 0 <= i < |ops| ==> ops[i].IsSourceOver()
  }

  /** std::abs(alphas(0) - 1.0) < epsilon */
  predicate OpaqueBackground(alphas: seq<real>)
    requires 1 <= |alphas|
  {
    -OpaqueEpsilon < alphas[0] - 1.0 < OpaqueEpsilon
  }

  /** alphas / s, entry by entry. */
  function DivX(a: seq<real>, s: real): (r: seq<real>)
    requires s != 0.0
    ensures |r| == |a|
  {
    seq(|a|, k requires 0 <= k < |a| => a[k] / s)
  }

  /**
    * What normalize_alphas returns. A plus stack whose alphas sum to zero
    * makes the source divide by zero; the model has no value there.
    */
  function Normalized(alphas: seq<real>, ops: seq<CompOp>): (r: Option<seq<real>>)
    requires 1 <= |alphas| && (EveryPlus(ops) || EverySourceOver(ops))
    ensures r.Some? ==> |r.value| == |alphas|
  {
    if EverySourceOver(ops) && OpaqueBackground(alphas) then Some(alphas)
    else if EveryPlus(ops) then
      var s := Sum(alphas);
      if s == 0.0 then None else Some(DivX(alphas, s))
    else Some(Zeros(|alphas|))
  }

  /**
    * normalize_alphas: the two flags are folded over every comp op, the
    * assertion that the stack is all plus or all source-over becomes the
    * precondition, and the branches follow.
    */
  method NormalizeAlphas(alphas: seq<real>, ops: seq<CompOp>) returns (r: Option<seq<real>>)
    requires 1 <= |alphas| && (EveryPlus(ops) || EverySourceOver(ops))
    ensures r == Normalized(alphas, ops)
  {
    var isAllPlus, isAllSourceOver := true, true;
    for i := 0 to |ops|
      invariant isAllPlus == EveryPlus(ops[..i])
      invariant isAllSourceOver == EverySourceOver(ops[..i])
    {
      assert ops[..i + 1] == ops[..i] + [ops[i]];
      isAllPlus := isAllPlus && ops[i].IsPlus();
      isAllSourceOver := isAllSourceOver && ops[i].IsSourceOver();
    }
    assert ops[..|ops|] == ops;
    var hasOpaqueBackground := -OpaqueEpsilon < alphas[0] - 1.0 < OpaqueEpsilon;
    if isAllSourceOver && hasOpaqueBackground {
      return Some(alphas);
    }
    if isAllPlus {
      var s := Sum(alphas);
      if s == 0.0 {
        return None;
      }
      return Some(DivX(alphas, s));
    }
    return Some(Zeros(|alphas|));
  }

  /** A non-empty stack is never both all plus and all source-over. */
  lemma EveryPlusExcludesSourceOver(ops: seq<CompOp>)
    requires 1 <= |ops| && EveryPlus(ops)
    ensures !EverySourceOver(ops)
  {
    SourceOverAndPlusExclusive(ops[0]);
  }

  /**
    * A plus stack with a nonzero sum comes back divided by its sum: the
    * result sums to one, and multiplying it back by the sum gives the alphas.
    */
  lemma NormalizedPlusSumsToOne(alphas: seq<real>, ops: seq<CompOp>)
    requires 1 <= |alphas| && 1 <= |ops| && EveryPlus(ops) && Sum(alphas) != 0.0
    ensures Normalized(alphas, ops) == Some(DivX(alphas, Sum(alphas)))
    ensures Sum(DivX(alphas, Sum(alphas))) == 1.0
    ensures forall k :: 0 <= k < |alphas| ==> DivX(alphas, Sum(alphas))[k] * Sum(alphas) == alphas[k]
  {
    EveryPlusExcludesSourceOver(ops);
    DivXSumsToOne(alphas);
    DivXTimes(alphas, Sum(alphas));
  }

  /** Dividing by a nonzero sum gives entries that sum to one. */
  lemma DivXSumsToOne(a: seq<real>)
    requires Sum(a) != 0.0
    ensures Sum(DivX(a, Sum(a))) == 1.0
  {
    SumDivided(a, DivX(a, Sum(a)), Sum(a));
    SelfQuotient(Sum(a));
  }

  /** Every entry of alphas / s, multiplied back by s, is the entry it came from. */
  lemma DivXTimes(a: seq<real>, s: real)
    requires s != 0.0
    ensures forall k :: 0 <= k < |a| ==> DivX(a, s)[k] * s == a[k]
  {
    var r := DivX(a, s);
    forall k | 0 <= k < |a|
      ensures r[k] * s == a[k]
    {
      QuotientTimes(a[k], s, r[k]);
    }
  }

  lemma QuotientTimes(p: real, q: real, d: real)
    requires q != 0.0 && d == p / q
    ensures d * q == p
  {
  }

  lemma SelfQuotient(q: real)
    requires q != 0.0
    ensures q / q == 1.0
  {
  }

  /** A source-over stack on an opaque background comes back as it is. */
  lemma NormalizedOpaqueKeeps(alphas: seq<real>, ops: seq<CompOp>)
    requires 1 <= |alphas| && EverySourceOver(ops) && OpaqueBackground(alphas)
    ensures Normalized(alphas, ops) == Some(alphas)
  {
  }

  /** A source-over stack on a background that is not opaque comes back as zeros. */
  lemma NormalizedTranslucentZeros(alphas: seq<real>, ops: seq<CompOp>)
    requires 1 <= |alphas| && 1 <= |ops| && EverySourceOver(ops) && !OpaqueBackground(alphas)
    ensures Normalized(alphas, ops) == Some(Zeros(|alphas|))
  {
    if EveryPlus(ops) {
      EveryPlusExcludesSourceOver(ops);
    }
  }

  /** Normalising a normalised stack changes nothing. */
  lemma NormalizedIdempotent(alphas: seq<real>, ops: seq<CompOp>)
    requires 1 <= |alphas| && (EveryPlus(ops) || EverySourceOver(ops))
    requires Normalized(alphas, ops).Some?
    ensures Normalized(Normalized(alphas, ops).value, ops) == Normalized(alphas, ops)
  {
    if EverySourceOver(ops) && OpaqueBackground(alphas) {
    } else if EveryPlus(ops) {
      var r := DivX(alphas, Sum(alphas));
      SumDivided(alphas, r, Sum(alphas));
      SelfQuotient(Sum(alphas));
      NormalizedOfUnitSum(r, ops);
    } else {
      NormalizedOfZeros(|alphas|, ops);
    }
  }

  /** A plus stack that already sums to one is its own normalisation. */
  lemma NormalizedOfUnitSum(r: seq<real>, ops: seq<CompOp>)
    requires 1 <= |r| && EveryPlus(ops) && Sum(r) == 1.0
    ensures Normalized(r, ops) == Some(r)
  {
    if !(EverySourceOver(ops) && OpaqueBackground(r)) {
      assert DivX(r, 1.0) == r;
    }
  }

  /** Zeros are their own normalisation on a source-over stack. */
  lemma NormalizedOfZeros(n: nat, ops: seq<CompOp>)
    requires 1 <= n && EverySourceOver(ops) && !EveryPlus(ops)
    ensures Normalized(Zeros(n), ops) == Some(Zeros(n))
  {
    assert Zeros(n)[0] == 0.0;
  }

  /** Each entry of a stack of non-negative alphas is at most their sum. */
  lemma {:induction false} EntryAtMostSum(alphas: seq<real>, k: nat)
    requires k < |alphas| && forall i :: 0 <= i < |alphas| ==> 0.0 <= alphas[i]
    ensures alphas[k] <= Sum(alphas)
  {
    var n := |alphas| - 1;
    if k < n {
      EntryAtMostSum(alphas[..n], k);
    } else {
      SumNonnegative(alphas[..n]);
    }
  }

  /** Normalising alphas that lie in [0, 1] keeps them in [0, 1]. */
  lemma NormalizedInUnit(alphas: seq<real>, ops: seq<CompOp>)
    requires 1 <= |alphas| && (EveryPlus(ops) || EverySourceOver(ops))
    requires AlphasInUnit(alphas) && Normalized(alphas, ops).Some?
    ensures AlphasInUnit(Normalized(alphas, ops).value)
  {
    if !(EverySourceOver(ops) && OpaqueBackground(alphas)) && EveryPlus(ops) {
      var s := Sum(alphas);
      var r := DivX(alphas, s);
      SumNonnegative(alphas);
      forall k | 0 <= k < |alphas|
        ensures 0.0 <= r[k] <= 1.0
      {
        EntryAtMostSum(alphas, k);
        UnitQuotient(alphas[k], s);
      }
    }
  }

  /**
    * The purpose of the normalisation: the normalised alphas of a plus
    * stack composite, without cropping, to a fully opaque pixel.
    */
  lemma NormalizedPlusCompositesOpaque(alphas: seq<real>, colors: seq<real>, ops: seq<CompOp>, modes: seq<BlendMode>)
    requires WellFormedStack(alphas, colors, ops, modes) && EveryPlus(ops) && Sum(alphas) != 0.0
    ensures Normalized(alphas, ops).Some?
    ensures var r := Normalized(alphas, ops).value;
            CompositePrefix(r, colors, ops, modes, false, |r|).w == 1.0
  {
    NormalizedPlusSumsToOne(alphas, ops);
    var r := Normalized(alphas, ops).value;
    assert AllPlus(ops) by {
      forall i | 1 <= i < |ops|
        ensures ops[i] == Plus()
      {
        assert ops[i].IsPlus();
      }
    }
    AllPlusSum(r, colors, ops, modes, |r|);
    assert r[..|r|] == r;
  }

  /** Every comp op source-over: in particular every layer above the background. */
  lemma EverySourceOverIsAllSourceOver(ops: seq<CompOp>)
    requires EverySourceOver(ops)
    ensures AllSourceOver(ops)
  {
    forall i | 1 <= i < |ops|
      ensures ops[i] == SourceOver()
    {
      assert ops[i].IsSourceOver();
    }
  }

  /**
    * The zeroing branch at a pixel: a source-over stack on a background
    * that is not opaque comes back as zeros, which composite to a fully
    * transparent pixel rather than the opaque one the pass is for.
    */
  lemma NormalizedTranslucentCompositesClear(alphas: seq<real>, colors: seq<real>, ops: seq<CompOp>, modes: seq<BlendMode>)
    requires WellFormedStack(alphas, colors, ops, modes) && EverySourceOver(ops) && !OpaqueBackground(alphas)
    ensures Normalized(alphas, ops) == Some(Zeros(|alphas|))
    ensures CompositePrefix(Zeros(|alphas|), colors, ops, modes, false, |alphas|).w == 0.0
  {
    NormalizedTranslucentZeros(alphas, ops);
    EverySourceOverIsAllSourceOver(ops);
    AllOverClear(Zeros(|alphas|), colors, ops, modes, false, |alphas|);
  }

  /**
    * normalize_alphas with its last branch doing what the pass is for: a
    * source-over stack on a background that is not opaque gets an opaque
    * background and keeps the alphas above it. Every other stack is
    * normalised as Normalized does.
    */
  function NormalizedWithOpaqueBackground(alphas: seq<real>, ops: seq<CompOp>): (r: Option<seq<real>>)
    requires 1 <= |alphas| && (EveryPlus(ops) || EverySourceOver(ops))
    ensures r.Some? ==> |r.value| == |alphas|
    ensures !(EverySourceOver(ops) && !OpaqueBackground(alphas)) ==> r == Normalized(alphas, ops)
  {
    if EverySourceOver(ops) && !OpaqueBackground(alphas) then Some(alphas[0 := 1.0])
    else Normalized(alphas, ops)
  }

  /**
    * The corrected branch: the background becomes opaque, the layers above
    * keep their alphas, and the stack composites to a fully opaque pixel.
    */
  lemma NormalizedWithOpaqueBackgroundCompositesOpaque(alphas: seq<real>, colors: seq<real>, ops: seq<CompOp>,
                                                       modes: seq<BlendMode>)
    requires WellFormedStack(alphas, colors, ops, modes) && EverySourceOver(ops) && !OpaqueBackground(alphas)
    ensures NormalizedWithOpaqueBackground(alphas, ops).Some?
    ensures var r := NormalizedWithOpaqueBackground(alphas, ops).value;
            r[0] == 1.0 && (forall i :: 1 <= i < |alphas| ==> r[i] == alphas[i])
            && CompositePrefix(r, colors, ops, modes, false, |r|).w == 1.0
  {
    var r := alphas[0 := 1.0];
    EverySourceOverIsAllSourceOver(ops);
    AllOverOpaque(r, colors, ops, modes, false, |r|);
  }

  // ---------------------------------------------------------------------
  // perform_matte_refinement: the radius and the two passes
  // ---------------------------------------------------------------------

  /** 60 * std::min(width, height) / 1000 in integer arithmetic: 6% of the shorter side, rounded down. */
  function FilterRadius(width: nat, height: nat): (radius: nat)
    ensures var shorter := if width < height then width else height;
            1000 * radius <= 60 * shorter < 1000 * (radius + 1)
  {
    60 * (if width < height then width else height) / 1000
  }

  /** No radius at all for an image shorter than 17 pixels on a side. */
  lemma FilterRadiusOfSmallImage(width: nat, height: nat)
    requires width < 17 || height < 17
    ensures FilterRadius(width, height) == 0
  {
  }

  /** refined_alphas: one matte per layer, each of the image's size. */
  predicate Mattes(alphas: seq<Image>, width: nat, height: nat)
    reads set i | 0 <= i < |alphas| :: alphas[i]
  {
    forall i :: 0 <= i < |alphas| ==> alphas[i].Valid() && alphas[i].width == width && alphas[i].height == height
  }

  /** No two layers share a matte: the source keeps the mattes by value. */
  predicate Distinct(alphas: seq<Image>)
  {
    forall i, j :: 0 <= i < j < |alphas| ==> alphas[i] != alphas[j]
  }

  /** The alphas of all layers at pixel (x, y), in layer order. */
  function AlphasAt(alphas: seq<Image>, width: nat, height: nat, x: nat, y: nat): (v: seq<real>)
    reads set i | 0 <= i < |alphas| :: alphas[i]
    requires Mattes(alphas, width, height) && x < width && y < height
    ensures |v| == |alphas|
  {
    seq(|alphas|, i requires 0 <= i < |alphas| && alphas[i].Valid() && x < alphas[i].width && y < alphas[i].height
                    reads set j | 0 <= j < |alphas| :: alphas[j] => alphas[i].GetPixel(x, y))
  }

  /** crop_value applied to every alpha of a pixel. */
  function CropAll(v: seq<real>): (r: seq<real>)
    ensures |r| == |v| && AlphasInUnit(r)
    ensures AlphasInUnit(v) ==> r == v
  {
    seq(|v|, k requires 0 <= k < |v| => CropValue(v[k]))
  }

  /** What the normalise pass leaves at a pixel: the normalised alphas, or the alphas as they were where the source divides by zero. */
  function NormalizedOrKept(v: seq<real>, ops: seq<CompOp>): seq<real>
    requires 1 <= |v| && (EveryPlus(ops) || EverySourceOver(ops))
  {
    match Normalized(v, ops)
    case Some(w) => w
    case None => v
  }

  /** The alphas refinement leaves at a pixel whose filtered alphas were v. */
  function Refined(v: seq<real>, ops: seq<CompOp>): (r: seq<real>)
    requires 1 <= |v| && (EveryPlus(ops) || EverySourceOver(ops))
    ensures |r| == |v|
  {
    NormalizedOrKept(CropAll(v), ops)
  }

  /** One pixel of the clamp pass: every layer's alpha at (x, y) is cropped into [0, 1]. */
  method ClampPixel(alphas: seq<Image>, width: nat, height: nat, x: nat, y: nat)
    requires Mattes(alphas, width, height) && x < width && y < height
    requires Distinct(alphas)
    modifies set i | 0 <= i < |alphas| :: alphas[i]
    ensures Mattes(alphas, width, height)
    ensures AlphasAt(alphas, width, height, x, y) == CropAll(old(AlphasAt(alphas, width, height, x, y)))
    ensures forall x': nat, y': nat :: x' < width && y' < height && (x' != x || y' != y)
              ==> AlphasAt(alphas, width, height, x', y') == old(AlphasAt(alphas, width, height, x', y'))
  {
    ghost var before := AlphasAt(alphas, width, height, x, y);
    for i := 0 to |alphas|
      invariant Mattes(alphas, width, height)
      invariant forall j :: 0 <= j < |alphas|
                  ==> alphas[j].GetPixel(x, y) == if j < i then CropValue(before[j]) else before[j]
      invariant forall j, x': nat, y': nat :: 0 <= j < |alphas| && x' < width && y' < height && (x' != x || y' != y)
                  ==> alphas[j].GetPixel(x', y') == old(alphas[j].GetPixel(x', y'))
    {
      alphas[i].SetPixel(x, y, CropValue(alphas[i].GetPixel(x, y)));
    }
  }

  /** The clamp pass: for x, for y, every layer's alpha is cropped into [0, 1]. */
  method ClampPass(alphas: seq<Image>, width: nat, height: nat)
    requires Mattes(alphas, width, height)
    requires Distinct(alphas)
    modifies set i | 0 <= i < |alphas| :: alphas[i]
    ensures Mattes(alphas, width, height)
    ensures forall x: nat, y: nat :: x < width && y < height
              ==> AlphasAt(alphas, width, height, x, y) == CropAll(old(AlphasAt(alphas, width, height, x, y)))
  {
    for x := 0 to width
      invariant Mattes(alphas, width, height)
      invariant forall x': nat, y': nat :: x' < width && y' < height
                  ==> AlphasAt(alphas, width, height, x', y')
                      == if x' < x then CropAll(old(AlphasAt(alphas, width, height, x', y')))
                         else old(AlphasAt(alphas, width, height, x', y'))
    {
      for y := 0 to height
        invariant Mattes(alphas, width, height)
        invariant forall x': nat, y': nat :: x' < width && y' < height
                    ==> AlphasAt(alphas, width, height, x', y')
                        == if x' < x || (x' == x && y' < y) then CropAll(old(AlphasAt(alphas, width, height, x', y')))
                           else old(AlphasAt(alphas, width, height, x', y'))
      {
        ClampPixel(alphas, width, height, x, y);
      }
    }
  }

  /** The gathering loop: alphas(i) = refined_alphas[i].get_pixel(x, y). */
  method GatherAlphas(alphas: seq<Image>, width: nat, height: nat, x: nat, y: nat) returns (v: seq<real>)
    requires Mattes(alphas, width, height) && x < width && y < height
    ensures v == AlphasAt(alphas, width, height, x, y)
  {
    v := Zeros(|alphas|);
    for i := 0 to |alphas|
      invariant |v| == |alphas|
      invariant forall j :: 0 <= j < i ==> v[j] == alphas[j].GetPixel(x, y)
    {
      v := v[i := alphas[i].GetPixel(x, y)];
    }
  }

  /** The writing loop: refined_alphas[i].set_pixel(x, y, v(i)) for every layer. */
  method ScatterAlphas(alphas: seq<Image>, width: nat, height: nat, x: nat, y: nat, v: seq<real>)
    requires Mattes(alphas, width, height) && x < width && y < height && |v| == |alphas|
    requires Distinct(alphas)
    modifies set i | 0 <= i < |alphas| :: alphas[i]
    ensures Mattes(alphas, width, height)
    ensures AlphasAt(alphas, width, height, x, y) == v
    ensures forall x': nat, y': nat :: x' < width && y' < height && (x' != x || y' != y)
              ==> AlphasAt(alphas, width, height, x', y') == old(AlphasAt(alphas, width, height, x', y'))
  {
    for i := 0 to |alphas|
      invariant Mattes(alphas, width, height)
      invariant forall j :: 0 <= j < i ==> alphas[j].GetPixel(x, y) == v[j]
      invariant forall j, x': nat, y': nat :: 0 <= j < |alphas| && x' < width && y' < height && (x' != x || y' != y)
                  ==> alphas[j].GetPixel(x', y') == old(alphas[j].GetPixel(x', y'))
    {
      alphas[i].SetPixel(x, y, v[i]);
    }
  }

  /** One pixel of the normalise pass: gather, normalize_alphas, write back. */
  method NormalizePixel(alphas: seq<Image>, ops: seq<CompOp>, width: nat, height: nat, x: nat, y: nat)
    requires Mattes(alphas, width, height) && x < width && y < height
    requires 1 <= |alphas| && (EveryPlus(ops) || EverySourceOver(ops))
    requires Distinct(alphas)
    modifies set i | 0 <= i < |alphas| :: alphas[i]
    ensures Mattes(alphas, width, height)
    ensures AlphasAt(alphas, width, height, x, y) == NormalizedOrKept(old(AlphasAt(alphas, width, height, x, y)), ops)
    ensures forall x': nat, y': nat :: x' < width && y' < height && (x' != x || y' != y)
              ==> AlphasAt(alphas, width, height, x', y') == old(AlphasAt(alphas, width, height, x', y'))
  {
    var v := GatherAlphas(alphas, width, height, x, y);
    var r := NormalizeAlphas(v, ops);
    if r.Some? {
      ScatterAlphas(alphas, width, height, x, y, r.value);
    }
  }

  /** The normalise pass: for x, for y, the alphas of the pixel are replaced by their normalisation. */
  method NormalizePass(alphas: seq<Image>, ops: seq<CompOp>, width: nat, height: nat)
    requires Mattes(alphas, width, height)
    requires 1 <= |alphas| && (EveryPlus(ops) || EverySourceOver(ops))
    requires Distinct(alphas)
    modifies set i | 0 <= i < |alphas| :: alphas[i]
    ensures Mattes(alphas, width, height)
    ensures forall x: nat, y: nat :: x < width && y < height
              ==> AlphasAt(alphas, width, height, x, y) == NormalizedOrKept(old(AlphasAt(alphas, width, height, x, y)), ops)
  {
    for x := 0 to width
      invariant Mattes(alphas, width, height)
      invariant forall x': nat, y': nat :: x' < width && y' < height
                  ==> AlphasAt(alphas, width, height, x', y')
                      == if x' < x then NormalizedOrKept(old(AlphasAt(alphas, width, height, x', y')), ops)
                         else old(AlphasAt(alphas, width, height, x', y'))
    {
      for y := 0 to height
        invariant Mattes(alphas, width, height)
        invariant forall x': nat, y': nat :: x' < width && y' < height
                    ==> AlphasAt(alphas, width, height, x', y')
                        == if x' < x || (x' == x && y' < y) then NormalizedOrKept(old(AlphasAt(alphas, width, height, x', y')), ops)
                           else old(AlphasAt(alphas, width, height, x', y'))
      {
        NormalizePixel(alphas, ops, width, height, x, y);
      }
    }
  }

  /** The clamp pass followed by the normalise pass, on the filtered mattes. */
  method ClampAndNormalize(alphas: seq<Image>, ops: seq<CompOp>, width: nat, height: nat)
    requires Mattes(alphas, width, height)
    requires 1 <= |alphas| && (EveryPlus(ops) || EverySourceOver(ops))
    requires Distinct(alphas)
    modifies set i | 0 <= i < |alphas| :: alphas[i]
    ensures Mattes(alphas, width, height)
    ensures forall x: nat, y: nat :: x < width && y < height
              ==> AlphasAt(alphas, width, height, x, y) == Refined(old(AlphasAt(alphas, width, height, x, y)), ops)
  {
    ClampPass(alphas, width, height);
    NormalizePass(alphas, ops, width, height);
  }

  /** Whatever the filter produced, the refined alphas of every pixel lie in [0, 1]. */
  lemma RefinedInUnit(v: seq<real>, ops: seq<CompOp>)
    requires 1 <= |v| && (EveryPlus(ops) || EverySourceOver(ops))
    ensures AlphasInUnit(Refined(v, ops))
  {
    var c := CropAll(v);
    if Normalized(c, ops).Some? {
      NormalizedInUnit(c, ops);
    }
  }

  /**
    * On a plus stack the refined alphas of a pixel whose cropped alphas are
    * not all zero sum to one, so the pixel composites to full opacity.
    */
  lemma RefinedPlusCompositesOpaque(v: seq<real>, colors: seq<real>, ops: seq<CompOp>, modes: seq<BlendMode>)
    requires WellFormedStack(v, colors, ops, modes) && EveryPlus(ops) && Sum(CropAll(v)) != 0.0
    ensures Sum(Refined(v, ops)) == 1.0
    ensures CompositePrefix(Refined(v, ops), colors, ops, modes, false, |v|).w == 1.0
  {
    var c := CropAll(v);
    NormalizedPlusSumsToOne(c, ops);
    NormalizedPlusCompositesOpaque(c, colors, ops, modes);
  }

  // ---------------------------------------------------------------------
  // composite_layers over images
  // ---------------------------------------------------------------------

  /** The layers composite_layers reads: at least one, all valid and of the first layer's size. */
  predicate SameSizeLayers(layers: seq<ColorImage>)
    reads set i | 0 <= i < |layers| :: layers[i]
  {
    1 <= |layers|
    && forall i :: 0 <= i < |layers|
         ==> layers[i].Valid() && layers[i].width == layers[0].width && layers[i].height == layers[0].height
  }

  /** alphas(index) = layers[index].get_rgba(x, y)(3) for every layer. */
  function PixelAlphas(layers: seq<ColorImage>, x: nat, y: nat): (v: seq<real>)
    reads set i | 0 <= i < |layers| :: layers[i]
    requires SameSizeLayers(layers) && x < layers[0].width && y < layers[0].height
    ensures |v| == |layers|
  {
    seq(|layers|, i requires 0 <= i < |layers| && layers[i].Valid() && x < layers[i].width && y < layers[i].height
                    reads set j | 0 <= j < |layers| :: layers[j] => layers[i].GetRgba(x, y).w)
  }

  /** The colours of every layer at (x, y), one after another. */
  function PixelColors(layers: seq<ColorImage>, x: nat, y: nat): (v: seq<real>)
    reads set i | 0 <= i < |layers| :: layers[i]
    requires SameSizeLayers(layers) && x < layers[0].width && y < layers[0].height
    ensures |v| == 3 * |layers|
  {
    Flatten(seq(|layers|, i requires 0 <= i < |layers| && layers[i].Valid() && x < layers[i].width && y < layers[i].height
                            reads set j | 0 <= j < |layers| :: layers[j] => layers[i].GetRgb(x, y)))
  }

  /** The per-pixel gathering loop of composite_layers. */
  method GatherLayers(layers: seq<ColorImage>, x: nat, y: nat) returns (alphas: seq<real>, colors: seq<real>)
    requires SameSizeLayers(layers) && x < layers[0].width && y < layers[0].height
    ensures alphas == PixelAlphas(layers, x, y) && colors == PixelColors(layers, x, y)
  {
    var number := |layers|;
    alphas := Zeros(number);
    colors := Zeros(3 * number);
    for index := 0 to number
      invariant |alphas| == number && |colors| == 3 * number
      invariant forall j :: 0 <= j < index ==> alphas[j] == layers[j].GetRgba(x, y).w
      invariant forall j, c :: 0 <= j < index && 0 <= c < 3 ==> colors[3 * j + c] == layers[j].GetRgb(x, y).At(c)
    {
      alphas := alphas[index := layers[index].GetRgba(x, y).w];
      var rgb := layers[index].GetRgb(x, y);
      colors := colors[3 * index := rgb.x][3 * index + 1 := rgb.y][3 * index + 2 := rgb.z];
    }
    ghost var rgbs := seq(number, i requires 0 <= i < number && layers[i].Valid() && x < layers[i].width && y < layers[i].height
                                    reads set j | 0 <= j < |layers| :: layers[j] => layers[i].GetRgb(x, y));
    forall k | 0 <= k < 3 * number
      ensures colors[k] == Flatten(rgbs)[k]
    {
      var j, c := k / 3, k % 3;
      assert k == 3 * j + c;
      FlattenAt(rgbs, j, c);
    }
  }

  /** The composite of the layers' values at (x, y), as composite_layers computes it without cropping. */
  function CompositeAt(layers: seq<ColorImage>, ops: seq<CompOp>, modes: seq<BlendMode>, x: nat, y: nat): Vec4
    reads set i | 0 <= i < |layers| :: layers[i]
    requires SameSizeLayers(layers) && |ops| == |layers| && |modes| == |layers|
    requires x < layers[0].width && y < layers[0].height
  {
    CompositePrefix(PixelAlphas(layers, x, y), PixelColors(layers, x, y), ops, modes, false, |layers|)
  }

  /** One pixel of composite_layers over images: gather, composite, set_rgba. */
  method CompositePixel(image: ColorImage, layers: seq<ColorImage>, ops: seq<CompOp>, modes: seq<BlendMode>, x: nat, y: nat)
    requires SameSizeLayers(layers) && |ops| == |layers| && |modes| == |layers|
    requires image.Valid() && image.width == layers[0].width && image.height == layers[0].height
    requires x < image.width && y < image.height
    requires forall i :: 0 <= i < |layers| ==> layers[i] != image
    modifies image
    ensures image.Valid() && image.width == old(image.width) && image.height == old(image.height)
    ensures image.GetRgba(x, y) == old(CompositeAt(layers, ops, modes, x, y))
    ensures forall x': nat, y': nat :: x' < image.width && y' < image.height && (x' != x || y' != y)
              ==> image.GetRgba(x', y') == old(image.GetRgba(x', y'))
  {
    var alphas, colors := GatherLayers(layers, x, y);
    var composited := CompositeLayers(alphas, colors, ops, modes, false);
    image.SetRgba(x, y, composited);
  }

  /** The inner loop of composite_layers over images: column x is composited, every other column stays. */
  method CompositeColumn(image: ColorImage, layers: seq<ColorImage>, ops: seq<CompOp>, modes: seq<BlendMode>, x: nat)
    requires SameSizeLayers(layers) && |ops| == |layers| && |modes| == |layers|
    requires image.Valid() && image.width == layers[0].width && image.height == layers[0].height
    requires x < image.width
    requires forall i :: 0 <= i < |layers| ==> layers[i] != image
    modifies image
    ensures image.Valid() && image.width == old(image.width) && image.height == old(image.height)
    ensures forall y: nat :: y < image.height ==> image.GetRgba(x, y) == old(CompositeAt(layers, ops, modes, x, y))
    ensures forall x': nat, y: nat :: x' < image.width && y < image.height && x' != x
              ==> image.GetRgba(x', y) == old(image.GetRgba(x', y))
  {
    for y := 0 to image.height
      invariant image.Valid() && image.width == old(image.width) && image.height == old(image.height)
      invariant forall y': nat :: y' < y ==> image.GetRgba(x, y') == old(CompositeAt(layers, ops, modes, x, y'))
      invariant forall x': nat, y': nat :: x' < image.width && y' < image.height && x' != x
                  ==> image.GetRgba(x', y') == old(image.GetRgba(x', y'))
    {
      CompositePixel(image, layers, ops, modes, x, y);
    }
  }

  /** composite_layers over images: every pixel of the result is the composite of the layers' values there. */
  method CompositeImages(layers: seq<ColorImage>, ops: seq<CompOp>, modes: seq<BlendMode>) returns (image: ColorImage)
    requires SameSizeLayers(layers) && |ops| == |layers| && |modes| == |layers|
    ensures fresh(image) && image.Valid()
    ensures image.width == layers[0].width && image.height == layers[0].height
    ensures forall x: nat, y: nat :: x < image.width && y < image.height
              ==> image.GetRgba(x, y) == CompositeAt(layers, ops, modes, x, y)
  {
    var width, height := layers[0].width, layers[0].height;
    image := new ColorImage(width, height);
    for x := 0 to width
      invariant fresh(image) && image.Valid() && image.width == width && image.height == height
      invariant forall x': nat, y': nat :: x' < x && y' < height
                  ==> image.GetRgba(x', y') == old(CompositeAt(layers, ops, modes, x', y'))
    {
      CompositeColumn(image, layers, ops, modes, x);
    }
  }

  /** A single layer composites to its own RGBA value. */
  lemma CompositeAtSingleLayer(layers: seq<ColorImage>, ops: seq<CompOp>, modes: seq<BlendMode>, x: nat, y: nat)
    requires SameSizeLayers(layers) && |layers| == 1 && |ops| == 1 && |modes| == 1
    requires x < layers[0].width && y < layers[0].height
    ensures CompositeAt(layers, ops, modes, x, y) == layers[0].GetRgba(x, y)
  {
    var rgbs := seq(1, i requires 0 <= i < 1 && layers[i].Valid() && x < layers[i].width && y < layers[i].height
                          reads set j | 0 <= j < |layers| :: layers[j] => layers[i].GetRgb(x, y));
    FlattenAt(rgbs, 0, 0);
    FlattenAt(rgbs, 0, 1);
    FlattenAt(rgbs, 0, 2);
  }

  /** Source-over layers above an opaque background composite to an opaque pixel. */
  lemma CompositeAtOpaque(layers: seq<ColorImage>, ops: seq<CompOp>, modes: seq<BlendMode>, x: nat, y: nat)
    requires SameSizeLayers(layers) && |ops| == |layers| && |modes| == |layers|
    requires x < layers[0].width && y < layers[0].height
    requires AllSourceOver(ops) && layers[0].GetRgba(x, y).w == 1.0
    ensures CompositeAt(layers, ops, modes, x, y).w == 1.0
  {
    AllOverOpaque(PixelAlphas(layers, x, y), PixelColors(layers, x, y), ops, modes, false, |layers|);
  }
}
