/**
  * The image buffers of image_processing.hpp / image_processing.cpp.
  *
  * An Image is a single-channel buffer of width * height doubles stored row
  * by row: pixel (x, y) lives at index y * width + x. A ColorImage holds four
  * such buffers, the r, g, b and a channels. Both are classes whose methods
  * update the buffers in place; the pixel loops run over x and y as the
  * library's do.
  */
module ImageProcessing {
  import opened LinearAlgebra

  /** DBL_MAX, the largest finite double, written out exactly. */
  const DblMax: real := 179769313486231570814527423731704356798070567525844996598917476803157260780028538760589558632766878171540458953514382464234321326889464182768467546703537516986049910576551282076245490090389328944075868508455133942304583236903222948165808559332123348274797826204144723168738177180919299881250404026184124858368.0

  // ---------------------------------------------------------------------
  // Pixel indexing
  // ---------------------------------------------------------------------

  /**
    * a * b on naturals, spelled out as repeated addition so that the
    * prover treats buffer sizes and offsets as opaque terms; TimesIsProduct
    * connects it to multiplication where that is needed.
    */
  function Times(a: nat, b: nat): nat
  {
    if a == 0 then 0 else Times(a - 1, b) + b
  }

  lemma {:induction false} TimesIsProduct(a: nat, b: nat)
    ensures Times(a, b) == a * b
  {
    if a != 0 {
      TimesIsProduct(a - 1, b);
    }
  }

  /** The number of pixels of a width x height image: height rows of width pixels. */
  function Area(width: nat, height: nat): nat
  {
    Times(height, width)
  }

  /** Where pixel (x, y) of an image of the given width is stored: y * width + x. */
  function PixelIndex(width: nat, x: nat, y: nat): nat
  {
    Times(y, width) + x
  }

  lemma PixelIndexInRange(width: nat, height: nat, x: nat, y: nat)
    requires x < width && y < height
    ensures PixelIndex(width, x, y) < Area(width, height)
  {
    TimesIsProduct(y, width);
    TimesIsProduct(height, width);
    assert (y + 1) * width <= height * width by {
      MulLeftMonotone(width, y + 1, height);
    }
  }

  lemma MulLeftMonotone(w: nat, a: nat, b: nat)
    requires a <= b
    ensures a * w <= b * w
  {
  }

  /** Two pixels in range share a storage index only when they are the same pixel. */
  lemma PixelIndexInjective(width: nat, x1: nat, y1: nat, x2: nat, y2: nat)
    requires x1 < width && x2 < width
    requires PixelIndex(width, x1, y1) == PixelIndex(width, x2, y2)
    ensures x1 == x2 && y1 == y2
  {
    TimesIsProduct(y1, width);
    TimesIsProduct(y2, width);
    if y1 < y2 {
      MulLeftMonotone(width, y1 + 1, y2);
    } else if y2 < y1 {
      MulLeftMonotone(width, y2 + 1, y1);
    }
  }

  /** Every storage index belongs to a pixel. */
  lemma PixelIndexOnto(width: nat, height: nat, k: nat)
    requires k < Area(width, height)
    ensures 0 < width && k % width < width && k / width < height
    ensures PixelIndex(width, k % width, k / width) == k
  {
    TimesIsProduct(height, width);
    var q, r := k / width, k % width;
    assert k == q * width + r;
    TimesIsProduct(q, width);
    if height <= q {
      MulLeftMonotone(width, height, q);
    }
  }

  /** Every pixel in range has its storage index in range. */
  lemma AllPixelIndicesInRange(width: nat, height: nat)
    ensures forall x: nat, y: nat :: x < width && y < height ==> PixelIndex(width, x, y) < Area(width, height)
  {
    forall x: nat, y: nat | x < width && y < height
      ensures PixelIndex(width, x, y) < Area(width, height)
    {
      PixelIndexInRange(width, height, x, y);
    }
  }

  // ---------------------------------------------------------------------
  // Clamping
  // ---------------------------------------------------------------------

  /** crop(x, min_x, max_x): std::max(std::min(x, max_x), min_x), here on doubles. */
  function CropReal(x: real, lo: real, hi: real): (r: real)
    ensures r == x || r == lo || r == hi
    ensures lo <= hi ==> lo <= r <= hi
    ensures lo <= x <= hi ==> r == x
  {
    var m := if hi < x then hi else x;
    if m < lo then lo else m
  }

  /** The same template on integers: the double crop of the same values, which is one of them. */
  function Crop(x: int, lo: int, hi: int): (r: int)
    ensures lo <= hi ==> lo <= r <= hi
    ensures lo <= x <= hi ==> r == x
  {
    CropReal(x as real, lo as real, hi as real).Floor
  }

  // ---------------------------------------------------------------------
  // Sums and extremes of a pixel buffer
  // ---------------------------------------------------------------------

  /** Dividing every entry by s divides the sum by s. */
  lemma {:induction false} SumDivided(a: seq<real>, b: seq<real>, s: real)
    requires |a| == |b| && s != 0.0
    requires forall k :: 0 <= k < |a| ==> b[k] == a[k] / s
    ensures Sum(b) == Sum(a) / s
  {
    if |a| != 0 {
      var n := |a| - 1;
      SumDivided(a[..n], b[..n], s);
      assert Sum(b) == Sum(a[..n]) / s + a[n] / s;
    }
  }

  /** A buffer whose every pixel is the old one divided by s sums to the old sum divided by s. */
  lemma BufferQuotient(a: seq<real>, b: seq<real>, width: nat, height: nat, s: real)
    requires |a| == Area(width, height) && |b| == |a| && s != 0.0
    requires forall x: nat, y: nat :: x < width && y < height
               ==> PixelIndex(width, x, y) < |a| && b[PixelIndex(width, x, y)] == a[PixelIndex(width, x, y)] / s
    ensures Sum(b) == Sum(a) / s
  {
    forall k | 0 <= k < |a|
      ensures b[k] == a[k] / s
    {
      PixelIndexOnto(width, height, k);
      var x: nat, y: nat := k % width, k / width;
      assert PixelIndex(width, x, y) == k;
    }
    SumDivided(a, b, s);
  }

  /** m is std::max folded over s from -DBL_MAX: at least -DBL_MAX and every entry, and one of them. */
  ghost predicate IsMaxValue(s: seq<real>, m: real)
  {
    -DblMax <= m && (forall k :: 0 <= k < |s| ==> s[k] <= m) && (m == -DblMax || exists k :: 0 <= k < |s| && s[k] == m)
  }

  /** m is std::min folded over s from +DBL_MAX. */
  ghost predicate IsMinValue(s: seq<real>, m: real)
  {
    m <= DblMax && (forall k :: 0 <= k < |s| ==> m <= s[k]) && (m == DblMax || exists k :: 0 <= k < |s| && s[k] == m)
  }

  /** The max_value scale_to_unit computes, in storage order. */
  function MaxValue(s: seq<real>): (m: real)
    ensures IsMaxValue(s, m)
  {
    if |s| == 0 then -DblMax
    else
      var m := MaxValue(s[..|s| - 1]);
      assert forall k :: 0 <= k < |s| - 1 ==> s[..|s| - 1][k] == s[k];
      if m < s[|s| - 1] then s[|s| - 1] else m
  }

  /** The min_value scale_to_unit computes, in storage order. */
  function MinValue(s: seq<real>): (m: real)
    ensures IsMinValue(s, m)
  {
    if |s| == 0 then DblMax
    else
      var m := MinValue(s[..|s| - 1]);
      assert forall k :: 0 <= k < |s| - 1 ==> s[..|s| - 1][k] == s[k];
      if s[|s| - 1] < m then s[|s| - 1] else m
  }

  /** The two ends of the range land on 1 and 0. */
  lemma RangeEndpoints(lo: real, hi: real)
    requires lo < hi
    ensures (hi - lo) / (hi - lo) == 1.0 && (lo - lo) / (hi - lo) == 0.0
  {
  }

  /** A nonnegative quotient whose numerator is at most its positive denominator lies in [0, 1]. */
  lemma UnitQuotient(p: real, q: real)
    requires 0.0 <= p <= q && 0.0 < q
    ensures 0.0 <= p / q <= 1.0
  {
  }

  /** The fold does not depend on the order: only one value is the maximum in that sense. */
  lemma MaxValueUnique(s: seq<real>, m: real)
    requires IsMaxValue(s, m)
    ensures m == MaxValue(s)
  {
  }

  lemma MinValueUnique(s: seq<real>, m: real)
    requires IsMinValue(s, m)
    ensures m == MinValue(s)
  {
  }

  /** Of finite doubles, the largest is the maximum. */
  lemma MaxValueOfFinite(s: seq<real>, k: nat)
    requires k < |s| && -DblMax <= s[k]
    requires forall i :: 0 <= i < |s| ==> s[i] <= s[k]
    ensures MaxValue(s) == s[k]
  {
  }

  // ---------------------------------------------------------------------
  // Image
  // ---------------------------------------------------------------------

  /** Image: a single-channel image. */
  class Image {
    var width: nat
    var height: nat
    var pixels: seq<real>

    predicate Valid()
      reads this
    {
      |pixels| == Area(width, height)
    }

    /** get_pixel */
    function GetPixel(x: nat, y: nat): real
      reads this
      requires Valid() && x < width && y < height
    {
      PixelIndexInRange(width, height, x, y);
      pixels[PixelIndex(width, x, y)]
    }

    /** Image(width, height, value): w * h pixels, all equal to value. */
    constructor (width: nat, height: nat, value: real)
      ensures Valid() && this.width == width && this.height == height
      ensures forall x: nat, y: nat :: x < width && y < height ==> GetPixel(x, y) == value
    {
      this.width := width;
      this.height := height;
      pixels := seq(Area(width, height), _ => value);
      AllPixelIndicesInRange(width, height);
    }

    /** set_pixel: pixel (x, y) becomes value and every other pixel stays. */
    method SetPixel(x: nat, y: nat, value: real)
      requires Valid() && x < width && y < height
      modifies this
      ensures Valid() && width == old(width) && height == old(height)
      ensures GetPixel(x, y) == value
      ensures forall x': nat, y': nat :: x' < width && y' < height && (x' != x || y' != y)
                ==> GetPixel(x', y') == old(GetPixel(x', y'))
    {
      PixelIndexInRange(width, height, x, y);
      pixels := pixels[PixelIndex(width, x, y) := value];
      forall x': nat, y': nat | x' < width && y' < height && (x' != x || y' != y)
        ensures GetPixel(x', y') == old(GetPixel(x', y'))
      {
        PixelIndexInRange(width, height, x', y');
        if PixelIndex(width, x', y') == PixelIndex(width, x, y) {
          PixelIndexInjective(width, x', y', x, y);
        }
      }
    }

    /** operator+: a new image of per-pixel sums; neither operand changes. */
    method Add(other: Image) returns (r: Image)
      requires Valid() && other.Valid() && width == other.width && height == other.height
      ensures fresh(r) && r.Valid() && r.width == width && r.height == height
      ensures forall x: nat, y: nat :: x < width && y < height ==> r.GetPixel(x, y) == GetPixel(x, y) + other.GetPixel(x, y)
    {
      r := new Image(width, height, 0.0);
      for x := 0 to width
        invariant r.Valid() && r.width == width && r.height == height
        invariant forall x': nat, y': nat :: x' < x && y' < height ==> r.GetPixel(x', y') == GetPixel(x', y') + other.GetPixel(x', y')
      {
        for y := 0 to height
          invariant r.Valid() && r.width == width && r.height == height
          invariant forall x': nat, y': nat :: x' < x && y' < height ==> r.GetPixel(x', y') == GetPixel(x', y') + other.GetPixel(x', y')
          invariant forall y': nat :: y' < y ==> r.GetPixel(x, y') == GetPixel(x, y') + other.GetPixel(x, y')
        {
          r.SetPixel(x, y, GetPixel(x, y) + other.GetPixel(x, y));
        }
      }
    }

    /** operator-: a new image of per-pixel differences; neither operand changes. */
    method Subtract(other: Image) returns (r: Image)
      requires Valid() && other.Valid() && width == other.width && height == other.height
      ensures fresh(r) && r.Valid() && r.width == width && r.height == height
      ensures forall x: nat, y: nat :: x < width && y < height ==> r.GetPixel(x, y) == GetPixel(x, y) - other.GetPixel(x, y)
    {
      r := new Image(width, height, 0.0);
      for x := 0 to width
        invariant r.Valid() && r.width == width && r.height == height
        invariant forall x': nat, y': nat :: x' < x && y' < height ==> r.GetPixel(x', y') == GetPixel(x', y') - other.GetPixel(x', y')
      {
        for y := 0 to height
          invariant r.Valid() && r.width == width && r.height == height
          invariant forall x': nat, y': nat :: x' < x && y' < height ==> r.GetPixel(x', y') == GetPixel(x', y') - other.GetPixel(x', y')
          invariant forall y': nat :: y' < y ==> r.GetPixel(x, y') == GetPixel(x, y') - other.GetPixel(x, y')
        {
          r.SetPixel(x, y, GetPixel(x, y) - other.GetPixel(x, y));
        }
      }
    }

    /** operator*: a new image of per-pixel products; neither operand changes. */
    method Multiply(other: Image) returns (r: Image)
      requires Valid() && other.Valid() && width == other.width && height == other.height
      ensures fresh(r) && r.Valid() && r.width == width && r.height == height
      ensures forall x: nat, y: nat :: x < width && y < height ==> r.GetPixel(x, y) == Product(GetPixel(x, y), other.GetPixel(x, y))
    {
      r := new Image(width, height, 0.0);
      for x := 0 to width
        invariant r.Valid() && r.width == width && r.height == height
        invariant forall x': nat, y': nat :: x' < x && y' < height ==> r.GetPixel(x', y') == Product(GetPixel(x', y'), other.GetPixel(x', y'))
      {
        for y := 0 to height
          invariant r.Valid() && r.width == width && r.height == height
          invariant forall x': nat, y': nat :: x' < x && y' < height ==> r.GetPixel(x', y') == Product(GetPixel(x', y'), other.GetPixel(x', y'))
          invariant forall y': nat :: y' < y ==> r.GetPixel(x, y') == Product(GetPixel(x, y'), other.GetPixel(x, y'))
        {
          r.SetPixel(x, y, GetPixel(x, y) * other.GetPixel(x, y));
        }
      }
    }

    /** force_unity: divide every pixel by the pixel sum, which the library asserts exceeds 1e-16; the pixels then sum to 1. */
    method ForceUnity()
      requires Valid() && Sum(pixels) > 1.0e-16
      modifies this
      ensures Valid() && width == old(width) && height == old(height)
      ensures forall x: nat, y: nat :: x < width && y < height ==> GetPixel(x, y) == old(GetPixel(x, y)) / old(Sum(pixels))
      ensures Sum(pixels) == 1.0
    {
      var sum := Sum(pixels);
      for x := 0 to width
        invariant Valid() && width == old(width) && height == old(height)
        invariant forall x': nat, y': nat :: x' < width && y' < height
                    ==> GetPixel(x', y') == if x' < x then old(GetPixel(x', y')) / sum else old(GetPixel(x', y'))
      {
        for y := 0 to height
          invariant Valid() && width == old(width) && height == old(height)
          invariant forall x': nat, y': nat :: x' < width && y' < height
                      ==> GetPixel(x', y') == if x' < x || (x' == x && y' < y) then old(GetPixel(x', y')) / sum
                                             else old(GetPixel(x', y'))
        {
          SetPixel(x, y, GetPixel(x, y) / sum);
        }
      }
      forall x: nat, y: nat | x < width && y < height
        ensures PixelIndex(width, x, y) < |pixels| && pixels[PixelIndex(width, x, y)] == old(pixels)[PixelIndex(width, x, y)] / sum
      {
        PixelIndexInRange(width, height, x, y);
        assert GetPixel(x, y) == old(GetPixel(x, y)) / sum;
      }
      BufferQuotient(old(pixels), pixels, width, height, sum);
      assert sum / sum == 1.0;
    }

    /**
      * scale_to_unit: map the pixel range [min, max] onto [0, 1]. The library
      * asserts max > min, with max and min folded from -DBL_MAX and +DBL_MAX.
      */
    method ScaleToUnit()
      requires Valid() && MinValue(pixels) < MaxValue(pixels)
      modifies this
      ensures Valid() && width == old(width) && height == old(height)
      ensures forall x: nat, y: nat :: x < width && y < height
                ==> GetPixel(x, y) == (old(GetPixel(x, y)) - MinValue(old(pixels))) / (MaxValue(old(pixels)) - MinValue(old(pixels)))
      ensures forall x: nat, y: nat :: x < width && y < height ==> 0.0 <= GetPixel(x, y) <= 1.0
      ensures forall x: nat, y: nat :: x < width && y < height && old(GetPixel(x, y)) == MaxValue(old(pixels)) ==> GetPixel(x, y) == 1.0
      ensures forall x: nat, y: nat :: x < width && y < height && old(GetPixel(x, y)) == MinValue(old(pixels)) ==> GetPixel(x, y) == 0.0
    {
      var maxValue, minValue := ScanRange();
      MapRange(minValue, maxValue);
      forall x: nat, y: nat | x < width && y < height
        ensures 0.0 <= GetPixel(x, y) <= 1.0
      {
        PixelIndexInRange(width, height, x, y);
        UnitQuotient(old(GetPixel(x, y)) - minValue, maxValue - minValue);
      }
      RangeEndpoints(minValue, maxValue);
      forall x: nat, y: nat | x < width && y < height && old(GetPixel(x, y)) == maxValue
        ensures GetPixel(x, y) == 1.0
      {
      }
      forall x: nat, y: nat | x < width && y < height && old(GetPixel(x, y)) == minValue
        ensures GetPixel(x, y) == 0.0
      {
      }
    }

    /** The pixel loop of scale_to_unit: every pixel p becomes (p - lo) / (hi - lo). */
    method MapRange(lo: real, hi: real)
      requires Valid() && lo < hi
      modifies this
      ensures Valid() && width == old(width) && height == old(height)
      ensures forall x: nat, y: nat :: x < width && y < height
                ==> GetPixel(x, y) == (old(GetPixel(x, y)) - lo) / (hi - lo)
    {
      for x := 0 to width
        invariant Valid() && width == old(width) && height == old(height)
        invariant forall x': nat, y': nat :: x' < width && y' < height
                    ==> GetPixel(x', y') == if x' < x then (old(GetPixel(x', y')) - lo) / (hi - lo)
                                           else old(GetPixel(x', y'))
      {
        for y := 0 to height
          invariant Valid() && width == old(width) && height == old(height)
          invariant forall x': nat, y': nat :: x' < width && y' < height
                      ==> GetPixel(x', y') == if x' < x || (x' == x && y' < y) then (old(GetPixel(x', y')) - lo) / (hi - lo)
                                             else old(GetPixel(x', y'))
        {
          SetPixel(x, y, (GetPixel(x, y) - lo) / (hi - lo));
        }
      }
    }

    /** The first pass of scale_to_unit: std::max and std::min folded over all pixels. */
    method ScanRange() returns (maxValue: real, minValue: real)
      requires Valid()
      ensures maxValue == MaxValue(pixels) && minValue == MinValue(pixels)
    {
      maxValue, minValue := -DblMax, DblMax;
      ghost var maxAt: (nat, nat), minAt: (nat, nat) := (0, 0), (0, 0);
      for x := 0 to width
        invariant -DblMax <= maxValue && minValue <= DblMax
        invariant forall x': nat, y': nat :: x' < x && y' < height ==> minValue <= GetPixel(x', y') <= maxValue
        invariant maxValue == -DblMax || (maxAt.0 < x && maxAt.1 < height && GetPixel(maxAt.0, maxAt.1) == maxValue)
        invariant minValue == DblMax || (minAt.0 < x && minAt.1 < height && GetPixel(minAt.0, minAt.1) == minValue)
      {
        var maxNext, minNext, maxY, minY := ScanColumn(x, maxValue, minValue);
        if maxNext != maxValue {
          maxAt := (x, maxY);
        }
        if minNext != minValue {
          minAt := (x, minY);
        }
        maxValue, minValue := maxNext, minNext;
      }
      forall k | 0 <= k < |pixels|
        ensures minValue <= pixels[k] <= maxValue
      {
        PixelIndexOnto(width, height, k);
        assert GetPixel(k % width, k / width) == pixels[k];
      }
      if maxValue != -DblMax {
        PixelIndexInRange(width, height, maxAt.0, maxAt.1);
      }
      if minValue != DblMax {
        PixelIndexInRange(width, height, minAt.0, minAt.1);
      }
      MaxValueUnique(pixels, maxValue);
      MinValueUnique(pixels, minValue);
    }

    /**
      * The inner loop of that pass: column x folded into the running
      * extremes; maxY and minY say which row supplied a changed extreme.
      */
    method ScanColumn(x: nat, maxIn: real, minIn: real) returns (maxValue: real, minValue: real, ghost maxY: nat, ghost minY: nat)
      requires Valid() && x < width
      ensures maxIn <= maxValue && minValue <= minIn
      ensures forall y: nat :: y < height ==> minValue <= GetPixel(x, y) <= maxValue
      ensures maxValue == maxIn || (maxY < height && GetPixel(x, maxY) == maxValue)
      ensures minValue == minIn || (minY < height && GetPixel(x, minY) == minValue)
    {
      maxValue, minValue, maxY, minY := maxIn, minIn, 0, 0;
      for y := 0 to height
        invariant maxIn <= maxValue && minValue <= minIn
        invariant forall y': nat :: y' < y ==> minValue <= GetPixel(x, y') <= maxValue
        invariant maxValue == maxIn || (maxY < y && GetPixel(x, maxY) == maxValue)
        invariant minValue == minIn || (minY < y && GetPixel(x, minY) == minValue)
      {
        PixelIndexInRange(width, height, x, y);
        var value := GetPixel(x, y);
        if maxValue < value {
          maxValue, maxY := value, y;
        }
        if value < minValue {
          minValue, minY := value, y;
        }
      }
    }

    /** fill: every pixel becomes value; the size stays. */
    method Fill(value: real)
      requires Valid()
      modifies this
      ensures Valid() && width == old(width) && height == old(height)
      ensures forall x: nat, y: nat :: x < width && y < height ==> GetPixel(x, y) == value
    {
      pixels := seq(Area(width, height), _ => value);
      AllPixelIndicesInRange(width, height);
    }
  }
}
