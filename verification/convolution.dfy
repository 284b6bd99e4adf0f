/**
  * apply_convolution and apply_box_filter of image_processing.cpp /
  * image_processing.hpp. A kernel is a square matrix of odd size given by
  * rows, kernel[kx][ky] being kernel(kx, ky); the kernel is centred on the
  * output pixel and samples that fall outside the image are clamped to the
  * nearest edge pixel.
  */
module Convolution {
  import opened LinearAlgebra
  import opened ImageProcessing

  /** The kernel shapes apply_convolution accepts: square, with an odd number of rows. */
  predicate OddSquare(kernel: seq<seq<real>>)
  {
    |kernel| % 2 == 1 && IsMatrix(kernel, |kernel|, |kernel|)
  }

  /**
    * crop(v, 0, n - 1): the coordinate actually read for the requested
    * coordinate v, which may lie outside the image by up to half a kernel.
    */
  function SourceIndex(v: int, n: nat): (r: nat)
    requires 0 < n
    ensures r < n
    ensures 0 <= v < n ==> r == v
    ensures v < 0 ==> r == 0
    ensures n <= v ==> r == n - 1
  {
    Crop(v, 0, n - 1)
  }

  /** One term of the accumulation: kernel(kx, ky) times the clamped pixel it covers. */
  function Tap(pixels: seq<real>, width: nat, height: nat, kernel: seq<seq<real>>, x: nat, y: nat, kx: nat, ky: nat): real
    requires |pixels| == Area(width, height) && x < width && y < height
    requires OddSquare(kernel) && kx < |kernel| && ky < |kernel|
  {
    var half := (|kernel| - 1) / 2;
    var sx := SourceIndex(x + kx - half, width);
    var sy := SourceIndex(y + ky - half, height);
    PixelIndexInRange(width, height, sx, sy);
    Product(kernel[kx][ky], pixels[PixelIndex(width, sx, sy)])
  }

  /** The tap in terms of the coordinates the loop computes. */
  lemma TapAt(pixels: seq<real>, width: nat, height: nat, kernel: seq<seq<real>>, x: nat, y: nat, kx: nat, ky: nat)
    requires |pixels| == Area(width, height) && x < width && y < height
    requires OddSquare(kernel) && kx < |kernel| && ky < |kernel|
    ensures var half := (|kernel| - 1) / 2;
            var sx, sy := SourceIndex(x + kx - half, width), SourceIndex(y + ky - half, height);
            PixelIndex(width, sx, sy) < |pixels|
            && Tap(pixels, width, height, kernel, x, y, kx, ky) == kernel[kx][ky] * pixels[PixelIndex(width, sx, sy)]
  {
    var half := (|kernel| - 1) / 2;
    PixelIndexInRange(width, height, SourceIndex(x + kx - half, width), SourceIndex(y + ky - half, height));
  }

  /** The inner kernel loop: the first count terms of kernel row kx. */
  function RowTerms(pixels: seq<real>, width: nat, height: nat, kernel: seq<seq<real>>, x: nat, y: nat, kx: nat, count: nat): real
    requires |pixels| == Area(width, height) && x < width && y < height
    requires OddSquare(kernel) && kx < |kernel| && count <= |kernel|
  {
    if count == 0 then 0.0
    else RowTerms(pixels, width, height, kernel, x, y, kx, count - 1) + Tap(pixels, width, height, kernel, x, y, kx, count - 1)
  }

  /** The outer kernel loop: the first count rows of the kernel. */
  function KernelTerms(pixels: seq<real>, width: nat, height: nat, kernel: seq<seq<real>>, x: nat, y: nat, count: nat): real
    requires |pixels| == Area(width, height) && x < width && y < height
    requires OddSquare(kernel) && count <= |kernel|
  {
    if count == 0 then 0.0
    else KernelTerms(pixels, width, height, kernel, x, y, count - 1) + RowTerms(pixels, width, height, kernel, x, y, count - 1, |kernel|)
  }

  /** The value apply_convolution writes at (x, y). */
  function Convolved(pixels: seq<real>, width: nat, height: nat, kernel: seq<seq<real>>, x: nat, y: nat): real
    requires |pixels| == Area(width, height) && x < width && y < height && OddSquare(kernel)
  {
    KernelTerms(pixels, width, height, kernel, x, y, |kernel|)
  }

  /** The first count entries of kernel row kx, summed in order. */
  function RowWeight(kernel: seq<seq<real>>, kx: nat, count: nat): real
    requires OddSquare(kernel) && kx < |kernel| && count <= |kernel|
  {
    if count == 0 then 0.0 else RowWeight(kernel, kx, count - 1) + kernel[kx][count - 1]
  }

  /** The first count rows of the kernel, summed in order. */
  function KernelWeight(kernel: seq<seq<real>>, count: nat): real
    requires OddSquare(kernel) && count <= |kernel|
  {
    if count == 0 then 0.0 else KernelWeight(kernel, count - 1) + RowWeight(kernel, count - 1, |kernel|)
  }

  /** The sum of all kernel entries. */
  function KernelTotal(kernel: seq<seq<real>>): real
    requires OddSquare(kernel)
  {
    KernelWeight(kernel, |kernel|)
  }

  // ---------------------------------------------------------------------
  // A constant image
  // ---------------------------------------------------------------------

  /** On a constant image every tap is the kernel entry times the constant. */
  lemma TapOfConstant(pixels: seq<real>, width: nat, height: nat, kernel: seq<seq<real>>, x: nat, y: nat, kx: nat, ky: nat, v: real)
    requires |pixels| == Area(width, height) && x < width && y < height
    requires OddSquare(kernel) && kx < |kernel| && ky < |kernel|
    requires forall k :: 0 <= k < |pixels| ==> pixels[k] == v
    ensures Tap(pixels, width, height, kernel, x, y, kx, ky) == kernel[kx][ky] * v
  {
    var half := (|kernel| - 1) / 2;
    var sx := SourceIndex(x + kx - half, width);
    var sy := SourceIndex(y + ky - half, height);
    PixelIndexInRange(width, height, sx, sy);
  }

  /** RowWeight with every entry multiplied by v, summed in the same order. */
  function RowScaled(kernel: seq<seq<real>>, kx: nat, count: nat, v: real): real
    requires OddSquare(kernel) && kx < |kernel| && count <= |kernel|
  {
    if count == 0 then 0.0 else RowScaled(kernel, kx, count - 1, v) + kernel[kx][count - 1] * v
  }

  /** KernelWeight with every entry multiplied by v, summed in the same order. */
  function KernelScaled(kernel: seq<seq<real>>, count: nat, v: real): real
    requires OddSquare(kernel) && count <= |kernel|
  {
    if count == 0 then 0.0 else KernelScaled(kernel, count - 1, v) + RowScaled(kernel, count - 1, |kernel|, v)
  }

  lemma {:induction false} RowTermsOfConstant(pixels: seq<real>, width: nat, height: nat, kernel: seq<seq<real>>, x: nat, y: nat, kx: nat, count: nat, v: real)
    requires |pixels| == Area(width, height) && x < width && y < height
    requires OddSquare(kernel) && kx < |kernel| && count <= |kernel|
    requires forall k :: 0 <= k < |pixels| ==> pixels[k] == v
    ensures RowTerms(pixels, width, height, kernel, x, y, kx, count) == RowScaled(kernel, kx, count, v)
  {
    if count != 0 {
      RowTermsOfConstant(pixels, width, height, kernel, x, y, kx, count - 1, v);
      RowTermsStep(pixels, width, height, kernel, x, y, kx, count, v);
    }
  }

  lemma RowTermsStep(pixels: seq<real>, width: nat, height: nat, kernel: seq<seq<real>>, x: nat, y: nat, kx: nat, count: nat, v: real)
    requires |pixels| == Area(width, height) && x < width && y < height
    requires OddSquare(kernel) && kx < |kernel| && 0 < count <= |kernel|
    requires forall k :: 0 <= k < |pixels| ==> pixels[k] == v
    requires RowTerms(pixels, width, height, kernel, x, y, kx, count - 1) == RowScaled(kernel, kx, count - 1, v)
    ensures RowTerms(pixels, width, height, kernel, x, y, kx, count) == RowScaled(kernel, kx, count, v)
  {
    TapOfConstant(pixels, width, height, kernel, x, y, kx, count - 1, v);
  }

  lemma {:induction false} KernelTermsOfConstant(pixels: seq<real>, width: nat, height: nat, kernel: seq<seq<real>>, x: nat, y: nat, count: nat, v: real)
    requires |pixels| == Area(width, height) && x < width && y < height
    requires OddSquare(kernel) && count <= |kernel|
    requires forall k :: 0 <= k < |pixels| ==> pixels[k] == v
    ensures KernelTerms(pixels, width, height, kernel, x, y, count) == KernelScaled(kernel, count, v)
  {
    if count != 0 {
      KernelTermsOfConstant(pixels, width, height, kernel, x, y, count - 1, v);
      RowTermsOfConstant(pixels, width, height, kernel, x, y, count - 1, |kernel|, v);
    }
  }

  lemma {:induction false} RowScaledIsWeight(kernel: seq<seq<real>>, kx: nat, count: nat, v: real)
    requires OddSquare(kernel) && kx < |kernel| && count <= |kernel|
    ensures RowScaled(kernel, kx, count, v) == RowWeight(kernel, kx, count) * v
  {
    if count != 0 {
      RowScaledIsWeight(kernel, kx, count - 1, v);
      DistributeRight(RowWeight(kernel, kx, count - 1), kernel[kx][count - 1], v);
    }
  }

  lemma {:induction false} KernelScaledIsWeight(kernel: seq<seq<real>>, count: nat, v: real)
    requires OddSquare(kernel) && count <= |kernel|
    ensures KernelScaled(kernel, count, v) == KernelWeight(kernel, count) * v
  {
    if count != 0 {
      KernelScaledIsWeight(kernel, count - 1, v);
      RowScaledIsWeight(kernel, count - 1, |kernel|, v);
      DistributeRight(KernelWeight(kernel, count - 1), RowWeight(kernel, count - 1, |kernel|), v);
    }
  }

  lemma DistributeRight(a: real, b: real, v: real)
    ensures a * v + b * v == (a + b) * v
  {
  }

  /** Convolving a constant image v gives the kernel total times v at every pixel. */
  lemma ConvolvedConstant(pixels: seq<real>, width: nat, height: nat, kernel: seq<seq<real>>, x: nat, y: nat, v: real)
    requires |pixels| == Area(width, height) && x < width && y < height && OddSquare(kernel)
    requires forall k :: 0 <= k < |pixels| ==> pixels[k] == v
    ensures Convolved(pixels, width, height, kernel, x, y) == KernelTotal(kernel) * v
    ensures KernelTotal(kernel) == 1.0 ==> Convolved(pixels, width, height, kernel, x, y) == v
  {
    var c := Convolved(pixels, width, height, kernel, x, y);
    assert c == KernelTerms(pixels, width, height, kernel, x, y, |kernel|);
    KernelTermsOfConstant(pixels, width, height, kernel, x, y, |kernel|, v);
    KernelScaledIsWeight(kernel, |kernel|, v);
    assert c == KernelWeight(kernel, |kernel|) * v;
  }

  // ---------------------------------------------------------------------
  // apply_convolution
  // ---------------------------------------------------------------------

  /**
    * The per-pixel process of apply_convolution: value accumulates
    * kernel(kx, ky) times the clamped pixel, kx outer and ky inner.
    */
  method ConvolvePixel(image: Image, kernel: seq<seq<real>>, x: nat, y: nat) returns (value: real)
    requires image.Valid() && x < image.width && y < image.height && OddSquare(kernel)
    ensures value == Convolved(image.pixels, image.width, image.height, kernel, x, y)
  {
    value := 0.0;
    for kx := 0 to |kernel|
      invariant value == KernelTerms(image.pixels, image.width, image.height, kernel, x, y, kx)
    {
      value := AccumulateRow(image, kernel, x, y, kx, value);
    }
  }

  /** The inner kernel loop of that process: row kx added onto value. */
  method AccumulateRow(image: Image, kernel: seq<seq<real>>, x: nat, y: nat, kx: nat, start: real) returns (value: real)
    requires image.Valid() && x < image.width && y < image.height && OddSquare(kernel) && kx < |kernel|
    ensures value == start + RowTerms(image.pixels, image.width, image.height, kernel, x, y, kx, |kernel|)
  {
    var w, h := image.width, image.height;
    ghost var pixels := image.pixels;
    var half := (|kernel| - 1) / 2;
    value := start;
    for ky := 0 to |kernel|
      invariant value == start + RowTerms(pixels, w, h, kernel, x, y, kx, ky)
    {
      var sx := SourceIndex(x + kx - half, w);
      var sy := SourceIndex(y + ky - half, h);
      TapAt(pixels, w, h, kernel, x, y, kx, ky);
      value := value + kernel[kx][ky] * image.GetPixel(sx, sy);
    }
  }

  /**
    * apply_convolution: a new image whose every pixel is the kernel
    * applied around it; the source image is not changed. The pixels are
    * visited one after another, x outer and y inner.
    */
  method ApplyConvolution(image: Image, kernel: seq<seq<real>>) returns (r: Image)
    requires image.Valid() && OddSquare(kernel)
    ensures fresh(r) && r.Valid() && r.width == image.width && r.height == image.height
    ensures forall x: nat, y: nat :: x < r.width && y < r.height
              ==> r.GetPixel(x, y) == Convolved(image.pixels, image.width, image.height, kernel, x, y)
  {
    var w, h := image.width, image.height;
    r := new Image(w, h, 0.0);
    for x := 0 to w
      invariant r.Valid() && r.width == w && r.height == h
      invariant forall x': nat, y': nat :: x' < x && y' < h
                  ==> r.GetPixel(x', y') == Convolved(image.pixels, w, h, kernel, x', y')
    {
      for y := 0 to h
        invariant r.Valid() && r.width == w && r.height == h
        invariant forall x': nat, y': nat :: x' < x && y' < h
                    ==> r.GetPixel(x', y') == Convolved(image.pixels, w, h, kernel, x', y')
        invariant forall y': nat :: y' < y ==> r.GetPixel(x, y') == Convolved(image.pixels, w, h, kernel, x, y')
      {
        var value := ConvolvePixel(image, kernel, x, y);
        r.SetPixel(x, y, value);
      }
    }
  }

  // ---------------------------------------------------------------------
  // apply_box_filter
  // ---------------------------------------------------------------------

  /** The (2 r + 1) x (2 r + 1) kernel whose every entry is 1 / (2 r + 1)^2. */
  function BoxKernel(radius: nat): (kernel: seq<seq<real>>)
    ensures OddSquare(kernel) && |kernel| == 2 * radius + 1
    ensures forall kx, ky :: 0 <= kx < |kernel| && 0 <= ky < |kernel|
              ==> kernel[kx][ky] == 1.0 / ((|kernel| * |kernel|) as real)
  {
    var size := 2 * radius + 1;
    seq(size, _ => BoxRow(size))
  }

  function BoxRow(size: nat): seq<real>
    requires 0 < size
  {
    seq(size, _ => 1.0 / ((size * size) as real))
  }

  /** The entries of a box kernel sum to 1. */
  lemma BoxKernelTotal(radius: nat)
    ensures KernelTotal(BoxKernel(radius)) == 1.0
  {
    var kernel := BoxKernel(radius);
    var size := |kernel|;
    var c := 1.0 / ((size * size) as real);
    BoxKernelWeight(kernel, c, size);
    UnitArea(size);
  }

  lemma {:induction false} BoxRowWeight(kernel: seq<seq<real>>, c: real, kx: nat, count: nat)
    requires OddSquare(kernel) && kx < |kernel| && count <= |kernel|
    requires forall ky :: 0 <= ky < |kernel| ==> kernel[kx][ky] == c
    ensures RowWeight(kernel, kx, count) == (count as real) * c
  {
    if count != 0 {
      BoxRowWeight(kernel, c, kx, count - 1);
    }
  }

  lemma {:induction false} BoxKernelWeight(kernel: seq<seq<real>>, c: real, count: nat)
    requires OddSquare(kernel) && count <= |kernel|
    requires forall kx, ky :: 0 <= kx < |kernel| && 0 <= ky < |kernel| ==> kernel[kx][ky] == c
    ensures KernelWeight(kernel, count) == (count as real) * ((|kernel| as real) * c)
  {
    if count != 0 {
      BoxKernelWeight(kernel, c, count - 1);
      BoxRowWeight(kernel, c, count - 1, |kernel|);
    }
  }

  lemma UnitArea(size: nat)
    requires 0 < size
    ensures (size as real) * ((size as real) * (1.0 / ((size * size) as real))) == 1.0
  {
    var s := size as real;
    assert (size * size) as real == s * s;
    assert 0.0 < s * s;
  }

  /**
    * apply_box_filter: radius 0 gives a copy of the image, a positive
    * radius the convolution with the box kernel.
    */
  method ApplyBoxFilter(image: Image, radius: int) returns (r: Image)
    requires image.Valid() && radius >= 0
    ensures fresh(r) && r.Valid() && r.width == image.width && r.height == image.height
    ensures radius == 0 ==> r.pixels == image.pixels
    ensures forall x: nat, y: nat :: 0 < radius && x < r.width && y < r.height
              ==> r.GetPixel(x, y) == Convolved(image.pixels, image.width, image.height, BoxKernel(radius), x, y)
  {
    if radius == 0 {
      r := new Image(image.width, image.height, 0.0);
      r.pixels := image.pixels;
      return;
    }
    var kernel := BoxKernel(radius);
    r := ApplyConvolution(image, kernel);
  }

  /** The box filter leaves a constant image unchanged, whatever the radius. */
  lemma BoxFilterOfConstant(pixels: seq<real>, width: nat, height: nat, radius: nat, x: nat, y: nat, v: real)
    requires |pixels| == Area(width, height) && x < width && y < height
    requires forall k :: 0 <= k < |pixels| ==> pixels[k] == v
    ensures Convolved(pixels, width, height, BoxKernel(radius), x, y) == v
  {
    BoxKernelTotal(radius);
    ConvolvedConstant(pixels, width, height, BoxKernel(radius), x, y, v);
  }
}
