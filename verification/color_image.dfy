/**
  * ColorImage of image_processing.hpp / image_processing.cpp: four
  * single-channel buffers r, g, b, a of the same size. The library keeps
  * them as a vector of Image values; here each channel is its pixel buffer,
  * laid out as an Image lays out its pixels, and the channel getters and
  * setters copy whole buffers in and out of Image objects.
  */
module ColorImages {
  import opened LinearAlgebra
  import opened ImageProcessing

  // ---------------------------------------------------------------------
  // 8-bit colour values
  // ---------------------------------------------------------------------

  /** uint8_t */
  newtype byte = b: int | 0 <= b < 256

  /**
    * One channel of get_color: cropped into [0, 1], scaled by 255 and
    * converted to int, which truncates; the value is never negative here,
    * so truncation is the floor.
    */
  function ChannelToInt(v: real): (i: int)
    ensures 0 <= i <= 255
    ensures 0.0 <= v <= 1.0 ==> i == (v * 255.0).Floor
    ensures v <= 0.0 ==> i == 0
    ensures 1.0 <= v ==> i == 255
  {
    var c := CropReal(v, 0.0, 1.0);
    assert 0.0 <= c * 255.0 <= 255.0;
    (c * 255.0).Floor
  }

  /** An 8-bit value read as k / 255 (as the image loader does) is written back as k. */
  lemma ChannelToIntOfByte(k: int)
    requires 0 <= k <= 255
    ensures ChannelToInt(k as real / 255.0) == k
  {
    assert (k as real / 255.0) * 255.0 == k as real;
  }

  /** A larger channel value never gives a smaller integer. */
  lemma ChannelToIntMonotone(u: real, v: real)
    requires u <= v
    ensures ChannelToInt(u) <= ChannelToInt(v)
  {
    var cu, cv := CropReal(u, 0.0, 1.0), CropReal(v, 0.0, 1.0);
    assert cu <= cv;
    assert cu * 255.0 <= cv * 255.0;
  }

  /** AbstractImage::IntColor, an Eigen::Vector4i. */
  datatype IntColor = IntColor(r: int, g: int, b: int, a: int) {
    function At(c: nat): int
      requires c < 4
    {
      if c == 0 then r else if c == 1 then g else if c == 2 then b else a
    }
  }

  /** The luminance weights of get_luminance (Rec. 709 relative luminance). */
  function Luminance(rgb: Vec3): (l: real)
    ensures rgb.x == rgb.y == rgb.z ==> l == rgb.x
    ensures 0.0 <= rgb.x <= 1.0 && 0.0 <= rgb.y <= 1.0 && 0.0 <= rgb.z <= 1.0 ==> 0.0 <= l <= 1.0
  {
    0.2126 * rgb.x + 0.7152 * rgb.y + 0.0722 * rgb.z
  }

  /** make_fully_opaque's new colour: the pixel composited over white, (1 - a) (1, 1, 1) + a rgb. */
  function OverWhite(rgba: Vec4): (rgb: Vec3)
    ensures rgba.w == 1.0 ==> rgb == rgba.Rgb()
    ensures rgba.w == 0.0 ==> rgb == Ones3()
  {
    Ones3().Scale(1.0 - rgba.w).Add(rgba.Rgb().Scale(rgba.w))
  }

  /** Over white, a pixel whose values lie in [0, 1] keeps its colour in [0, 1]. */
  lemma OverWhiteInUnit(rgba: Vec4)
    requires 0.0 <= rgba.w <= 1.0
    requires 0.0 <= rgba.x <= 1.0 && 0.0 <= rgba.y <= 1.0 && 0.0 <= rgba.z <= 1.0
    ensures var rgb := OverWhite(rgba); 0.0 <= rgb.x <= 1.0 && 0.0 <= rgb.y <= 1.0 && 0.0 <= rgb.z <= 1.0
  {
    MixInUnit(rgba.w, rgba.x);
    MixInUnit(rgba.w, rgba.y);
    MixInUnit(rgba.w, rgba.z);
  }

  lemma MixInUnit(a: real, v: real)
    requires 0.0 <= a <= 1.0 && 0.0 <= v <= 1.0
    ensures 0.0 <= (1.0 - a) * 1.0 + a * v <= 1.0
  {
    MulUnitInterval(a, v);
  }

  // ---------------------------------------------------------------------
  // ColorImage
  // ---------------------------------------------------------------------

  /** ColorImage: channels 0, 1, 2, 3 are r, g, b, a. */
  class ColorImage {
    var width: nat
    var height: nat
    var rgba: seq<seq<real>>

    predicate Valid()
      reads this
    {
      |rgba| == 4 && forall c :: 0 <= c < 4 ==> |rgba[c]| == Area(width, height)
    }

    /** rgba_[c].get_pixel(x, y) */
    function Channel(c: nat, x: nat, y: nat): real
      reads this
      requires Valid() && c < 4 && x < width && y < height
    {
      PixelIndexInRange(width, height, x, y);
      rgba[c][PixelIndex(width, x, y)]
    }

    /** get_rgb */
    function GetRgb(x: nat, y: nat): Vec3
      reads this
      requires Valid() && x < width && y < height
    {
      Vec3(Channel(0, x, y), Channel(1, x, y), Channel(2, x, y))
    }

    /** get_rgba */
    function GetRgba(x: nat, y: nat): Vec4
      reads this
      requires Valid() && x < width && y < height
    {
      Vec4(Channel(0, x, y), Channel(1, x, y), Channel(2, x, y), Channel(3, x, y))
    }

    /** ColorImage(width, height): all four channels 1.0, an opaque white image. */
    constructor (width: nat, height: nat)
      ensures Valid() && this.width == width && this.height == height
      ensures forall x: nat, y: nat :: x < width && y < height ==> GetRgba(x, y) == Constant4(1.0)
    {
      this.width := width;
      this.height := height;
      rgba := seq(4, _ => seq(Area(width, height), _ => 1.0));
      AllPixelIndicesInRange(width, height);
    }

    /** rgba_[c].set_pixel(x, y, v): one value of one channel changes. */
    method SetChannelPixel(c: nat, x: nat, y: nat, v: real)
      requires Valid() && c < 4 && x < width && y < height
      modifies this
      ensures Valid() && width == old(width) && height == old(height)
      ensures Channel(c, x, y) == v
      ensures forall c': nat, x': nat, y': nat :: c' < 4 && x' < width && y' < height && (c' != c || x' != x || y' != y)
                ==> Channel(c', x', y') == old(Channel(c', x', y'))
    {
      PixelIndexInRange(width, height, x, y);
      rgba := rgba[c := rgba[c][PixelIndex(width, x, y) := v]];
      forall c': nat, x': nat, y': nat | c' < 4 && x' < width && y' < height && (c' != c || x' != x || y' != y)
        ensures Channel(c', x', y') == old(Channel(c', x', y'))
      {
        PixelIndexInRange(width, height, x', y');
        if c' == c && PixelIndex(width, x', y') == PixelIndex(width, x, y) {
          PixelIndexInjective(width, x', y', x, y);
        }
      }
    }

    /** set_rgb: the colour at (x, y) becomes rgb; its alpha and every other pixel stay. */
    method SetRgb(x: nat, y: nat, rgb: Vec3)
      requires Valid() && x < width && y < height
      modifies this
      ensures Valid() && width == old(width) && height == old(height)
      ensures GetRgba(x, y) == Join(rgb, old(Channel(3, x, y)))
      ensures forall x': nat, y': nat :: x' < width && y' < height && (x' != x || y' != y)
                ==> GetRgba(x', y') == old(GetRgba(x', y'))
    {
      SetChannelPixel(0, x, y, rgb.x);
      SetChannelPixel(1, x, y, rgb.y);
      SetChannelPixel(2, x, y, rgb.z);
    }

    /** set_rgba(x, y, rgba): all four values at (x, y) are replaced; every other pixel stays. */
    method SetRgba(x: nat, y: nat, value: Vec4)
      requires Valid() && x < width && y < height
      modifies this
      ensures Valid() && width == old(width) && height == old(height)
      ensures GetRgba(x, y) == value
      ensures forall x': nat, y': nat :: x' < width && y' < height && (x' != x || y' != y)
                ==> GetRgba(x', y') == old(GetRgba(x', y'))
    {
      SetChannelPixel(0, x, y, value.x);
      SetChannelPixel(1, x, y, value.y);
      SetChannelPixel(2, x, y, value.z);
      SetChannelPixel(3, x, y, value.w);
    }

    /** set_rgba(x, y, rgb, a) */
    method SetRgbAndAlpha(x: nat, y: nat, rgb: Vec3, a: real)
      requires Valid() && x < width && y < height
      modifies this
      ensures Valid() && width == old(width) && height == old(height)
      ensures GetRgba(x, y) == Join(rgb, a)
      ensures forall x': nat, y': nat :: x' < width && y' < height && (x' != x || y' != y)
                ==> GetRgba(x', y') == old(GetRgba(x', y'))
    {
      SetChannelPixel(0, x, y, rgb.x);
      SetChannelPixel(1, x, y, rgb.y);
      SetChannelPixel(2, x, y, rgb.z);
      SetChannelPixel(3, x, y, a);
    }

    /** get_r, get_g, get_b, get_a: channel c as an Image of the same size. */
    method GetChannel(c: nat) returns (img: Image)
      requires Valid() && c < 4
      ensures fresh(img) && img.Valid() && img.width == width && img.height == height
      ensures forall x: nat, y: nat :: x < width && y < height ==> img.GetPixel(x, y) == Channel(c, x, y)
    {
      img := new Image(width, height, 0.0);
      img.pixels := rgba[c];
    }

    /** set_r, set_g, set_b, set_a: channel c is replaced by img and the other three stay. */
    method SetChannel(c: nat, img: Image)
      requires Valid() && c < 4 && img.Valid() && img.width == width && img.height == height
      modifies this
      ensures Valid() && width == old(width) && height == old(height)
      ensures forall x: nat, y: nat :: x < width && y < height ==> Channel(c, x, y) == img.GetPixel(x, y)
      ensures forall c': nat, x: nat, y: nat :: c' < 4 && c' != c && x < width && y < height
                ==> Channel(c', x, y) == old(Channel(c', x, y))
    {
      rgba := rgba[c := img.pixels];
    }

    /** fill(rgb): the colour channels take rgb and the alpha channel 1.0. */
    method Fill(rgb: Vec3)
      requires Valid()
      modifies this
      ensures Valid() && width == old(width) && height == old(height)
      ensures forall x: nat, y: nat :: x < width && y < height ==> GetRgba(x, y) == Join(rgb, 1.0)
    {
      var n := Area(width, height);
      for i := 0 to 3
        invariant Valid() && width == old(width) && height == old(height)
        invariant forall c :: 0 <= c < i ==> rgba[c] == seq(n, _ => rgb.At(c))
      {
        rgba := rgba[i := seq(n, _ => rgb.At(i))];
      }
      rgba := rgba[3 := seq(n, _ => 1.0)];
      AllPixelIndicesInRange(width, height);
    }

    /** fill(rgba): every pixel becomes value. */
    method FillRgba(value: Vec4)
      requires Valid()
      modifies this
      ensures Valid() && width == old(width) && height == old(height)
      ensures forall x: nat, y: nat :: x < width && y < height ==> GetRgba(x, y) == value
    {
      var n := Area(width, height);
      for i := 0 to 4
        invariant Valid() && width == old(width) && height == old(height)
        invariant forall c :: 0 <= c < i ==> rgba[c] == seq(n, _ => value.At(c))
      {
        rgba := rgba[i := seq(n, _ => value.At(i))];
      }
      AllPixelIndicesInRange(width, height);
    }

    /** get_color: every channel cropped into [0, 1] and scaled to 0..255. */
    function GetColor(x: nat, y: nat): (color: IntColor)
      reads this
      requires Valid() && x < width && y < height
      ensures 0 <= color.r <= 255 && 0 <= color.g <= 255 && 0 <= color.b <= 255 && 0 <= color.a <= 255
      ensures forall c :: 0 <= c < 4 ==> color.At(c) == ChannelToInt(Channel(c, x, y))
    {
      IntColor(ChannelToInt(Channel(0, x, y)), ChannelToInt(Channel(1, x, y)),
               ChannelToInt(Channel(2, x, y)), ChannelToInt(Channel(3, x, y)))
    }

    /**
      * The buffer get_rgba_bits fills: entry k is channel k % 4 of the
      * pixel stored at k / 4, as get_color converts it.
      */
    function RgbaBits(): (bits: seq<byte>)
      reads this
      requires Valid()
      ensures |bits| == 4 * Area(width, height)
    {
      var n := Area(width, height);
      var channels := rgba;
      seq(4 * n, k requires 0 <= k < 4 * n => ChannelToInt(channels[k % 4][k / 4]) as byte)
    }

    /** Pixel (x, y), channel c, is byte 4 (y w + x) + c, and holds get_color's value. */
    lemma RgbaBitsAt(x: nat, y: nat)
      requires Valid() && x < width && y < height
      ensures var i, bits, color := 4 * PixelIndex(width, x, y), RgbaBits(), GetColor(x, y);
              i + 3 < |bits| && bits[i] as int == color.r && bits[i + 1] as int == color.g
              && bits[i + 2] as int == color.b && bits[i + 3] as int == color.a
    {
      PixelIndexInRange(width, height, x, y);
      var p := PixelIndex(width, x, y);
      assert (4 * p) / 4 == p && (4 * p + 1) / 4 == p && (4 * p + 2) / 4 == p && (4 * p + 3) / 4 == p;
      assert (4 * p) % 4 == 0 && (4 * p + 1) % 4 == 1 && (4 * p + 2) % 4 == 2 && (4 * p + 3) % 4 == 3;
    }

    /** get_rgba_bits: rows in order (y outer, x inner), four bytes per pixel. */
    method GetRgbaBits() returns (buffer: array<byte>)
      requires Valid()
      ensures fresh(buffer) && buffer[..] == RgbaBits()
    {
      var n := Area(width, height);
      buffer := new byte[4 * n];
      ghost var bits := RgbaBits();
      for y := 0 to height
        invariant PixelIndex(width, 0, y) <= n
        invariant buffer[..4 * PixelIndex(width, 0, y)] == bits[..4 * PixelIndex(width, 0, y)]
      {
        for x := 0 to width
          invariant PixelIndex(width, x, y) <= n
          invariant buffer[..4 * PixelIndex(width, x, y)] == bits[..4 * PixelIndex(width, x, y)]
        {
          PixelIndexInRange(width, height, x, y);
          RgbaBitsAt(x, y);
          var color := GetColor(x, y);
          var i := 4 * PixelIndex(width, x, y);
          WriteColor(buffer, i, color);
          assert buffer[..i + 4] == bits[..i + 4] by {
            PrefixStep(buffer[..], bits, i);
          }
          assert 4 * PixelIndex(width, x + 1, y) == i + 4;
        }
        assert PixelIndex(width, 0, y + 1) == PixelIndex(width, width, y);
      }
      assert PixelIndex(width, 0, height) == n;
    }

    /** The four byte stores of get_rgba_bits for one pixel, at i .. i + 3. */
    static method WriteColor(buffer: array<byte>, i: nat, color: IntColor)
      requires i + 4 <= buffer.Length
      requires 0 <= color.r <= 255 && 0 <= color.g <= 255 && 0 <= color.b <= 255 && 0 <= color.a <= 255
      modifies buffer
      ensures buffer[..i] == old(buffer[..i])
      ensures buffer[i] as int == color.r && buffer[i + 1] as int == color.g
      ensures buffer[i + 2] as int == color.b && buffer[i + 3] as int == color.a
    {
      buffer[i + 0] := color.r as byte;
      buffer[i + 1] := color.g as byte;
      buffer[i + 2] := color.b as byte;
      buffer[i + 3] := color.a as byte;
    }

    /**
      * make_fully_opaque: every pixel is composited over white and its
      * alpha set to 1; rows in order (y outer, x inner).
      */
    method MakeFullyOpaque()
      requires Valid()
      modifies this
      ensures Valid() && width == old(width) && height == old(height)
      ensures forall x: nat, y: nat :: x < width && y < height ==> GetRgba(x, y) == Join(OverWhite(old(GetRgba(x, y))), 1.0)
    {
      for y := 0 to height
        invariant Valid() && width == old(width) && height == old(height)
        invariant forall x': nat, y': nat :: x' < width && y' < height
                    ==> GetRgba(x', y') == if y' < y then Join(OverWhite(old(GetRgba(x', y'))), 1.0) else old(GetRgba(x', y'))
      {
        for x := 0 to width
          invariant Valid() && width == old(width) && height == old(height)
          invariant forall x': nat, y': nat :: x' < width && y' < height
                      ==> GetRgba(x', y') == if y' < y || (y' == y && x' < x) then Join(OverWhite(old(GetRgba(x', y'))), 1.0)
                                             else old(GetRgba(x', y'))
        {
          var pixel := GetRgba(x, y);
          SetRgbAndAlpha(x, y, OverWhite(pixel), 1.0);
        }
      }
    }

    /** get_luminance: a new single-channel image of the luminance of every pixel. */
    method GetLuminance() returns (img: Image)
      requires Valid()
      ensures fresh(img) && img.Valid() && img.width == width && img.height == height
      ensures forall x: nat, y: nat :: x < width && y < height ==> img.GetPixel(x, y) == Luminance(GetRgb(x, y))
    {
      img := new Image(width, height, 0.0);
      for x := 0 to width
        invariant img.Valid() && img.width == width && img.height == height
        invariant forall x': nat, y': nat :: x' < x && y' < height ==> img.GetPixel(x', y') == Luminance(GetRgb(x', y'))
      {
        for y := 0 to height
          invariant img.Valid() && img.width == width && img.height == height
          invariant forall x': nat, y': nat :: x' < x && y' < height ==> img.GetPixel(x', y') == Luminance(GetRgb(x', y'))
          invariant forall y': nat :: y' < y ==> img.GetPixel(x, y') == Luminance(GetRgb(x, y'))
        {
          img.SetPixel(x, y, Luminance(GetRgb(x, y)));
        }
      }
    }
  }

  /** Two buffers that agree below i and at i .. i + 3 agree below i + 4. */
  lemma PrefixStep(a: seq<byte>, b: seq<byte>, i: nat)
    requires i + 4 <= |a| && i + 4 <= |b| && a[..i] == b[..i]
    requires a[i] == b[i] && a[i + 1] == b[i + 1] && a[i + 2] == b[i + 2] && a[i + 3] == b[i + 3]
    ensures a[..i + 4] == b[..i + 4]
  {
    assert forall k :: 0 <= k < i ==> a[k] == a[..i][k] && b[k] == b[..i][k];
  }

  /** make_fully_opaque twice is make_fully_opaque once: an opaque pixel keeps its colour. */
  lemma MakeFullyOpaqueIdempotent(rgba: Vec4)
    ensures Join(OverWhite(Join(OverWhite(rgba), 1.0)), 1.0) == Join(OverWhite(rgba), 1.0)
  {
  }
}
