/**
  * Clamping helpers of common.hpp: a value, an RGB colour or an RGBA value
  * is cropped into the unit interval.
  */
module Common {
  import opened LinearAlgebra

  /** std::min(std::max(v, 0.0), 1.0) */
  function CropValue(v: real): (r: real)
    ensures 0.0 <= r <= 1.0
    ensures 0.0 <= v <= 1.0 ==> r == v
    ensures v < 0.0 ==> r == 0.0
    ensures 1.0 < v ==> r == 1.0
  {
    var atLeastZero := if v < 0.0 then 0.0 else v;
    if 1.0 < atLeastZero then 1.0 else atLeastZero
  }

  /** Cropping twice is cropping once. */
  lemma CropValueIdempotent(v: real)
    ensures CropValue(CropValue(v)) == CropValue(v)
  {
  }

  /** Cropping preserves order. */
  lemma CropValueMonotone(v: real, w: real)
    requires v <= w
    ensures CropValue(v) <= CropValue(w)
  {
  }

  /** vector.cwiseMax(Vec3::Zero()).cwiseMin(Vec3::Ones()) */
  function CropVec3(v: Vec3): (r: Vec3)
    ensures r == Vec3(CropValue(v.x), CropValue(v.y), CropValue(v.z))
  {
    v.CwiseMax(Zero3()).CwiseMin(Ones3())
  }

  /** vector.cwiseMax(Vec4::Zero()).cwiseMin(Vec4::Ones()) */
  function CropVec4(v: Vec4): (r: Vec4)
    ensures r == Vec4(CropValue(v.x), CropValue(v.y), CropValue(v.z), CropValue(v.w))
  {
    v.CwiseMax(Constant4(0.0)).CwiseMin(Constant4(1.0))
  }

  /** Every channel of a cropped RGBA value lies in the unit interval. */
  predicate InUnitCube4(v: Vec4)
  {
    0.0 <= v.x <= 1.0 && 0.0 <= v.y <= 1.0 && 0.0 <= v.z <= 1.0 && 0.0 <= v.w <= 1.0
  }
}
