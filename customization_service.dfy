/** Makeup customisation on a segmented face: each edit blends one facial
    region towards its own mean colour (intensity above 50) or towards
    white (below 50), weighted by a smoothed region mask. Images are
    sequences of 8-bit RGB pixels; segmentation, landmark detection, the
    Gaussian blur and image coding are inputs. */
module CustomizationService {
  import opened Wrappers
  import PyNum

  // ---------------------------------------------------------------------
  // Pixels and images.
  // ---------------------------------------------------------------------

  datatype Rgb = Rgb(r: int, g: int, b: int)

  predicate IsByte(x: int) { 0 <= x <= 255 }

  predicate IsPixel(p: Rgb) { IsByte(p.r) && IsByte(p.g) && IsByte(p.b) }

  predicate IsImage(img: seq<Rgb>) {
    forall i :: 0 <= i < |img| ==> IsPixel(img[i])
  }

  /** Channel `c` (0 red, 1 green, 2 blue) of a pixel. */
  function Channel(p: Rgb, c: nat): int
    requires c < 3
  {
    if c == 0 then p.r else if c == 1 then p.g else p.b
  }

  // ---------------------------------------------------------------------
  // `smooth_mask`: divide the blurred mask by its maximum.
  // ---------------------------------------------------------------------

  /** `a.max()` */
  function MaxOf(xs: seq<real>): (m: real)
    requires |xs| > 0
    ensures forall i :: 0 <= i < |xs| ==> xs[i] <= m
    ensures exists i :: 0 <= i < |xs| && xs[i] == m
    decreases |xs|
  {
    if |xs| == 1 then xs[0]
    else
      var m := MaxOf(xs[1..]);
      assert forall i :: 1 <= i < |xs| ==> xs[i] == xs[1..][i - 1];
      if xs[0] >= m then xs[0] else m
  }

  /** `mask_blur / mask_blur.max() if mask_blur.max() > 0 else mask_blur`,
      over the blurred mask. */
  function SmoothMask(blurred: seq<real>): (s: seq<real>)
    requires |blurred| > 0
    ensures |s| == |blurred|
  {
    var m := MaxOf(blurred);
    if m > 0.0 then seq(|blurred|, i requires 0 <= i < |blurred| => blurred[i] / m) else blurred
  }

  lemma DivideByMax(x: real, m: real)
    requires 0.0 <= x <= m && m > 0.0
    ensures 0.0 <= x / m <= 1.0
  {
  }

  /** A non-negative blurred mask smooths to weights in [0, 1]. */
  lemma SmoothMaskUnitRange(blurred: seq<real>)
    requires |blurred| > 0
    requires forall i :: 0 <= i < |blurred| ==> blurred[i] >= 0.0
    ensures forall i :: 0 <= i < |blurred| ==> 0.0 <= SmoothMask(blurred)[i] <= 1.0
  {
    var m := MaxOf(blurred);
    var s := SmoothMask(blurred);
    forall i | 0 <= i < |blurred| ensures 0.0 <= s[i] <= 1.0 {
      assert blurred[i] <= m;
      if m > 0.0 {
        assert s[i] == blurred[i] / m;
        DivideByMax(blurred[i], m);
      }
    }
  }

  /** When the blurred mask is not all zero, the largest smoothed weight is 1. */
  lemma SmoothMaskPeak(blurred: seq<real>)
    requires |blurred| > 0 && MaxOf(blurred) > 0.0
    ensures MaxOf(SmoothMask(blurred)) == 1.0
  {
    var m := MaxOf(blurred);
    var s := SmoothMask(blurred);
    assert forall i :: 0 <= i < |s| ==> s[i] == blurred[i] / m;
    var j :| 0 <= j < |blurred| && blurred[j] == m;
    assert s[j] == 1.0 by { SelfOverSelf(m); }
    var n := MaxOf(s);
    var k :| 0 <= k < |s| && s[k] == n;
    assert n <= 1.0 by {
      AtMostMax(blurred[k], m);
    }
    assert n >= 1.0 by {
      assert s[j] <= n;
    }
  }

  lemma SelfOverSelf(m: real)
    requires m > 0.0
    ensures m / m == 1.0
  {
  }

  lemma AtMostMax(x: real, m: real)
    requires x <= m && m > 0.0
    ensures x / m <= 1.0
  {
  }

  /** An all-zero mask stays all zero. */
  lemma SmoothMaskZero(blurred: seq<real>)
    requires |blurred| > 0
    requires forall i :: 0 <= i < |blurred| ==> blurred[i] == 0.0
    ensures SmoothMask(blurred) == blurred
  {
    var j :| 0 <= j < |blurred| && blurred[j] == MaxOf(blurred);
  }

  // ---------------------------------------------------------------------
  // `extract_region_color`: the truncated mean colour under a mask.
  // ---------------------------------------------------------------------

  function MaskedCount(mask: seq<bool>): (n: nat)
    ensures n <= |mask|
    decreases |mask|
  {
    if |mask| == 0 then 0
    else MaskedCount(mask[..|mask| - 1]) + (if mask[|mask| - 1] then 1 else 0)
  }

  function MaskedSum(img: seq<Rgb>, mask: seq<bool>, c: nat): int
    requires |img| == |mask| && c < 3
    decreases |img|
  {
    if |img| == 0 then 0
    else
      var n := |img| - 1;
      MaskedSum(img[..n], mask[..n], c) + (if mask[n] then Channel(img[n], c) else 0)
  }

  /** Masked channel sums of an 8-bit image lie between 0 and 255 per pixel. */
  lemma {:induction false} MaskedSumBounds(img: seq<Rgb>, mask: seq<bool>, c: nat)
    requires |img| == |mask| && c < 3 && IsImage(img)
    ensures 0 <= MaskedSum(img, mask, c) <= 255 * MaskedCount(mask)
    decreases |img|
  {
    if |img| > 0 {
      var n := |img| - 1;
      assert IsImage(img[..n]) by {
        forall i | 0 <= i < n ensures IsPixel(img[..n][i]) { assert img[..n][i] == img[i]; }
      }
      MaskedSumBounds(img[..n], mask[..n], c);
      assert IsPixel(img[n]);
    }
  }

  /** `int(mean)` of one channel, or 0 under an empty mask. */
  function MeanChannel(img: seq<Rgb>, mask: seq<bool>, c: nat): int
    requires |img| == |mask| && c < 3
  {
    var n := MaskedCount(mask);
    if n == 0 then 0 else PyNum.Trunc(MaskedSum(img, mask, c) as real / n as real)
  }

  function RegionColor(img: seq<Rgb>, mask: seq<bool>): (color: Rgb)
    requires |img| == |mask|
    ensures MaskedCount(mask) == 0 ==> color == Rgb(0, 0, 0)
  {
    Rgb(MeanChannel(img, mask, 0), MeanChannel(img, mask, 1), MeanChannel(img, mask, 2))
  }

  lemma MeanOfBoundedSum(sum: int, n: nat)
    requires n > 0 && 0 <= sum <= 255 * n
    ensures 0.0 <= sum as real / n as real <= 255.0
  {
    assert sum as real <= 255.0 * n as real;
  }

  lemma MeanChannelIsByte(img: seq<Rgb>, mask: seq<bool>, c: nat)
    requires |img| == |mask| && c < 3 && IsImage(img)
    ensures IsByte(MeanChannel(img, mask, c))
  {
    var n := MaskedCount(mask);
    if n > 0 {
      MaskedSumBounds(img, mask, c);
      var mean := MaskedSum(img, mask, c) as real / n as real;
      MeanOfBoundedSum(MaskedSum(img, mask, c), n);
      PyNum.TruncMonotone(0.0, mean);
      PyNum.TruncMonotone(mean, 255.0);
      PyNum.TruncOfInt(0);
      PyNum.TruncOfInt(255);
    }
  }

  /** The mean colour of an 8-bit image is an 8-bit colour. */
  lemma RegionColorIsPixel(img: seq<Rgb>, mask: seq<bool>)
    requires |img| == |mask| && IsImage(img)
    ensures IsPixel(RegionColor(img, mask))
  {
    MeanChannelIsByte(img, mask, 0);
    MeanChannelIsByte(img, mask, 1);
    MeanChannelIsByte(img, mask, 2);
  }

  // ---------------------------------------------------------------------
  // `apply_intensity_mask`: the per-channel blend.
  // ---------------------------------------------------------------------

  /** `(intensity - 50) * 0.01` */
  function Weight(intensity: real): real {
    (intensity - 50.0) * 0.01
  }

  /** The blended value of one channel `x`, given the region colour's channel
      `base` and the smoothed mask weight `w` at that pixel. */
  function Blend(x: real, base: real, w: real, intensity: real): real {
    var k := Weight(intensity);
    if k >= 0.0 then x * (1.0 - k * w) + base * (k * w)
    else
      var k2 := k * 0.25;
      x * (1.0 + k2 * w) + 255.0 * (-k2 * w)
  }

  /** Above 50 the channel moves towards the region colour by the fraction
      `(intensity - 50) / 100 * w`. */
  lemma BlendTowardsBase(x: real, base: real, w: real, intensity: real)
    requires intensity >= 50.0
    ensures Blend(x, base, w, intensity) == x + Weight(intensity) * w * (base - x)
  {
  }

  /** Below 50 the channel moves towards white by a quarter of that fraction. */
  lemma BlendTowardsWhite(x: real, base: real, w: real, intensity: real)
    requires intensity < 50.0
    ensures Blend(x, base, w, intensity) == x + (-Weight(intensity) * 0.25) * w * (255.0 - x)
  {
  }

  /** Intensity 50 leaves every channel as it is. */
  lemma BlendNeutral(x: real, base: real, w: real)
    ensures Blend(x, base, w, 50.0) == x
  {
  }

  lemma UnitProduct(a: real, b: real)
    requires 0.0 <= a <= 1.0 && 0.0 <= b <= 1.0
    ensures 0.0 <= a * b <= 1.0
  {
    assert a * b <= a * 1.0 by {
      assert a * (1.0 - b) >= 0.0;
    }
  }

  lemma ConvexStep(x: real, y: real, t: real)
    requires 0.0 <= t <= 1.0
    ensures PyNum.MinR(x, y) <= x + t * (y - x) <= PyNum.MaxR(x, y)
  {
    var d := y - x;
    if x <= y {
      ScaleBelow(t, d);
      assert t * d <= d;
      assert x + t * d <= y;
      assert x + t * (y - x) <= y;
      assert PyNum.MinR(x, y) == x && PyNum.MaxR(x, y) == y;
    } else {
      ScaleBelow(t, -d);
      assert t * d == -(t * -d);
      assert PyNum.MinR(x, y) == y && PyNum.MaxR(x, y) == x;
    }
  }

  lemma ScaleBelow(t: real, d: real)
    requires 0.0 <= t <= 1.0 && 0.0 <= d
    ensures 0.0 <= t * d <= d
  {
    assert d - t * d == (1.0 - t) * d;
    assert (1.0 - t) * d >= 0.0;
  }

  /** With a weight in [0, 1] the blend stays between the channel and its
      target (region colour above 50, white below). */
  lemma BlendBetween(x: real, base: real, w: real, intensity: real)
    requires 0.0 <= w <= 1.0 && 0.0 <= intensity <= 100.0
    ensures intensity >= 50.0 ==>
              PyNum.MinR(x, base) <= Blend(x, base, w, intensity) <= PyNum.MaxR(x, base)
    ensures intensity < 50.0 ==>
              PyNum.MinR(x, 255.0) <= Blend(x, base, w, intensity) <= PyNum.MaxR(x, 255.0)
  {
    var k := Weight(intensity);
    if intensity >= 50.0 {
      BlendTowardsBase(x, base, w, intensity);
      UnitProduct(k, w);
      ConvexStep(x, base, k * w);
    } else {
      BlendTowardsWhite(x, base, w, intensity);
      var t := (-k * 0.25) * w;
      UnitProduct(-k * 0.25, w);
      ConvexStep(x, 255.0, t);
    }
  }

  /** `np.clip(blended, 0, 255).astype(np.uint8)` on one channel. */
  function OutChannel(x: int, base: int, w: real, intensity: real): (r: int)
    ensures IsByte(r)
  {
    var v := PyNum.Clip(Blend(x as real, base as real, w, intensity), 0.0, 255.0);
    PyNum.TruncMonotone(0.0, v);
    PyNum.TruncMonotone(v, 255.0);
    PyNum.TruncOfInt(0);
    PyNum.TruncOfInt(255);
    PyNum.Trunc(v)
  }

  function OutPixel(p: Rgb, base: Rgb, w: real, intensity: real): (q: Rgb)
    ensures IsPixel(q)
  {
    Rgb(OutChannel(p.r, base.r, w, intensity), OutChannel(p.g, base.g, w, intensity),
        OutChannel(p.b, base.b, w, intensity))
  }

  lemma OutChannelNeutral(x: int, base: int, w: real)
    requires IsByte(x)
    ensures OutChannel(x, base, w, 50.0) == x
  {
    BlendNeutral(x as real, base as real, w);
    PyNum.TruncOfInt(x);
  }

  /** A region of the segmentation: its boolean mask and the mask after the
      Gaussian blur. */
  datatype Region = Region(mask: seq<bool>, blurred: seq<real>)

  predicate FitsImage(region: Region, n: nat) {
    |region.mask| == n && |region.blurred| == n
  }

  /** `apply_intensity_mask(image, mask, intensity)`. */
  function ApplyIntensityMask(img: seq<Rgb>, region: Region, intensity: real): (out: seq<Rgb>)
    requires |img| > 0 && FitsImage(region, |img|)
    ensures |out| == |img| && IsImage(out)
    ensures forall i :: 0 <= i < |img| ==>
              out[i] == OutPixel(img[i], RegionColor(img, region.mask), SmoothMask(region.blurred)[i], intensity)
  {
    var smooth := SmoothMask(region.blurred);
    var base := RegionColor(img, region.mask);
    seq(|img|, i requires 0 <= i < |img| => OutPixel(img[i], base, smooth[i], intensity))
  }

  /** Intensity 50 leaves an 8-bit image unchanged. */
  lemma ApplyNeutral(img: seq<Rgb>, region: Region)
    requires |img| > 0 && FitsImage(region, |img|) && IsImage(img)
    ensures ApplyIntensityMask(img, region, 50.0) == img
  {
    var out := ApplyIntensityMask(img, region, 50.0);
    var base := RegionColor(img, region.mask);
    var smooth := SmoothMask(region.blurred);
    forall i | 0 <= i < |img| ensures out[i] == img[i] {
      assert IsPixel(img[i]);
      OutChannelNeutral(img[i].r, base.r, smooth[i]);
      OutChannelNeutral(img[i].g, base.g, smooth[i]);
      OutChannelNeutral(img[i].b, base.b, smooth[i]);
    }
  }

  // ---------------------------------------------------------------------
  // `run_inference`: validation and the edit loop.
  // ---------------------------------------------------------------------

  /** One edit: `edit.get("region")` and `edit.get("intensity")`. */
  datatype Edit = Edit(region: Option<string>, intensity: Option<real>)

  /** The `edits` field: a list, or some other JSON value. */
  datatype EditsField = EditList(edits: seq<Edit>) | NotAList

  datatype CustomizationRequest = CustomizationRequest(baseImage: Option<string>, edits: Option<EditsField>)

  /** The regions found on the decoded image; `blush` is absent when no face
      landmarks were found. */
  datatype Segmentation = Segmentation(skin: Region, lip: Region, eyelid: Region, blush: Option<Region>)

  predicate FitsSegmentation(seg: Segmentation, n: nat) {
    FitsImage(seg.skin, n) && FitsImage(seg.lip, n) && FitsImage(seg.eyelid, n) &&
    (seg.blush.Some? ==> FitsImage(seg.blush.value, n))
  }

  /** One iteration of the edit loop: unknown regions, and blush without
      landmarks, leave the image as it is. */
  function ApplyEdit(img: seq<Rgb>, e: Edit, seg: Segmentation): (out: seq<Rgb>)
    requires |img| > 0 && FitsSegmentation(seg, |img|)
    ensures |out| == |img|
    ensures IsImage(img) ==> IsImage(out)
  {
    var intensity := e.intensity.GetOr(50.0);
    if e.region == Some("skin") then ApplyIntensityMask(img, seg.skin, intensity)
    else if e.region == Some("lip") then ApplyIntensityMask(img, seg.lip, intensity)
    else if e.region == Some("eyelid") then ApplyIntensityMask(img, seg.eyelid, intensity)
    else if e.region == Some("blush") && seg.blush.Some? then ApplyIntensityMask(img, seg.blush.value, intensity)
    else img
  }

  /** The edits applied in request order, each to the previous result. */
  function ApplyEdits(img: seq<Rgb>, edits: seq<Edit>, seg: Segmentation): (out: seq<Rgb>)
    requires |img| > 0 && FitsSegmentation(seg, |img|)
    ensures |out| == |img|
    ensures IsImage(img) ==> IsImage(out)
    decreases |edits|
  {
    if |edits| == 0 then img
    else ApplyEdit(ApplyEdits(img, edits[..|edits| - 1], seg), edits[|edits| - 1], seg)
  }

  /** Applying two batches of edits is applying their concatenation. */
  lemma {:induction false} ApplyEditsCompose(img: seq<Rgb>, e1: seq<Edit>, e2: seq<Edit>, seg: Segmentation)
    requires |img| > 0 && FitsSegmentation(seg, |img|)
    ensures ApplyEdits(img, e1 + e2, seg) == ApplyEdits(ApplyEdits(img, e1, seg), e2, seg)
    decreases |e2|
  {
    if |e2| == 0 {
      assert e1 + e2 == e1;
    } else {
      var n := |e2| - 1;
      assert (e1 + e2)[..|e1 + e2| - 1] == e1 + e2[..n];
      ApplyEditsCompose(img, e1, e2[..n], seg);
    }
  }

  /** An edit for an unknown region, or for blush without landmarks, changes
      nothing. */
  lemma UnknownRegionIgnored(img: seq<Rgb>, e: Edit, seg: Segmentation)
    requires |img| > 0 && FitsSegmentation(seg, |img|)
    requires e.region.None? ||
             !(e.region.value == "skin" || e.region.value == "lip" || e.region.value == "eyelid" ||
               e.region.value == "blush") ||
             (e.region.value == "blush" && seg.blush.None?)
    ensures ApplyEdit(img, e, seg) == img
  {
  }

  /** An edit without an intensity uses 50 and leaves an 8-bit image unchanged. */
  lemma DefaultIntensityNeutral(img: seq<Rgb>, e: Edit, seg: Segmentation)
    requires |img| > 0 && FitsSegmentation(seg, |img|) && IsImage(img)
    requires e.intensity.None?
    ensures ApplyEdit(img, e, seg) == img
  {
    assert e.intensity.GetOr(50.0) == 50.0;
    if e.region == Some("skin") {
      ApplyNeutral(img, seg.skin);
    } else if e.region == Some("lip") {
      ApplyNeutral(img, seg.lip);
    } else if e.region == Some("eyelid") {
      ApplyNeutral(img, seg.eyelid);
    } else if e.region == Some("blush") && seg.blush.Some? {
      ApplyNeutral(img, seg.blush.value);
    }
  }

  datatype CustomizationResponse = CustomizationSuccess(resultImage: seq<Rgb>) | CustomizationFailed(message: string)

  const MissingImageMessage: string := "Missing key: base_image_base64"
  const BadEditsMessage: string := "Missing key or invalid type: edits (must be list)"

  /** The response for a request, given what decoding the image produced
      (or the error it raised) and the segmentation of the decoded image. */
  function Respond(req: CustomizationRequest, decoded: Result<seq<Rgb>>, seg: Segmentation): (r: CustomizationResponse)
    requires decoded.Ok? ==> |decoded.value| > 0 && FitsSegmentation(seg, |decoded.value|)
    ensures req.baseImage.None? ==> r == CustomizationFailed(MissingImageMessage)
    ensures req.baseImage.Some? && !(req.edits.Some? && req.edits.value.EditList?) ==>
              r == CustomizationFailed(BadEditsMessage)
    ensures r.CustomizationSuccess? <==> req.baseImage.Some? && req.edits.Some? && req.edits.value.EditList? && decoded.Ok?
  {
    if req.baseImage.None? then CustomizationFailed(MissingImageMessage)
    else if req.edits.None? || req.edits.value.NotAList? then CustomizationFailed(BadEditsMessage)
    else match decoded
      case Err(m) => CustomizationFailed(m)
      case Ok(img) => CustomizationSuccess(ApplyEdits(img, req.edits.value.edits, seg))
  }

  /** `run_inference`: the checks, then the edit loop reassigning the image. */
  method RunInference(req: CustomizationRequest, decoded: Result<seq<Rgb>>, seg: Segmentation)
    returns (r: CustomizationResponse)
    requires decoded.Ok? ==> |decoded.value| > 0 && FitsSegmentation(seg, |decoded.value|)
    ensures r == Respond(req, decoded, seg)
    ensures r.CustomizationSuccess? && IsImage(decoded.value) ==> IsImage(r.resultImage)
  {
    if req.baseImage.None? {
      return CustomizationFailed(MissingImageMessage);
    }
    if req.edits.None? || req.edits.value.NotAList? {
      return CustomizationFailed(BadEditsMessage);
    }
    if decoded.Err? {
      return CustomizationFailed(decoded.msg);
    }
    var edits := req.edits.value.edits;
    var image := decoded.value;
    var i := 0;
    while i < |edits|
      invariant 0 <= i <= |edits|
      invariant image == ApplyEdits(decoded.value, edits[..i], seg)
    {
      assert edits[..i + 1][..i] == edits[..i];
      image := ApplyEdit(image, edits[i], seg);
      i := i + 1;
    }
    assert edits[..i] == edits;
    return CustomizationSuccess(image);
  }
}
