/** The application's customisation variant: the edits only choose one
    blend weight (alpha) per region, and the four region masks are then
    applied once each, in a fixed order. */
module AppCustomizationService {
  import opened Wrappers
  import PyNum
  import CS = CustomizationService

  // ---------------------------------------------------------------------
  // `apply_intensity_mask`: blending without a clip.
  // ---------------------------------------------------------------------

  /** `image * (1 - alpha * smooth) + base * (alpha * smooth)` on one channel,
      before the cast to 8 bits. */
  function RawBlend(x: real, base: real, w: real, alpha: real): real {
    x * (1.0 - alpha * w) + base * (alpha * w)
  }

  /** The blend is a convex combination of the channel and the region colour
      when `alpha * w` lies in [0, 1]. */
  lemma RawBlendConvex(x: real, base: real, w: real, alpha: real)
    requires 0.0 <= alpha <= 1.0 && 0.0 <= w <= 1.0
    ensures PyNum.MinR(x, base) <= RawBlend(x, base, w, alpha) <= PyNum.MaxR(x, base)
  {
    CS.UnitProduct(alpha, w);
    assert RawBlend(x, base, w, alpha) == x + (alpha * w) * (base - x);
    CS.ConvexStep(x, base, alpha * w);
  }

  /** As written, an alpha above 1 (an intensity above 100) drives a bright
      channel below 0 before `astype(np.uint8)`, a value with no 8-bit
      counterpart. */
  lemma RawBlendLeavesByteRange()
    ensures RawBlend(200.0, 0.0, 1.0, 2.0) == -200.0
    ensures !(0.0 <= RawBlend(200.0, 0.0, 1.0, 2.0) <= 255.0)
  {
  }

  /** The 8-bit channel with the clip the cast needs. */
  function OutChannel(x: int, base: int, w: real, alpha: real): (r: int)
    ensures CS.IsByte(r)
  {
    var v := PyNum.Clip(RawBlend(x as real, base as real, w, alpha), 0.0, 255.0);
    PyNum.TruncMonotone(0.0, v);
    PyNum.TruncMonotone(v, 255.0);
    PyNum.TruncOfInt(0);
    PyNum.TruncOfInt(255);
    PyNum.Trunc(v)
  }

  /** For alphas and weights in [0, 1] the clip changes nothing: the clipped
      channel is the truncated blend of the source. */
  lemma OutChannelNeedsNoClipInRange(x: int, base: int, w: real, alpha: real)
    requires CS.IsByte(x) && CS.IsByte(base)
    requires 0.0 <= alpha <= 1.0 && 0.0 <= w <= 1.0
    ensures OutChannel(x, base, w, alpha) == PyNum.Trunc(RawBlend(x as real, base as real, w, alpha))
  {
    RawBlendConvex(x as real, base as real, w, alpha);
  }

  /** Alpha 0 leaves the channel unchanged. */
  lemma OutChannelZeroAlpha(x: int, base: int, w: real)
    requires CS.IsByte(x)
    ensures OutChannel(x, base, w, 0.0) == x
  {
    assert RawBlend(x as real, base as real, w, 0.0) == x as real;
    PyNum.TruncOfInt(x);
  }

  function OutPixel(p: CS.Rgb, base: CS.Rgb, w: real, alpha: real): (q: CS.Rgb)
    ensures CS.IsPixel(q)
  {
    CS.Rgb(OutChannel(p.r, base.r, w, alpha), OutChannel(p.g, base.g, w, alpha), OutChannel(p.b, base.b, w, alpha))
  }

  /** `apply_intensity_mask(image, mask, intensity=alpha)`: blend towards the
      region's mean colour. */
  function ApplyMask(img: seq<CS.Rgb>, region: CS.Region, alpha: real): (out: seq<CS.Rgb>)
    requires |img| > 0 && CS.FitsImage(region, |img|)
    ensures |out| == |img| && CS.IsImage(out)
    ensures forall i :: 0 <= i < |img| ==>
              out[i] == OutPixel(img[i], CS.RegionColor(img, region.mask), CS.SmoothMask(region.blurred)[i], alpha)
  {
    var smooth := CS.SmoothMask(region.blurred);
    var base := CS.RegionColor(img, region.mask);
    seq(|img|, i requires 0 <= i < |img| => OutPixel(img[i], base, smooth[i], alpha))
  }

  /** The blend exactly as written: truncated toward zero, with no clip, so
      a channel may leave the 8-bit range (as `RawBlendLeavesByteRange` shows). */
  function ApplyMaskAsWritten(img: seq<CS.Rgb>, region: CS.Region, alpha: real): (out: seq<CS.Rgb>)
    requires |img| > 0 && CS.FitsImage(region, |img|)
    ensures |out| == |img|
  {
    var smooth := CS.SmoothMask(region.blurred);
    var base := CS.RegionColor(img, region.mask);
    seq(|img|, i requires 0 <= i < |img| =>
      CS.Rgb(PyNum.Trunc(RawBlend(img[i].r as real, base.r as real, smooth[i], alpha)),
             PyNum.Trunc(RawBlend(img[i].g as real, base.g as real, smooth[i], alpha)),
             PyNum.Trunc(RawBlend(img[i].b as real, base.b as real, smooth[i], alpha))))
  }

  /** A Gaussian blur of a 0/1 mask has no negative weight. */
  predicate BlurNonNegative(region: CS.Region) {
    forall i :: 0 <= i < |region.blurred| ==> region.blurred[i] >= 0.0
  }

  /** For an 8-bit image and an alpha in [0, 1] the clipped blend is the
      blend as written. */
  lemma ApplyMaskAgreesInRange(img: seq<CS.Rgb>, region: CS.Region, alpha: real)
    requires |img| > 0 && CS.FitsImage(region, |img|) && CS.IsImage(img)
    requires 0.0 <= alpha <= 1.0 && BlurNonNegative(region)
    ensures ApplyMask(img, region, alpha) == ApplyMaskAsWritten(img, region, alpha)
  {
    var smooth := CS.SmoothMask(region.blurred);
    var base := CS.RegionColor(img, region.mask);
    CS.SmoothMaskUnitRange(region.blurred);
    CS.RegionColorIsPixel(img, region.mask);
    var out := ApplyMask(img, region, alpha);
    var raw := ApplyMaskAsWritten(img, region, alpha);
    forall i | 0 <= i < |img| ensures out[i] == raw[i] {
      assert CS.IsPixel(img[i]);
      OutChannelNeedsNoClipInRange(img[i].r, base.r, smooth[i], alpha);
      OutChannelNeedsNoClipInRange(img[i].g, base.g, smooth[i], alpha);
      OutChannelNeedsNoClipInRange(img[i].b, base.b, smooth[i], alpha);
    }
  }

  // ---------------------------------------------------------------------
  // `run_inference`: folding the edits into four alphas.
  // ---------------------------------------------------------------------

  /** One edit: region, intensity and the `color` dict, each possibly absent.
      For the region and the colour an absent entry and a `None` entry read
      the same through `get`; an intensity entry holding `None` is not
      modelled, since `get("intensity", 30)` then gives `None` and the
      division raises. */
  datatype AppEdit = AppEdit(region: Option<string>, intensity: Option<real>, color: Option<map<string, real>>)

  datatype Alphas = Alphas(skin: real, lip: real, eyelid: real, blush: real)

  const DefaultAlpha: real := 0.3
  const Defaults: Alphas := Alphas(DefaultAlpha, DefaultAlpha, DefaultAlpha, DefaultAlpha)

  /** `edit.get("intensity", 30) / 100.0` */
  function EditAlpha(e: AppEdit): real {
    e.intensity.GetOr(30.0) / 100.0
  }

  /** `color_dict.get(key, 0)` */
  function Component(c: map<string, real>, key: string): real {
    if key in c then c[key] else 0.0
  }

  /** `(color_dict.get("r", 0), color_dict.get("g", 0), color_dict.get("b", 0))`
      under `if color_dict:`, parsed but never used for blending. */
  function ParsedColor(e: AppEdit): (c: Option<(real, real, real)>)
    ensures c.Some? <==> e.color.Some? && e.color.value != map[]
    ensures c.Some? ==> c.value == (Component(e.color.value, "r"), Component(e.color.value, "g"),
                                    Component(e.color.value, "b"))
  {
    if e.color.None? || e.color.value == map[] then None
    else Some((Component(e.color.value, "r"), Component(e.color.value, "g"), Component(e.color.value, "b")))
  }

  /** One iteration of the edit loop. Region "eye" sets the eyelid alpha;
      "eyelid" and unknown names change nothing. */
  function Step(a: Alphas, e: AppEdit): Alphas {
    var alpha := EditAlpha(e);
    if e.region == Some("skin") then a.(skin := alpha)
    else if e.region == Some("lip") then a.(lip := alpha)
    else if e.region == Some("eye") then a.(eyelid := alpha)
    else if e.region == Some("blush") then a.(blush := alpha)
    else a
  }

  function Fold(edits: seq<AppEdit>): Alphas
    decreases |edits|
  {
    if |edits| == 0 then Defaults else Step(Fold(edits[..|edits| - 1]), edits[|edits| - 1])
  }

  /** The alpha a region name selects, for the four names the loop knows. */
  function AlphaOf(a: Alphas, region: string): real
    requires region == "skin" || region == "lip" || region == "eye" || region == "blush"
  {
    if region == "skin" then a.skin else if region == "lip" then a.lip
    else if region == "eye" then a.eyelid else a.blush
  }

  /** Names that select an alpha. */
  predicate Selects(e: AppEdit, region: string) {
    e.region == Some(region)
  }

  /** One step sets the alpha of the region the edit names and keeps the others. */
  lemma StepAlpha(a: Alphas, e: AppEdit, region: string)
    requires region == "skin" || region == "lip" || region == "eye" || region == "blush"
    ensures AlphaOf(Step(a, e), region) == if Selects(e, region) then EditAlpha(e) else AlphaOf(a, region)
  {
  }

  /** A region no edit names keeps the default 0.3. */
  lemma {:induction false} UnnamedKeepsDefault(edits: seq<AppEdit>, region: string)
    requires region == "skin" || region == "lip" || region == "eye" || region == "blush"
    requires forall i :: 0 <= i < |edits| ==> !Selects(edits[i], region)
    ensures AlphaOf(Fold(edits), region) == DefaultAlpha
    decreases |edits|
  {
    if |edits| > 0 {
      var n := |edits| - 1;
      var front := edits[..n];
      assert forall i :: 0 <= i < n ==> front[i] == edits[i];
      UnnamedKeepsDefault(front, region);
      StepAlpha(Fold(front), edits[n], region);
    }
  }

  /** The last edit naming a region decides its alpha. */
  lemma {:induction false} LastEditWins(edits: seq<AppEdit>, region: string, i: nat)
    requires region == "skin" || region == "lip" || region == "eye" || region == "blush"
    requires i < |edits| && Selects(edits[i], region)
    requires forall j :: i < j < |edits| ==> !Selects(edits[j], region)
    ensures AlphaOf(Fold(edits), region) == EditAlpha(edits[i])
    decreases |edits|
  {
    var n := |edits| - 1;
    var front := edits[..n];
    StepAlpha(Fold(front), edits[n], region);
    if i < n {
      assert forall j :: i < j < n ==> front[j] == edits[j];
      LastEditWins(front, region, i);
    }
  }

  /** The colours in the edits do not affect the alphas. */
  lemma {:induction false} ColorIgnored(edits: seq<AppEdit>, others: seq<AppEdit>)
    requires |edits| == |others|
    requires forall i :: 0 <= i < |edits| ==>
               edits[i].region == others[i].region && edits[i].intensity == others[i].intensity
    ensures Fold(edits) == Fold(others)
    decreases |edits|
  {
    if |edits| > 0 {
      var n := |edits| - 1;
      ColorIgnored(edits[..n], others[..n]);
    }
  }

  /** Every intensity given lies in [0, 100]. */
  predicate IntensitiesInRange(edits: seq<AppEdit>) {
    forall i :: 0 <= i < |edits| ==> edits[i].intensity.None? || 0.0 <= edits[i].intensity.value <= 100.0
  }

  predicate AlphasInUnit(a: Alphas) {
    0.0 <= a.skin <= 1.0 && 0.0 <= a.lip <= 1.0 && 0.0 <= a.eyelid <= 1.0 && 0.0 <= a.blush <= 1.0
  }

  /** Intensities in [0, 100] (or the default 30) give alphas in [0, 1]. */
  lemma {:induction false} FoldAlphasInUnit(edits: seq<AppEdit>)
    requires IntensitiesInRange(edits)
    ensures AlphasInUnit(Fold(edits))
    decreases |edits|
  {
    if |edits| > 0 {
      var n := |edits| - 1;
      var front := edits[..n];
      assert forall i :: 0 <= i < n ==> front[i] == edits[i];
      FoldAlphasInUnit(front);
      assert 0.0 <= EditAlpha(edits[n]) <= 1.0;
    }
  }

  /** An edit for "eyelid", or for a name outside the four, changes no alpha. */
  lemma IgnoredNames(a: Alphas, e: AppEdit)
    requires e.region.None? ||
             !(e.region.value == "skin" || e.region.value == "lip" || e.region.value == "eye" ||
               e.region.value == "blush")
    ensures Step(a, e) == a
  {
  }

  /** The edit loop over four local variables. */
  method CollectAlphas(edits: seq<AppEdit>) returns (a: Alphas)
    ensures a == Fold(edits)
  {
    var skin, lip, eyelid, blush := DefaultAlpha, DefaultAlpha, DefaultAlpha, DefaultAlpha;
    var i := 0;
    while i < |edits|
      invariant 0 <= i <= |edits|
      invariant Alphas(skin, lip, eyelid, blush) == Fold(edits[..i])
    {
      assert edits[..i + 1][..i] == edits[..i];
      var e := edits[i];
      var alpha := EditAlpha(e);
      var color := ParsedColor(e);
      if e.region == Some("skin") {
        skin := alpha;
      } else if e.region == Some("lip") {
        lip := alpha;
      } else if e.region == Some("eye") {
        eyelid := alpha;
      } else if e.region == Some("blush") {
        blush := alpha;
      }
      i := i + 1;
    }
    assert edits[..i] == edits;
    a := Alphas(skin, lip, eyelid, blush);
  }

  // ---------------------------------------------------------------------
  // `run_inference`: the fixed application order.
  // ---------------------------------------------------------------------

  /** Skin, lip and eyelid masks in that order, then blush when landmarks
      were found. */
  function Compose(img: seq<CS.Rgb>, seg: CS.Segmentation, a: Alphas): (out: seq<CS.Rgb>)
    requires |img| > 0 && CS.FitsSegmentation(seg, |img|)
    ensures |out| == |img| && CS.IsImage(out)
  {
    var s1 := ApplyMask(img, seg.skin, a.skin);
    var s2 := ApplyMask(s1, seg.lip, a.lip);
    var s3 := ApplyMask(s2, seg.eyelid, a.eyelid);
    if seg.blush.Some? then ApplyMask(s3, seg.blush.value, a.blush) else s3
  }

  /** With every alpha 0 the image comes back unchanged. */
  lemma ZeroAlphasKeepImage(img: seq<CS.Rgb>, seg: CS.Segmentation)
    requires |img| > 0 && CS.FitsSegmentation(seg, |img|) && CS.IsImage(img)
    ensures Compose(img, seg, Alphas(0.0, 0.0, 0.0, 0.0)) == img
  {
    ZeroAlphaKeeps(img, seg.skin);
    ZeroAlphaKeeps(img, seg.lip);
    ZeroAlphaKeeps(img, seg.eyelid);
    if seg.blush.Some? {
      ZeroAlphaKeeps(img, seg.blush.value);
    }
  }

  lemma ZeroAlphaKeeps(img: seq<CS.Rgb>, region: CS.Region)
    requires |img| > 0 && CS.FitsImage(region, |img|) && CS.IsImage(img)
    ensures ApplyMask(img, region, 0.0) == img
  {
    var out := ApplyMask(img, region, 0.0);
    var base := CS.RegionColor(img, region.mask);
    var smooth := CS.SmoothMask(region.blurred);
    forall i | 0 <= i < |img| ensures out[i] == img[i] {
      assert CS.IsPixel(img[i]);
      OutChannelZeroAlpha(img[i].r, base.r, smooth[i]);
      OutChannelZeroAlpha(img[i].g, base.g, smooth[i]);
      OutChannelZeroAlpha(img[i].b, base.b, smooth[i]);
    }
  }

  /** The four assignments of `run_inference` with the blend as written. */
  function ComposeAsWritten(img: seq<CS.Rgb>, seg: CS.Segmentation, a: Alphas): (out: seq<CS.Rgb>)
    requires |img| > 0 && CS.FitsSegmentation(seg, |img|)
    ensures |out| == |img|
  {
    var s1 := ApplyMaskAsWritten(img, seg.skin, a.skin);
    var s2 := ApplyMaskAsWritten(s1, seg.lip, a.lip);
    var s3 := ApplyMaskAsWritten(s2, seg.eyelid, a.eyelid);
    if seg.blush.Some? then ApplyMaskAsWritten(s3, seg.blush.value, a.blush) else s3
  }

  predicate SegBlursNonNegative(seg: CS.Segmentation) {
    BlurNonNegative(seg.skin) && BlurNonNegative(seg.lip) && BlurNonNegative(seg.eyelid) &&
    (seg.blush.Some? ==> BlurNonNegative(seg.blush.value))
  }

  /** With alphas in [0, 1] the clipped composition is the composition as written. */
  lemma ComposeAgreesInRange(img: seq<CS.Rgb>, seg: CS.Segmentation, a: Alphas)
    requires |img| > 0 && CS.FitsSegmentation(seg, |img|) && CS.IsImage(img)
    requires AlphasInUnit(a) && SegBlursNonNegative(seg)
    ensures Compose(img, seg, a) == ComposeAsWritten(img, seg, a)
  {
    ApplyMaskAgreesInRange(img, seg.skin, a.skin);
    var s1 := ApplyMask(img, seg.skin, a.skin);
    ApplyMaskAgreesInRange(s1, seg.lip, a.lip);
    var s2 := ApplyMask(s1, seg.lip, a.lip);
    ApplyMaskAgreesInRange(s2, seg.eyelid, a.eyelid);
    var s3 := ApplyMask(s2, seg.eyelid, a.eyelid);
    if seg.blush.Some? {
      ApplyMaskAgreesInRange(s3, seg.blush.value, a.blush);
    }
  }

  datatype AppRequest = AppRequest(baseImage: Option<string>, edits: Option<seq<AppEdit>>)

  const NoImageMessage: string := "No source image provided"

  /** The response, given the decoded image (or the decoding error) and the
      segmentation of the decoded image. */
  function Respond(req: AppRequest, decoded: Result<seq<CS.Rgb>>, seg: CS.Segmentation): (r: CS.CustomizationResponse)
    requires decoded.Ok? ==> |decoded.value| > 0 && CS.FitsSegmentation(seg, |decoded.value|)
    ensures req.baseImage.None? ==> r == CS.CustomizationFailed(NoImageMessage)
    ensures r.CustomizationSuccess? <==> req.baseImage.Some? && decoded.Ok?
  {
    if req.baseImage.None? then CS.CustomizationFailed(NoImageMessage)
    else match decoded
      case Err(m) => CS.CustomizationFailed(m)
      case Ok(img) => CS.CustomizationSuccess(Compose(img, seg, Fold(req.edits.GetOr([]))))
  }

  /** A request without edits applies the default alpha 0.3 to every region. */
  lemma NoEditsUseDefaults(req: AppRequest, img: seq<CS.Rgb>, seg: CS.Segmentation)
    requires req.baseImage.Some? && req.edits.None?
    requires |img| > 0 && CS.FitsSegmentation(seg, |img|)
    ensures Respond(req, Ok(img), seg) == CS.CustomizationSuccess(Compose(img, seg, Defaults))
  {
  }

  /** `run_inference` with the blend as written. */
  function RespondAsWritten(req: AppRequest, decoded: Result<seq<CS.Rgb>>, seg: CS.Segmentation): (r: CS.CustomizationResponse)
    requires decoded.Ok? ==> |decoded.value| > 0 && CS.FitsSegmentation(seg, |decoded.value|)
    ensures r.CustomizationSuccess? <==> req.baseImage.Some? && decoded.Ok?
  {
    if req.baseImage.None? then CS.CustomizationFailed(NoImageMessage)
    else match decoded
      case Err(m) => CS.CustomizationFailed(m)
      case Ok(img) => CS.CustomizationSuccess(ComposeAsWritten(img, seg, Fold(req.edits.GetOr([]))))
  }

  /** The clip only differs from the source for intensities outside [0, 100]:
      within that range the response is the one the source computes. */
  lemma RespondAgreesInRange(req: AppRequest, decoded: Result<seq<CS.Rgb>>, seg: CS.Segmentation)
    requires decoded.Ok? ==> |decoded.value| > 0 && CS.FitsSegmentation(seg, |decoded.value|)
    requires decoded.Ok? ==> CS.IsImage(decoded.value)
    requires req.edits.Some? ==> IntensitiesInRange(req.edits.value)
    requires SegBlursNonNegative(seg)
    ensures Respond(req, decoded, seg) == RespondAsWritten(req, decoded, seg)
  {
    if req.baseImage.Some? && decoded.Ok? {
      var edits := req.edits.GetOr([]);
      assert IntensitiesInRange(edits);
      FoldAlphasInUnit(edits);
      ComposeAgreesInRange(decoded.value, seg, Fold(edits));
    }
  }

  /** `run_inference`: fold the edits, then assign the result image four times. */
  method RunInference(req: AppRequest, decoded: Result<seq<CS.Rgb>>, seg: CS.Segmentation)
    returns (r: CS.CustomizationResponse)
    requires decoded.Ok? ==> |decoded.value| > 0 && CS.FitsSegmentation(seg, |decoded.value|)
    ensures r == Respond(req, decoded, seg)
  {
    if req.baseImage.None? {
      return CS.CustomizationFailed(NoImageMessage);
    }
    if decoded.Err? {
      return CS.CustomizationFailed(decoded.msg);
    }
    var a := CollectAlphas(req.edits.GetOr([]));
    var result := decoded.value;
    result := ApplyMask(result, seg.skin, a.skin);
    result := ApplyMask(result, seg.lip, a.lip);
    result := ApplyMask(result, seg.eyelid, a.eyelid);
    if seg.blush.Some? {
      result := ApplyMask(result, seg.blush.value, a.blush);
    }
    return CS.CustomizationSuccess(result);
  }
}
