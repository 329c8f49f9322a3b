/** Skin-score arithmetic of the regression service (service/nia_service.py). */
module NiaService {
  import opened Wrappers
  import opened PyNum
  import Schemas

  /** A Python number as these services produce it: `int(...)` or `float(...)`. */
  datatype Num = IntNum(i: int) | FloatNum(f: real) {
    function ToReal(): real {
      match this
      case IntNum(i) => i as real
      case FloatNum(f) => f
    }
  }

  /** `normalize`: clamp into [minVal, maxVal], then scale to [0, 1]. */
  function Normalize(value: real, minVal: real, maxVal: real): (r: real)
    ensures maxVal == minVal ==> r == 0.0
    ensures minVal < maxVal ==> 0.0 <= r <= 1.0
    ensures minVal < maxVal && value <= minVal ==> r == 0.0
    ensures minVal < maxVal && value >= maxVal ==> r == 1.0
    ensures minVal < maxVal && minVal <= value <= maxVal ==> r * (maxVal - minVal) == value - minVal
  {
    var v := MaxR(minVal, MinR(value, maxVal));
    if maxVal == minVal then 0.0
    else
      var d := maxVal - minVal;
      var q := (v - minVal) / d;
      assert minVal < maxVal ==> 0.0 <= q <= 1.0 && q * d == v - minVal by {
        if minVal < maxVal {
          assert q * d == v - minVal;
          assert minVal <= v <= maxVal;
          if q > 1.0 {
            assert (q - 1.0) * d == q * d - d;
            assert (q - 1.0) * d > 0.0;
          }
        }
      }
      assert v == minVal ==> q == 0.0;
      assert v == maxVal ==> q == 1.0;
      q
  }

  /** A larger raw value never normalizes to a smaller one. */
  lemma {:induction false} NormalizeMonotone(x: real, y: real, minVal: real, maxVal: real)
    requires x <= y && minVal < maxVal
    ensures Normalize(x, minVal, maxVal) <= Normalize(y, minVal, maxVal)
  {
    var vx := MaxR(minVal, MinR(x, maxVal));
    var vy := MaxR(minVal, MinR(y, maxVal));
    var d := maxVal - minVal;
    assert vx <= vy;
    assert (vx - minVal) / d <= (vy - minVal) / d by {
      assert (vy - minVal) / d - (vx - minVal) / d == (vy - vx) / d;
    }
  }

  /** `denormalize_regression`: the inverse of the training-side label scaling. */
  function DenormalizeRegression(value: real, indicator: string): (r: Num)
    ensures indicator == "moisture" ==> r == IntNum(Trunc(value * 100.0))
    ensures indicator == "wrinkle_Ra" ==> r == IntNum(Trunc(value * 50.0))
    ensures indicator == "pigmentation" || indicator == "count" ==> r == IntNum(Trunc(value * 350.0))
    ensures indicator == "pore" ==> r == IntNum(Trunc(value * 2600.0))
    ensures !(indicator == "moisture" || indicator == "wrinkle_Ra" || indicator == "pigmentation" ||
              indicator == "count" || indicator == "pore") ==>
              r == FloatNum(value)
  {
    if indicator == "elasticity_R2" then FloatNum(value)
    else if indicator == "moisture" then IntNum(Trunc(value * 100.0))
    else if indicator == "wrinkle_Ra" then IntNum(Trunc(value * 50.0))
    else if indicator in ["pigmentation", "count"] then IntNum(Trunc(value * 350.0))
    else if indicator == "pore" then IntNum(Trunc(value * 2600.0))
    else FloatNum(value)
  }

  /** The truncated integer denormalized value moves with the network output. */
  lemma DenormalizeMonotone(x: real, y: real, indicator: string)
    requires x <= y
    ensures DenormalizeRegression(x, indicator).ToReal() <= DenormalizeRegression(y, indicator).ToReal()
  {
    if indicator == "moisture" { TruncMonotone(x * 100.0, y * 100.0); }
    else if indicator == "wrinkle_Ra" { TruncMonotone(x * 50.0, y * 50.0); }
    else if indicator in ["pigmentation", "count"] { TruncMonotone(x * 350.0, y * 350.0); }
    else if indicator == "pore" { TruncMonotone(x * 2600.0, y * 2600.0); }
  }

  /** A "higher is better" indicator: `int(normalize(v) * 100)`. */
  function PositiveScore(value: real, minVal: real, maxVal: real): (r: int)
    requires minVal < maxVal
    ensures Schemas.InScoreRange(r)
    ensures value <= minVal ==> r == 0
    ensures value >= maxVal ==> r == 100
  {
    Trunc(Normalize(value, minVal, maxVal) * 100.0)
  }

  /** A "higher is worse" indicator: `int(100 - normalize(v) * 100)`. */
  function InvertedScore(value: real, minVal: real, maxVal: real): (r: int)
    requires minVal < maxVal
    ensures Schemas.InScoreRange(r)
    ensures value <= minVal ==> r == 100
    ensures value >= maxVal ==> r == 0
  {
    Trunc(100.0 - Normalize(value, minVal, maxVal) * 100.0)
  }

  lemma {:induction false} PositiveScoreMonotone(x: real, y: real, minVal: real, maxVal: real)
    requires x <= y && minVal < maxVal
    ensures PositiveScore(x, minVal, maxVal) <= PositiveScore(y, minVal, maxVal)
  {
    NormalizeMonotone(x, y, minVal, maxVal);
    TruncMonotone(Normalize(x, minVal, maxVal) * 100.0, Normalize(y, minVal, maxVal) * 100.0);
  }

  lemma {:induction false} InvertedScoreAntitone(x: real, y: real, minVal: real, maxVal: real)
    requires x <= y && minVal < maxVal
    ensures InvertedScore(y, minVal, maxVal) <= InvertedScore(x, minVal, maxVal)
  {
    NormalizeMonotone(x, y, minVal, maxVal);
    TruncMonotone(100.0 - Normalize(y, minVal, maxVal) * 100.0, 100.0 - Normalize(x, minVal, maxVal) * 100.0);
  }

  /** `regression_raw.get(key, 0)` */
  function GetOrZero(raw: map<string, real>, key: string): real {
    if key in raw then raw[key] else 0.0
  }

  /** The response dictionary with its five `*_reg` keys. */
  function ScoreMap(moisture: int, elasticity: int, wrinkle: int, pigmentation: int, pore: int): (p: map<string, int>)
    ensures p.Keys == Schemas.NiaPredictionFields
    ensures p["moisture_reg"] == moisture && p["elasticity_reg"] == elasticity
    ensures p["wrinkle_reg"] == wrinkle && p["pigmentation_reg"] == pigmentation && p["pore_reg"] == pore
    ensures (Schemas.InScoreRange(moisture) && Schemas.InScoreRange(elasticity) &&
             Schemas.InScoreRange(wrinkle) && Schemas.InScoreRange(pigmentation) &&
             Schemas.InScoreRange(pore)) ==> Schemas.IsNiaPredictions(p)
  {
    map["moisture_reg" := moisture, "elasticity_reg" := elasticity, "wrinkle_reg" := wrinkle,
        "pigmentation_reg" := pigmentation, "pore_reg" := pore]
  }

  /** The five scores before they are put into the response dictionary. */
  datatype Scores = Scores(moisture: int, elasticity: int, wrinkle: int, pigmentation: int, pore: int)

  function ScoresOf(raw: map<string, real>): (s: Scores)
    ensures Schemas.InScoreRange(s.moisture) && Schemas.InScoreRange(s.elasticity)
    ensures Schemas.InScoreRange(s.wrinkle) && Schemas.InScoreRange(s.pigmentation)
    ensures Schemas.InScoreRange(s.pore)
  {
    Scores(
      PositiveScore(GetOrZero(raw, "moisture"), 0.0, 100.0),
      PositiveScore(GetOrZero(raw, "elasticity_R2"), 0.0, 1.0),
      InvertedScore(GetOrZero(raw, "wrinkle_Ra"), 0.0, 50.0),
      InvertedScore(GetOrZero(raw, "pigmentation"), 0.0, 350.0),
      InvertedScore(GetOrZero(raw, "pore"), 0.0, 2600.0))
  }

  /** `convert_to_score`: the five 0-100 scores of the response. */
  function ConvertToScore(raw: map<string, real>): (p: map<string, int>)
    ensures Schemas.IsNiaPredictions(p)
  {
    var s := ScoresOf(raw);
    ScoreMap(s.moisture, s.elasticity, s.wrinkle, s.pigmentation, s.pore)
  }

  /** A missing indicator reads as 0: the "good" indicators then score 0 and
      the inverted ones 100. */
  lemma ConvertMissingIndicators(raw: map<string, real>)
    ensures "moisture" !in raw ==> ConvertToScore(raw)["moisture_reg"] == 0
    ensures "elasticity_R2" !in raw ==> ConvertToScore(raw)["elasticity_reg"] == 0
    ensures "wrinkle_Ra" !in raw ==> ConvertToScore(raw)["wrinkle_reg"] == 100
    ensures "pigmentation" !in raw ==> ConvertToScore(raw)["pigmentation_reg"] == 100
    ensures "pore" !in raw ==> ConvertToScore(raw)["pore_reg"] == 100
  {
  }

  /** More moisture or elasticity never lowers its score; more pigmentation,
      wrinkle roughness or pore area never raises its score. */
  lemma {:induction false} ConvertToScoreDirections(raw: map<string, real>, key: string, v: real)
    requires key in raw && raw[key] <= v
    ensures key == "moisture" ==> ConvertToScore(raw)["moisture_reg"] <= ConvertToScore(raw[key := v])["moisture_reg"]
    ensures key == "elasticity_R2" ==> ConvertToScore(raw)["elasticity_reg"] <= ConvertToScore(raw[key := v])["elasticity_reg"]
    ensures key == "wrinkle_Ra" ==> ConvertToScore(raw[key := v])["wrinkle_reg"] <= ConvertToScore(raw)["wrinkle_reg"]
    ensures key == "pigmentation" ==> ConvertToScore(raw[key := v])["pigmentation_reg"] <= ConvertToScore(raw)["pigmentation_reg"]
    ensures key == "pore" ==> ConvertToScore(raw[key := v])["pore_reg"] <= ConvertToScore(raw)["pore_reg"]
  {
    var raw' := raw[key := v];
    assert GetOrZero(raw', key) == v;
    if key == "moisture" { PositiveScoreMonotone(raw[key], v, 0.0, 100.0); }
    else if key == "elasticity_R2" { PositiveScoreMonotone(raw[key], v, 0.0, 1.0); }
    else if key == "wrinkle_Ra" { InvertedScoreAntitone(raw[key], v, 0.0, 50.0); }
    else if key == "pigmentation" { InvertedScoreAntitone(raw[key], v, 0.0, 350.0); }
    else if key == "pore" { InvertedScoreAntitone(raw[key], v, 0.0, 2600.0); }
  }

  // ---------------------------------------------------------------------
  // Face crop of `detect_and_crop_face`.
  // ---------------------------------------------------------------------

  /** MediaPipe's relative bounding box of the first detection. */
  datatype RelativeBox = RelativeBox(xmin: real, ymin: real, width: real, height: real)

  /** Corners of the crop: `image_np[y1:y2, x1:x2]`. */
  datatype CropBox = CropBox(x1: int, y1: int, x2: int, y2: int)

  /** The detected box in pixels, as `int(rel * size)`. */
  datatype PixelBox = PixelBox(x: int, y: int, width: int, height: int)

  function ToPixels(w: nat, h: nat, rel: RelativeBox): PixelBox {
    PixelBox(Trunc(rel.xmin * w as real), Trunc(rel.ymin * h as real),
             Trunc(rel.width * w as real), Trunc(rel.height * h as real))
  }

  predicate InsideImage(w: nat, h: nat, b: PixelBox) {
    0 <= b.x <= w && 0 <= b.y <= h && b.width >= 0 && b.height >= 0
  }

  /** The margin-enlarged crop, clamped to the image. */
  function FaceCrop(w: nat, h: nat, rel: RelativeBox, margin: real): (c: CropBox)
    ensures 0 <= c.x1 && 0 <= c.y1 && c.x2 <= w && c.y2 <= h
    ensures margin >= 0.0 && InsideImage(w, h, ToPixels(w, h, rel)) ==>
              c.x1 <= c.x2 && c.y1 <= c.y2
    ensures margin >= 0.0 && InsideImage(w, h, ToPixels(w, h, rel)) ==>
              var b := ToPixels(w, h, rel);
              c.x1 <= b.x && MinI(w, b.x + b.width) <= c.x2 &&
              c.y1 <= b.y && MinI(h, b.y + b.height) <= c.y2
  {
    var b := ToPixels(w, h, rel);
    var marginX := Trunc(b.width as real * margin);
    var marginY := Trunc(b.height as real * margin);
    CropBox(MaxI(0, b.x - marginX), MaxI(0, b.y - marginY),
            MinI(w, b.x + b.width + marginX), MinI(h, b.y + b.height + marginY))
  }

  /** `detect_and_crop_face`: the whole image when nothing is detected (or
      detection raised), otherwise the clamped crop. */
  function DetectAndCropFace(w: nat, h: nat, detection: Option<RelativeBox>, margin: real): (c: CropBox)
    ensures detection.None? ==> c == CropBox(0, 0, w, h)
    ensures 0 <= c.x1 && 0 <= c.y1 && c.x2 <= w && c.y2 <= h
  {
    match detection
    case None => CropBox(0, 0, w, h)
    case Some(rel) => FaceCrop(w, h, rel, margin)
  }

  // ---------------------------------------------------------------------
  // `run_inference` envelope.
  // ---------------------------------------------------------------------

  datatype NiaRequest = NiaRequest(imageBase64: Option<string>, cropFace: Option<bool>)

  datatype NiaResponse = NiaSuccess(predictions: map<string, int>) | NiaError(message: string)

  const MissingImageMessage: string := "Missing required field: image_base64"

  /** `regression_raw`: every model's output, denormalized under its own name. */
  function RegressionRaw(outputs: map<string, real>): (raw: map<string, Num>)
    ensures raw.Keys == outputs.Keys
    ensures forall n :: n in outputs ==> raw[n] == DenormalizeRegression(outputs[n], n)
  {
    map n | n in outputs :: DenormalizeRegression(outputs[n], n)
  }

  function RawValues(raw: map<string, Num>): map<string, real> {
    map n | n in raw :: raw[n].ToReal()
  }

  /** `run_inference`. `stage` is what decoding, preprocessing, the regression
      models and the predictions file write produced: each model's raw output
      by model name, or the message of the exception one of them raised. */
  function RunInference(req: NiaRequest, stage: Result<map<string, real>>): (r: NiaResponse)
    ensures req.imageBase64.None? ==> r == NiaError(MissingImageMessage)
    ensures req.imageBase64.Some? && stage.Err? ==> r == NiaError(stage.msg)
    ensures r.NiaSuccess? <==> req.imageBase64.Some? && stage.Ok?
    ensures r.NiaSuccess? ==> Schemas.IsNiaPredictions(r.predictions)
    ensures r.NiaSuccess? ==> r.predictions == ConvertToScore(RawValues(RegressionRaw(stage.value)))
  {
    if req.imageBase64.None? then NiaError(MissingImageMessage)
    else match stage
      case Err(m) => NiaError(m)
      case Ok(outputs) => NiaSuccess(ConvertToScore(RawValues(RegressionRaw(outputs))))
  }
}
