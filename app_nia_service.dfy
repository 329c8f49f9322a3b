/** The per-region skin analysis of app/service/nia_service.py: classification
    grades plus denormalized regression values fanned out to facial regions. */
module AppNiaService {
  import opened Wrappers
  import NiaService
  import PyNum

  type Num = NiaService.Num

  /** The ten region keys the regression values are copied to. */
  const RegionKeys: set<string> := {
    "forehead_pigmentation", "cheek_pigmentation",
    "forehead_moisture", "cheek_moisture", "chin_moisture",
    "forehead_elasticity_R2", "cheek_elasticity_R2", "chin_elasticity_R2",
    "perocular_wrinkle_Ra", "cheek_pore"}

  function Names<T>(outs: seq<(string, T)>): set<string> {
    set k | 0 <= k < |outs| :: outs[k].0
  }

  /** No later entry has the name of entry `i`: the entry whose value a
      dictionary built in order keeps. */
  predicate LastOf<T>(outs: seq<(string, T)>, i: int)
    requires 0 <= i < |outs|
  {
    forall j :: i < j < |outs| ==> outs[j].0 != outs[i].0
  }

  /** The names are the keys of the model dictionary, so no two are equal. */
  predicate DistinctNames<T>(outs: seq<(string, T)>) {
    forall i, j :: 0 <= i < j < |outs| ==> outs[i].0 != outs[j].0
  }

  lemma DistinctAllLast<T>(outs: seq<(string, T)>, i: int)
    requires DistinctNames(outs) && 0 <= i < |outs|
    ensures LastOf(outs, i)
  {
  }

  /** The last entry of a name is also the last in the sequence with one
      more entry of another name, and in the sequence without the final entry. */
  lemma LastOfFront<T>(outs: seq<(string, T)>, i: int)
    requires 0 <= i < |outs| - 1 && LastOf(outs, i)
    ensures LastOf(outs[..|outs| - 1], i) && outs[i].0 != outs[|outs| - 1].0
  {
    var init := outs[..|outs| - 1];
    forall j | i < j < |init| ensures init[j].0 != init[i].0 {
      assert init[j] == outs[j] && init[i] == outs[i];
    }
  }

  /** The classification part: `predictions[model_name] = int(argmax)`, one
      model after another in the order of the model dictionary. */
  function ClassPredictions(outs: seq<(string, int)>): (p: map<string, Num>)
    ensures p.Keys == Names(outs)
    ensures forall n :: n in p ==> p[n].IntNum?
  {
    if |outs| == 0 then map[]
    else
      var last := outs[|outs| - 1];
      var init := outs[..|outs| - 1];
      assert Names(outs) == Names(init) + {last.0} by {
        forall n | n in Names(outs) ensures n in Names(init) + {last.0} {
          var k :| 0 <= k < |outs| && outs[k].0 == n;
          if k < |outs| - 1 { assert init[k] == outs[k]; }
        }
        forall n | n in Names(init) ensures n in Names(outs) {
          var k :| 0 <= k < |init| && init[k].0 == n;
          assert outs[k] == init[k];
        }
      }
      ClassPredictions(init)[last.0 := NiaService.IntNum(last.1)]
  }

  /** Every name holds the grade of its last entry. */
  lemma {:induction false} ClassPredictionsKeepLast(outs: seq<(string, int)>, i: int)
    requires 0 <= i < |outs| && LastOf(outs, i)
    ensures outs[i].0 in ClassPredictions(outs)
    ensures ClassPredictions(outs)[outs[i].0] == NiaService.IntNum(outs[i].1)
    decreases |outs|
  {
    if i < |outs| - 1 {
      LastOfFront(outs, i);
      ClassPredictionsKeepLast(outs[..|outs| - 1], i);
      assert outs[..|outs| - 1][i] == outs[i];
    }
  }

  /** The regression part: `regression_raw[model_name] = denormalize_regression(output, model_name)`. */
  function RegressionRaw(outs: seq<(string, real)>): (raw: map<string, Num>)
    ensures raw.Keys == Names(outs)
  {
    if |outs| == 0 then map[]
    else
      var last := outs[|outs| - 1];
      var init := outs[..|outs| - 1];
      assert Names(outs) == Names(init) + {last.0} by {
        forall n | n in Names(outs) ensures n in Names(init) + {last.0} {
          var k :| 0 <= k < |outs| && outs[k].0 == n;
          if k < |outs| - 1 { assert init[k] == outs[k]; }
        }
        forall n | n in Names(init) ensures n in Names(outs) {
          var k :| 0 <= k < |init| && init[k].0 == n;
          assert outs[k] == init[k];
        }
      }
      RegressionRaw(init)[last.0 := NiaService.DenormalizeRegression(last.1, last.0)]
  }

  /** Every name holds the denormalized output of its last entry. */
  lemma {:induction false} RegressionRawKeepsLast(outs: seq<(string, real)>, i: int)
    requires 0 <= i < |outs| && LastOf(outs, i)
    ensures outs[i].0 in RegressionRaw(outs)
    ensures RegressionRaw(outs)[outs[i].0] == NiaService.DenormalizeRegression(outs[i].1, outs[i].0)
    decreases |outs|
  {
    if i < |outs| - 1 {
      LastOfFront(outs, i);
      RegressionRawKeepsLast(outs[..|outs| - 1], i);
      assert outs[..|outs| - 1][i] == outs[i];
    }
  }

  const Zero: Num := NiaService.IntNum(0)

  /** `regression_raw.get(key, default)` */
  function Get(raw: map<string, Num>, key: string, default: Num): Num {
    if key in raw then raw[key] else default
  }

  /** The region fan-out written over the classification grades. */
  function FanOut(p: map<string, Num>, raw: map<string, Num>): (q: map<string, Num>)
    ensures q.Keys == p.Keys + RegionKeys
    ensures forall n :: n in p && n !in RegionKeys ==> q[n] == p[n]
    ensures q["forehead_pigmentation"] == q["cheek_pigmentation"] == Get(raw, "pigmentation", NiaService.IntNum(0))
    ensures q["forehead_moisture"] == q["cheek_moisture"] == q["chin_moisture"] == Get(raw, "moisture", NiaService.IntNum(0))
    ensures q["forehead_elasticity_R2"] == q["cheek_elasticity_R2"] == q["chin_elasticity_R2"]
              == Get(raw, "elasticity_R2", NiaService.FloatNum(0.0))
    ensures q["perocular_wrinkle_Ra"] == Get(raw, "wrinkle_Ra", NiaService.IntNum(0))
    ensures q["cheek_pore"] == Get(raw, "pore", NiaService.IntNum(0))
  {
    var pigmentation := Get(raw, "pigmentation", NiaService.IntNum(0));
    var moisture := Get(raw, "moisture", NiaService.IntNum(0));
    var elasticity := Get(raw, "elasticity_R2", NiaService.FloatNum(0.0));
    p["forehead_pigmentation" := pigmentation]["cheek_pigmentation" := pigmentation]
     ["forehead_moisture" := moisture]["cheek_moisture" := moisture]["chin_moisture" := moisture]
     ["forehead_elasticity_R2" := elasticity]["cheek_elasticity_R2" := elasticity]
     ["chin_elasticity_R2" := elasticity]
     ["perocular_wrinkle_Ra" := Get(raw, "wrinkle_Ra", NiaService.IntNum(0))]
     ["cheek_pore" := Get(raw, "pore", NiaService.IntNum(0))]
  }

  /** The five indicators the fan-out reads, and one region key each of them
      fills (the other region keys of an indicator equal it, by `FanOut`). */
  predicate Indicator(n: string) {
    n == "moisture" || n == "pore" || n == "pigmentation" || n == "wrinkle_Ra" || n == "elasticity_R2"
  }

  function RegionKeyOf(n: string): string
    requires Indicator(n)
  {
    if n == "moisture" then "chin_moisture"
    else if n == "pore" then "cheek_pore"
    else if n == "pigmentation" then "cheek_pigmentation"
    else if n == "wrinkle_Ra" then "perocular_wrinkle_Ra"
    else "chin_elasticity_R2"
  }

  /** The regression dictionary's value of an indicator is what its region key shows. */
  lemma RegionShowsIndicator(p: map<string, Num>, raw: map<string, Num>, n: string)
    requires Indicator(n) && n in raw
    ensures Get(FanOut(p, raw), RegionKeyOf(n), Zero) == raw[n]
  {
  }

  /** When a regression model is loaded under its indicator name, its region
      key carries the denormalized output (an integer for the scaled
      indicators, the raw float for elasticity; see
      `NiaService.DenormalizeRegression`), for every model `i`, since the
      names are the keys of the model dictionary. */
  lemma RegionValuesAreDenormalized(p: map<string, Num>, outs: seq<(string, real)>, i: int)
    requires DistinctNames(outs)
    requires 0 <= i < |outs| && Indicator(outs[i].0)
    ensures Get(FanOut(p, RegressionRaw(outs)), RegionKeyOf(outs[i].0), Zero) ==
            NiaService.DenormalizeRegression(outs[i].1, outs[i].0)
  {
    DistinctAllLast(outs, i);
    RegressionRawKeepsLast(outs, i);
    RegionShowsIndicator(p, RegressionRaw(outs), outs[i].0);
  }

  /** Every regression model's denormalized output is under its own name. */
  lemma RegressionValuesKept(outs: seq<(string, real)>)
    requires DistinctNames(outs)
    ensures forall i :: 0 <= i < |outs| ==>
              RegressionRaw(outs)[outs[i].0] == NiaService.DenormalizeRegression(outs[i].1, outs[i].0)
  {
    forall i | 0 <= i < |outs|
      ensures RegressionRaw(outs)[outs[i].0] == NiaService.DenormalizeRegression(outs[i].1, outs[i].0)
    {
      DistinctAllLast(outs, i);
      RegressionRawKeepsLast(outs, i);
    }
  }

  /** Every classification model's grade is under its own name. */
  lemma ClassGradesKept(outs: seq<(string, int)>)
    requires DistinctNames(outs)
    ensures forall i :: 0 <= i < |outs| ==> ClassPredictions(outs)[outs[i].0] == NiaService.IntNum(outs[i].1)
  {
    forall i | 0 <= i < |outs|
      ensures ClassPredictions(outs)[outs[i].0] == NiaService.IntNum(outs[i].1)
    {
      DistinctAllLast(outs, i);
      ClassPredictionsKeepLast(outs, i);
    }
  }

  datatype AppNiaRequest = AppNiaRequest(imageBase64: Option<string>, cropFace: Option<bool>)

  datatype AppNiaResponse = AppNiaSuccess(predictions: map<string, Num>) | AppNiaError(message: string)

  /** The model outputs of one request: each classification model's argmax and
      each regression model's scalar output, by model name. */
  datatype ModelOutputs = ModelOutputs(classes: seq<(string, int)>, regressions: seq<(string, real)>)

  /** `run_inference`. `stage` is what decoding, the optional face crop and the
      models produced (or the message of the exception they raised);
      `writeFailure` is the message of a failed `predictions.json` write. */
  method RunInference(req: AppNiaRequest, stage: Result<ModelOutputs>, writeFailure: Option<string>)
    returns (r: AppNiaResponse)
    ensures req.imageBase64.None? ==> r == AppNiaError(NiaService.MissingImageMessage)
    ensures req.imageBase64.Some? && stage.Err? ==> r == AppNiaError(stage.msg)
    ensures req.imageBase64.Some? && stage.Ok? && writeFailure.Some? ==> r == AppNiaError(writeFailure.value)
    ensures r.AppNiaSuccess? <==> req.imageBase64.Some? && stage.Ok? && writeFailure.None?
    ensures r.AppNiaSuccess? ==>
              r.predictions == FanOut(ClassPredictions(stage.value.classes), RegressionRaw(stage.value.regressions))
  {
    if req.imageBase64.None? {
      return AppNiaError(NiaService.MissingImageMessage);
    }
    if stage.Err? {
      return AppNiaError(stage.msg);
    }
    var predictions := CollectClasses(stage.value.classes);
    var raw := CollectRegressions(stage.value.regressions);
    predictions := FanOut(predictions, raw);
    if writeFailure.Some? {
      return AppNiaError(writeFailure.value);
    }
    return AppNiaSuccess(predictions);
  }

  /** The loop over the classification heads. */
  method CollectClasses(classes: seq<(string, int)>) returns (predictions: map<string, Num>)
    ensures predictions == ClassPredictions(classes)
  {
    predictions := map[];
    var i := 0;
    while i < |classes|
      invariant 0 <= i <= |classes|
      invariant predictions == ClassPredictions(classes[..i])
    {
      assert classes[..i + 1][..i] == classes[..i];
      predictions := predictions[classes[i].0 := NiaService.IntNum(classes[i].1)];
      i := i + 1;
    }
    assert classes[..i] == classes;
  }

  /** The loop over the regression heads, before the fan-out. */
  method CollectRegressions(regressions: seq<(string, real)>) returns (raw: map<string, Num>)
    ensures raw == RegressionRaw(regressions)
  {
    raw := map[];
    var j := 0;
    while j < |regressions|
      invariant 0 <= j <= |regressions|
      invariant raw == RegressionRaw(regressions[..j])
    {
      assert regressions[..j + 1][..j] == regressions[..j];
      var (name, value) := regressions[j];
      raw := raw[name := NiaService.DenormalizeRegression(value, name)];
      j := j + 1;
    }
    assert regressions[..j] == regressions;
  }
}
