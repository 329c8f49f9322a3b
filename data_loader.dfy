/** The label, file-name and record rules of tool/data_loader.py. */
module DataLoader {
  import opened Wrappers
  import opened PyStr
  import PyNum
  import NiaService
  import DataSplit

  // ---------------------------------------------------------------------
  // `should_skip_image`
  // ---------------------------------------------------------------------

  /** The (angle, area) pairs skipped for equipment "1" (the digital camera). */
  const CameraSkips: set<(string, string)> := {
    ("Ft", "08"), ("Fb", "08"),
    ("R15", "04"), ("R15", "06"), ("R30", "04"), ("R30", "06"),
    ("L15", "03"), ("L15", "05"), ("L30", "03"), ("L30", "05")}

  /** The (angle, area) pairs skipped for every other equipment. */
  const OtherSkips: set<(string, string)> := {("L", "03"), ("L", "05"), ("R", "04"), ("R", "06")}

  function SkipTable(equ: string): set<(string, string)> {
    if equ == "1" then CameraSkips else OtherSkips
  }

  /** The angles for which the area field is looked at. */
  function SkipAngles(equ: string): set<string> {
    if equ == "1" then {"Ft", "Fb", "R15", "R30", "L15", "L30"} else {"L", "R"}
  }

  /** `field.split(".")[0]`: the area code without the extension. */
  function AreaCode(field: string): string {
    Split(field, '.')[0]
  }

  /** The area test of one clause; `None` is the `IndexError` of a name
      with no fourth "_" field. */
  function AreaIn(f: seq<string>, areas: seq<string>): Option<bool> {
    if |f| < 4 then None else Some(AreaCode(f[3]) in areas)
  }

  /** `should_skip_image(j_name, equ_name)`. `None` is the `IndexError` raised
      when the third field (or, for a listed angle, the fourth) is missing. */
  function ShouldSkipImage(jName: string, equName: string): (r: Option<bool>)
    ensures var f := Split(jName, '_');
            r.None? <==> |f| < 3 || (|f| == 3 && f[2] in SkipAngles(equName))
    ensures var f := Split(jName, '_');
            |f| >= 4 ==> r == Some((f[2], AreaCode(f[3])) in SkipTable(equName))
    ensures var f := Split(jName, '_');
            |f| >= 3 && f[2] !in SkipAngles(equName) ==> r == Some(false)
  {
    var f := Split(jName, '_');
    if |f| < 3 then None
    else
      var angle := f[2];
      if equName == "1" then
        if angle in ["Ft", "Fb"] then AreaIn(f, ["08"])
        else if angle in ["R15", "R30"] then AreaIn(f, ["04", "06"])
        else if angle in ["L15", "L30"] then AreaIn(f, ["03", "05"])
        else Some(false)
      else
        if angle == "L" then AreaIn(f, ["03", "05"])
        else if angle == "R" then AreaIn(f, ["04", "06"])
        else Some(false)
  }

  // ---------------------------------------------------------------------
  // `norm_reg`
  // ---------------------------------------------------------------------

  const NormRegFailure: string := "dig_v is not here"

  /** The divisor `norm_reg` uses for each indicator-name suffix. */
  function SuffixScale(suffix: string): Option<real> {
    if suffix == "R2" then Some(1.0)
    else if suffix == "moisture" then Some(100.0)
    else if suffix == "Ra" then Some(50.0)
    else if suffix in {"pigmentation", "count"} then Some(350.0)
    else if suffix == "pore" then Some(2600.0)
    else None
  }

  /** `norm_reg`: divides the label by the scale of the indicator's last "_"
      field; any other suffix fails the assertion. */
  function NormReg(dig: string, value: real): (r: Result<real>)
    ensures r.Ok? <==> SuffixScale(LastField(dig, '_')).Some?
    ensures r.Err? ==> r.msg == NormRegFailure
    ensures LastField(dig, '_') == "R2" ==> r == Ok(value)
  {
    var suffix := LastField(dig, '_');
    if suffix == "R2" then Ok(value)
    else if suffix == "moisture" then Ok(value / 100.0)
    else if suffix == "Ra" then Ok(value / 50.0)
    else if suffix in ["pigmentation", "count"] then Ok(value / 350.0)
    else if suffix == "pore" then Ok(value / 2600.0)
    else Err(NormRegFailure)
  }

  /** The indicators the inference side scales back to integers. */
  predicate IsIntegerIndicator(name: string) {
    name == "moisture" || name == "wrinkle_Ra" || name == "pigmentation" || name == "count" || name == "pore"
  }

  lemma LastFieldNoSep(s: string)
    requires '_' !in s
    ensures LastField(s, '_') == s
  {
  }

  lemma LastFieldAfterSep(p: string, t: string)
    requires '_' !in p && '_' !in t
    ensures LastField(p + "_" + t, '_') == t
  {
    SplitPrefix(p, '_', t);
    assert p + ['_'] + t == p + "_" + t;
  }

  lemma MoistureSuffix() ensures LastField("moisture", '_') == "moisture" {
    assert '_' !in "moisture";
    LastFieldNoSep("moisture");
  }

  lemma PoreSuffix() ensures LastField("pore", '_') == "pore" {
    assert '_' !in "pore";
    LastFieldNoSep("pore");
  }

  lemma CountSuffix() ensures LastField("count", '_') == "count" {
    assert '_' !in "count";
    LastFieldNoSep("count");
  }

  lemma PigmentationSuffix() ensures LastField("pigmentation", '_') == "pigmentation" {
    assert '_' !in "pigmentation";
    LastFieldNoSep("pigmentation");
  }

  lemma WrinkleSuffix() ensures LastField("wrinkle_Ra", '_') == "Ra" {
    assert '_' !in "wrinkle" && '_' !in "Ra";
    LastFieldAfterSep("wrinkle", "Ra");
    assert "wrinkle" + "_" + "Ra" == "wrinkle_Ra";
  }

  lemma ElasticitySuffix()
    ensures LastField("elasticity_R2", '_') == "R2"
  {
    assert '_' !in "elasticity" && '_' !in "R2";
    LastFieldAfterSep("elasticity", "R2");
    assert "elasticity" + "_" + "R2" == "elasticity_R2";
  }

  // `denormalize_regression` undoes `norm_reg`: an integer label of each
  // scaled indicator survives the round trip exactly, and elasticity passes
  // through both unchanged. One lemma per indicator name.

  lemma NormRegMoisture(x: real)
    ensures NormReg("moisture", x) == Ok(x / 100.0)
  {
    MoistureSuffix();
  }

  lemma RoundTripMoisture(v: int)
    ensures NormReg("moisture", v as real) == Ok(v as real / 100.0)
    ensures NiaService.DenormalizeRegression(v as real / 100.0, "moisture") == NiaService.IntNum(v)
  {
    NormRegMoisture(v as real);
    PyNum.TruncOfInt(v);
  }

  lemma NormRegWrinkle(x: real)
    ensures NormReg("wrinkle_Ra", x) == Ok(x / 50.0)
  {
    WrinkleSuffix();
  }

  lemma RoundTripWrinkle(v: int)
    ensures NormReg("wrinkle_Ra", v as real) == Ok(v as real / 50.0)
    ensures NiaService.DenormalizeRegression(v as real / 50.0, "wrinkle_Ra") == NiaService.IntNum(v)
  {
    NormRegWrinkle(v as real);
    PyNum.TruncOfInt(v);
  }

  lemma NormRegPigmentation(x: real)
    ensures NormReg("pigmentation", x) == Ok(x / 350.0)
  {
    PigmentationSuffix();
  }

  lemma RoundTripPigmentation(v: int)
    ensures NormReg("pigmentation", v as real) == Ok(v as real / 350.0)
    ensures NiaService.DenormalizeRegression(v as real / 350.0, "pigmentation") == NiaService.IntNum(v)
  {
    NormRegPigmentation(v as real);
    PyNum.TruncOfInt(v);
  }

  lemma NormRegCount(x: real)
    ensures NormReg("count", x) == Ok(x / 350.0)
  {
    CountSuffix();
  }

  lemma RoundTripCount(v: int)
    ensures NormReg("count", v as real) == Ok(v as real / 350.0)
    ensures NiaService.DenormalizeRegression(v as real / 350.0, "count") == NiaService.IntNum(v)
  {
    NormRegCount(v as real);
    PyNum.TruncOfInt(v);
  }

  lemma NormRegPore(x: real)
    ensures NormReg("pore", x) == Ok(x / 2600.0)
  {
    PoreSuffix();
  }

  lemma RoundTripPore(v: int)
    ensures NormReg("pore", v as real) == Ok(v as real / 2600.0)
    ensures NiaService.DenormalizeRegression(v as real / 2600.0, "pore") == NiaService.IntNum(v)
  {
    NormRegPore(v as real);
    PyNum.TruncOfInt(v);
  }

  lemma RoundTripElasticity(x: real)
    ensures NormReg("elasticity_R2", x) == Ok(x)
    ensures NiaService.DenormalizeRegression(NormReg("elasticity_R2", x).value, "elasticity_R2") == NiaService.FloatNum(x)
  {
    ElasticitySuffix();
  }

  /** The other direction: a non-negative network output scaled by
      `denormalize_regression` and read back by `norm_reg` loses less than one
      unit of the scale (shown for moisture, scale 100, and pore, scale 2600). */
  lemma DenormalizeThenNormReg(x: real)
    requires x >= 0.0
    ensures var y := NormReg("moisture", NiaService.DenormalizeRegression(x, "moisture").ToReal());
            y.Ok? && y.value <= x && x * 100.0 < y.value * 100.0 + 1.0
    ensures var y := NormReg("pore", NiaService.DenormalizeRegression(x, "pore").ToReal());
            y.Ok? && y.value <= x && x * 2600.0 < y.value * 2600.0 + 1.0
  {
    MoistureSuffix();
    PoreSuffix();
  }

  // ---------------------------------------------------------------------
  // `load_list`: equipment folder names.
  // ---------------------------------------------------------------------

  /** The equipment number of a folder such as "1. digital camera":
      `int(name.split('.')[0].strip())` when the name has a ".", else
      `int(name)`; `None` when the folder is skipped (a hidden folder, a
      `ValueError`, or a number not among the selected equipment). */
  function FolderEquipment(equName: string, selected: set<int>): (r: Option<int>)
    ensures r.Some? ==> r.value in selected
    ensures StartsWith(equName, ".") ==> r.None?
  {
    if StartsWith(equName, ".") then None
    else
      var parsed := if '.' in equName then ParseInt(Split(equName, '.')[0]) else ParseInt(equName);
      if parsed.Some? && parsed.value in selected then parsed else None
  }

  /** A folder named by a selected number and a "."-separated title is read
      under that number, and `str` of it is the equipment name
      `should_skip_image` sees. */
  lemma {:induction false} FolderEquipmentOfNumber(n: nat, title: string, selected: set<int>)
    ensures FolderEquipment(NatToString(n) + "." + title, selected) == if n in selected then Some(n) else None
    ensures FolderEquipment(NatToString(n), selected) == if n in selected then Some(n) else None
  {
    var d := NatToString(n);
    var name := d + "." + title;
    assert d + ['.'] + title == name;
    assert '.' !in d by {
      forall i | 0 <= i < |d| ensures d[i] != '.' { assert IsDigit(d[i]); }
    }
    assert d[0] != '.' && name[0] == d[0];
    assert !StartsWith(name, ".") by { assert name[..1] == [d[0]]; }
    assert !StartsWith(d, ".") by { assert d[..1] == [d[0]]; }
    SplitPrefix(d, '.', title);
    ParseIntToString(n);
    assert IntToString(n) == d;
  }

  // ---------------------------------------------------------------------
  // `save_dict`: descriptions and labels.
  // ---------------------------------------------------------------------

  /** `"Sub_" + s[0] + "_Equ_" + s[1] + "_Angle_" + s[2] + "_Area_" + s[3]`
      over the "_" fields of the file stem, written as the "_"-join of the
      eight labels and fields it spells; `None` is the `IndexError` of a
      stem with fewer than four fields. */
  function Description(iPath: string): (r: Option<string>)
    ensures var s := Split(LastField(iPath, '/'), '_');
            r.Some? <==> |s| >= 4
  {
    var s := Split(LastField(iPath, '/'), '_');
    if |s| < 4 then None
    else Some(Join(DescriptionParts(s), '_'))
  }

  function DescriptionParts(s: seq<string>): seq<string>
    requires |s| >= 4
  {
    ["Sub", s[0], "Equ", s[1], "Angle", s[2], "Area", s[3]]
  }

  /** The description reads back as subject, equipment, angle and area. */
  lemma {:induction false} DescriptionFields(iPath: string)
    requires |Split(LastField(iPath, '/'), '_')| >= 4
    ensures var s := Split(LastField(iPath, '/'), '_');
            Split(Description(iPath).value, '_') == ["Sub", s[0], "Equ", s[1], "Angle", s[2], "Area", s[3]]
  {
    var s := Split(LastField(iPath, '/'), '_');
    var parts := DescriptionParts(s);
    SplitFieldsHaveNoSep(LastField(iPath, '/'), '_');
    assert forall i :: 0 <= i < |parts| ==> '_' !in parts[i] by {
      assert '_' !in s[0] && '_' !in s[1] && '_' !in s[2] && '_' !in s[3];
    }
    SplitJoin(parts, '_');
  }

  /** No field of a split contains the separator. */
  lemma {:induction false} SplitFieldsHaveNoSep(s: string, sep: char)
    ensures forall i :: 0 <= i < |Split(s, sep)| ==> sep !in Split(s, sep)[i]
    decreases |s|
  {
    if |s| > 0 {
      SplitFieldsHaveNoSep(s[1..], sep);
      var rest := Split(s[1..], sep);
      if s[0] != sep {
        assert forall c :: c in [s[0]] + rest[0] ==> c == s[0] || c in rest[0];
      }
    }
  }

  /** The label of a class-mode sample: `int(grade)`, with the sagging grade
      6 folded into 5 for the six-class model; `None` when `int` raises. */
  function ClassLabel(dig: string, grade: string): (r: Option<int>)
    ensures r.Some? ==> ParseInt(grade).Some?
    ensures r.Some? && dig == "sagging" ==> r.value != 6
    ensures ParseInt(grade).Some? && !(dig == "sagging" && ParseInt(grade).value == 6) ==> r == ParseInt(grade)
  {
    match ParseInt(grade)
    case None => None
    case Some(n) => if dig == "sagging" && n == 6 then Some(5) else Some(n)
  }

  /** Sagging grades 0..6 become labels 0..5. */
  lemma SaggingLabelsInSixClasses(g: nat)
    requires g <= 6
    ensures ClassLabel("sagging", NatToString(g)).Some?
    ensures 0 <= ClassLabel("sagging", NatToString(g)).value <= 5
  {
    ParseIntToString(g);
  }

  // ---------------------------------------------------------------------
  // `load_dataset` split selection.
  // ---------------------------------------------------------------------

  datatype SplitName = TrainSplit | ValSplit | TestSplit

  /** `train_list if mode == "train" else val_list if mode == "val" else test_list` */
  function SelectSplit(mode: string): (r: SplitName)
    ensures r == TrainSplit <==> mode == "train"
    ensures r == ValSplit <==> mode == "val"
  {
    if mode == "train" then TrainSplit else if mode == "val" then ValSplit else TestSplit
  }

  /** The training script asks for "valid", which is not "val": it is served
      the test split. */
  lemma ValidSelectsTest()
    ensures SelectSplit("valid") == TestSplit
  {
  }

  // ---------------------------------------------------------------------
  // `process_json_meta` and `save_dict`: the loader's mutable indexes.
  // ---------------------------------------------------------------------

  /** The parts of a label file that `process_json_meta` reads: the
      annotations in file order (name and grade), whether `images.bbox` is
      set, and the `equipment` measurements (`None` for JSON null). */
  datatype JsonMeta = JsonMeta(annotations: seq<(string, int)>, hasBbox: bool,
                               equipment: Option<seq<(string, real)>>)

  /** What one call did: appended, dropped the record, or raised. */
  datatype Outcome = Recorded | Dropped | Failed(message: string)

  const NoneItemsMessage: string := "'NoneType' object has no attribute 'items'"

  /** `json_dict[dig][grade][sub_fold]` of the class mode, keyed by the triple. */
  type ClassIndex = map<(string, string, string), seq<string>>
  /** `json_dict[dig][value][sub_fold]` of the regression mode. */
  type RegressionIndex = map<(string, real, string), seq<DataSplit.Entry>>

  /** The record is skipped before anything is appended. `Err` is the
      `IndexError` of taking the first key of empty annotations, which
      happens whatever the mode. */
  function Drops(argsMode: string, meta: JsonMeta): (r: Result<bool>)
    ensures r.Err? <==> |meta.annotations| == 0
    ensures r.Err? ==> r.msg == DataSplit.IndexErrorMessage
    ensures argsMode != "class" && argsMode != "regression" ==> r.Ok? ==> !r.value
    ensures r.Ok? && argsMode == "class" ==> (r.value <==> meta.annotations[0].0 == "acne" || !meta.hasBbox)
    ensures r.Ok? && argsMode == "regression" ==> (r.value <==> meta.equipment.None? || !meta.hasBbox)
  {
    if |meta.annotations| == 0 then Err(DataSplit.IndexErrorMessage)
    else
      Ok(((meta.annotations[0].0 == "acne" || !meta.hasBbox) && argsMode == "class") ||
         ((meta.equipment.None? || !meta.hasBbox) && argsMode == "regression"))
  }

  /** `os.path.join(sub_path, j_name.split(".")[0])` for a non-empty
      `sub_path` without a trailing separator. */
  function StemPath(subPath: string, jName: string): string {
    subPath + "/" + Split(jName, '.')[0]
  }

  /** The category an annotation name files under: its last "_" field,
      extended by the area field for wrinkle and pigmentation in test mode;
      `None` is the `IndexError` of a name with no "_". */
  function ClassKey(digN: string, testMode: bool): (r: Option<string>)
    ensures r.Some? <==> |Split(digN, '_')| >= 2
    ensures r.Some? && !testMode ==> r.value == LastField(digN, '_')
    ensures r.Some? && testMode && LastField(digN, '_') in {"wrinkle", "pigmentation"} ==>
              r.value == LastField(digN, '_') + "_" + SecondToLastField(digN, '_').value
    ensures r.Some? && LastField(digN, '_') !in {"wrinkle", "pigmentation"} ==> r.value == LastField(digN, '_')
  {
    var parts := Split(digN, '_');
    if |parts| < 2 then None
    else
      var dig := parts[|parts| - 1];
      var area := parts[|parts| - 2];
      if (dig == "wrinkle" || dig == "pigmentation") && testMode then Some(dig + "_" + area)
      else Some(dig)
  }

  /** `d[k].append(v)` on a `defaultdict(list)`. */
  function Push<K(==), V>(m: map<K, seq<V>>, k: K, v: V): (r: map<K, seq<V>>)
    ensures r.Keys == m.Keys + {k}
    ensures r[k] == (if k in m then m[k] else []) + [v]
    ensures forall j :: j in m && j != k ==> r[j] == m[j]
  {
    m[k := (if k in m then m[k] else []) + [v]]
  }

  /** The class index after appending `path` once per annotation, in
      annotation order, stopping at the first name without "_". */
  datatype Indexed = Indexed(index: ClassIndex, failed: bool)

  function ClassRecords(idx: ClassIndex, anns: seq<(string, int)>, subFold: string,
                        path: string, testMode: bool): (r: Indexed)
    decreases |anns|
  {
    if |anns| == 0 then Indexed(idx, false)
    else
      var prev := ClassRecords(idx, anns[..|anns| - 1], subFold, path, testMode);
      var last := anns[|anns| - 1];
      if prev.failed then prev
      else match ClassKey(last.0, testMode)
        case None => Indexed(prev.index, true)
        case Some(dig) =>
          Indexed(Push(prev.index, (dig, IntToString(last.1), subFold), path), false)
  }

  /** The fold fails exactly when some annotation name has no "_". */
  lemma {:induction false} ClassRecordsFails(idx: ClassIndex, anns: seq<(string, int)>, subFold: string,
                                             path: string, testMode: bool)
    ensures ClassRecords(idx, anns, subFold, path, testMode).failed <==>
            exists i :: 0 <= i < |anns| && ClassKey(anns[i].0, testMode).None?
    decreases |anns|
  {
    if |anns| > 0 {
      var n := |anns| - 1;
      var front := anns[..n];
      ClassRecordsFails(idx, front, subFold, path, testMode);
      assert forall i :: 0 <= i < n ==> front[i] == anns[i];
      assert ClassRecords(idx, anns, subFold, path, testMode).failed <==>
             ClassRecords(idx, front, subFold, path, testMode).failed || ClassKey(anns[n].0, testMode).None?;
    }
  }

  /** When the fold does not fail, `path` is filed under every annotation's key. */
  lemma {:induction false} ClassRecordsFiles(idx: ClassIndex, anns: seq<(string, int)>, subFold: string,
                                             path: string, testMode: bool)
    ensures var r := ClassRecords(idx, anns, subFold, path, testMode);
            !r.failed ==> forall i :: 0 <= i < |anns| ==> Filed(r.index, anns[i], subFold, path, testMode)
    decreases |anns|
  {
    var r := ClassRecords(idx, anns, subFold, path, testMode);
    if |anns| > 0 && !r.failed {
      var n := |anns| - 1;
      var front := anns[..n];
      var prev := ClassRecords(idx, front, subFold, path, testMode);
      ClassRecordsFiles(idx, front, subFold, path, testMode);
      ClassRecordsStep(idx, anns, subFold, path, testMode);
      var key := (ClassKey(anns[n].0, testMode).value, IntToString(anns[n].1), subFold);
      forall i | 0 <= i < |anns|
        ensures Filed(r.index, anns[i], subFold, path, testMode)
      {
        if i < n {
          assert front[i] == anns[i];
          PushKeepsFiled(prev.index, key, anns[i], subFold, path, testMode);
        }
      }
    }
  }

  /** A fold that has not failed took its last step by pushing `path`. */
  lemma ClassRecordsStep(idx: ClassIndex, anns: seq<(string, int)>, subFold: string, path: string, testMode: bool)
    requires |anns| > 0 && !ClassRecords(idx, anns, subFold, path, testMode).failed
    ensures var n := |anns| - 1;
            var prev := ClassRecords(idx, anns[..n], subFold, path, testMode);
            !prev.failed && ClassKey(anns[n].0, testMode).Some? &&
            ClassRecords(idx, anns, subFold, path, testMode).index ==
              Push(prev.index, (ClassKey(anns[n].0, testMode).value, IntToString(anns[n].1), subFold), path)
  {
  }

  /** Annotation `ann` has its key, and `path` is filed under it. */
  predicate Filed(index: ClassIndex, ann: (string, int), subFold: string, path: string, testMode: bool) {
    ClassKey(ann.0, testMode).Some? &&
    (ClassKey(ann.0, testMode).value, IntToString(ann.1), subFold) in index &&
    path in index[(ClassKey(ann.0, testMode).value, IntToString(ann.1), subFold)]
  }

  lemma PushKeepsFiled(index: ClassIndex, key: (string, string, string), ann: (string, int), subFold: string,
                       path: string, testMode: bool)
    requires Filed(index, ann, subFold, path, testMode)
    ensures Filed(Push(index, key, path), ann, subFold, path, testMode)
  {
    var k := (ClassKey(ann.0, testMode).value, IntToString(ann.1), subFold);
    if k != key {
      assert Push(index, key, path)[k] == index[k];
    }
  }

  /** The fold only appends: old lists stay as prefixes. */
  lemma {:induction false} ClassRecordsKeeps(idx: ClassIndex, anns: seq<(string, int)>, subFold: string,
                                             path: string, testMode: bool)
    ensures var r := ClassRecords(idx, anns, subFold, path, testMode);
            forall k :: k in idx ==> k in r.index && idx[k] <= r.index[k]
    decreases |anns|
  {
    if |anns| > 0 {
      ClassRecordsKeeps(idx, anns[..|anns| - 1], subFold, path, testMode);
    }
  }

  /** Lists under other sub-folders are untouched. */
  lemma {:induction false} ClassRecordsOtherFolders(idx: ClassIndex, anns: seq<(string, int)>, subFold: string,
                                                    path: string, testMode: bool)
    ensures var r := ClassRecords(idx, anns, subFold, path, testMode);
            forall k :: k in r.index && k.2 != subFold ==> k in idx && r.index[k] == idx[k]
    decreases |anns|
  {
    if |anns| > 0 {
      ClassRecordsOtherFolders(idx, anns[..|anns| - 1], subFold, path, testMode);
    }
  }

  /** The only element the fold adds is `path`. */
  lemma {:induction false} ClassRecordsOnlyPath(idx: ClassIndex, anns: seq<(string, int)>, subFold: string,
                                                path: string, testMode: bool)
    ensures var r := ClassRecords(idx, anns, subFold, path, testMode);
            forall k :: k in r.index ==> forall e :: e in r.index[k] ==> e == path || (k in idx && e in idx[k])
    decreases |anns|
  {
    if |anns| > 0 {
      var prev := ClassRecords(idx, anns[..|anns| - 1], subFold, path, testMode);
      ClassRecordsOnlyPath(idx, anns[..|anns| - 1], subFold, path, testMode);
      assert forall k :: k in prev.index ==> forall e :: e in prev.index[k] ==> e == path || (k in idx && e in idx[k]);
      var r := ClassRecords(idx, anns, subFold, path, testMode);
      var last := anns[|anns| - 1];
      if !prev.failed && ClassKey(last.0, testMode).Some? {
        var key := (ClassKey(last.0, testMode).value, IntToString(last.1), subFold);
        assert r.index == Push(prev.index, key, path);
        forall k | k in r.index
          ensures forall e :: e in r.index[k] ==> e == path || (k in idx && e in idx[k])
        {
          forall e | e in r.index[k] ensures e == path || (k in idx && e in idx[k]) {
            var pushed := Push(prev.index, key, path);
            if k == key {
              assert r.index[k] == (if k in prev.index then prev.index[k] else []) + [path];
              if e != path {
                assert k in prev.index && e in prev.index[k];
              }
            } else {
              assert k in prev.index && pushed[k] == prev.index[k];
              assert e in prev.index[k];
            }
          }
        }
      } else {
        assert r.index == prev.index;
      }
    }
  }

  /** `any(target in dig_n for target in target_list)` */
  predicate MatchesTarget(digN: string) {
    Contains(digN, "pigmentation") || Contains(digN, "moisture") || Contains(digN, "elasticity_R2") ||
    Contains(digN, "wrinkle_Ra") || Contains(digN, "pore")
  }

  /** The regression index after appending `[path, value]` under each
      measurement whose name contains a target, in measurement order. */
  function RegressionRecords(idx: RegressionIndex, equipment: seq<(string, real)>, subFold: string,
                             path: string): (r: RegressionIndex)
    decreases |equipment|
  {
    if |equipment| == 0 then idx
    else
      var prev := RegressionRecords(idx, equipment[..|equipment| - 1], subFold, path);
      var last := equipment[|equipment| - 1];
      if MatchesTarget(last.0) then Push(prev, (last.0, last.1, subFold), DataSplit.Entry(path, last.1))
      else prev
  }

  /** Every measurement that names a target is filed under its own name and
      value, carrying `path` and that value. */
  lemma {:induction false} RegressionRecordsFiles(idx: RegressionIndex, equipment: seq<(string, real)>,
                                                  subFold: string, path: string)
    ensures var r := RegressionRecords(idx, equipment, subFold, path);
            forall i :: 0 <= i < |equipment| && MatchesTarget(equipment[i].0) ==>
              (equipment[i].0, equipment[i].1, subFold) in r &&
              DataSplit.Entry(path, equipment[i].1) in r[(equipment[i].0, equipment[i].1, subFold)]
    decreases |equipment|
  {
    if |equipment| > 0 {
      var front := equipment[..|equipment| - 1];
      RegressionRecordsFiles(idx, front, subFold, path);
      RegressionRecordsKeeps(idx, front, subFold, path);
      assert forall i :: 0 <= i < |equipment| - 1 ==> front[i] == equipment[i];
    }
  }

  /** The fold only appends, only under targeted names in this sub-folder,
      and only entries for `path`. */
  lemma {:induction false} RegressionRecordsKeeps(idx: RegressionIndex, equipment: seq<(string, real)>,
                                                  subFold: string, path: string)
    ensures var r := RegressionRecords(idx, equipment, subFold, path);
            forall k :: k in idx ==> k in r && idx[k] <= r[k]
    ensures var r := RegressionRecords(idx, equipment, subFold, path);
            forall k :: k in r && (k.2 != subFold || !MatchesTarget(k.0)) ==> k in idx && r[k] == idx[k]
    ensures var r := RegressionRecords(idx, equipment, subFold, path);
            forall k :: k in r ==> forall e :: e in r[k] ==> e == DataSplit.Entry(path, k.1) || (k in idx && e in idx[k])
    decreases |equipment|
  {
    if |equipment| > 0 {
      RegressionRecordsKeeps(idx, equipment[..|equipment| - 1], subFold, path);
    }
  }

  /** A training sample's label: a class grade or a normalised value. */
  datatype Label = GradeLabel(grade: int) | ValueLabel(value: real)

  /** The entry `save_dict` appends, without the transformed image patch. */
  datatype Sample = Sample(target: Label, desc: string)

  /** What `save_dict` appends for one image path, or the error it raises. */
  function SampleOf(argsMode: string, dig: string, iPath: string, grade: string, value: real): (r: Result<Sample>)
    ensures Description(iPath).None? ==> r == Err(DataSplit.IndexErrorMessage)
    ensures r.Ok? ==> Some(r.value.desc) == Description(iPath)
    ensures argsMode == "class" && Description(iPath).Some? ==>
              (r.Ok? <==> ClassLabel(dig, grade).Some?) &&
              (r.Ok? ==> r.value.target == GradeLabel(ClassLabel(dig, grade).value)) &&
              (r.Err? ==> r.msg == IntLiteralMessage(grade))
    ensures argsMode != "class" && Description(iPath).Some? ==>
              (r.Ok? <==> NormReg(dig, value).Ok?) &&
              (r.Ok? ==> r.value.target == ValueLabel(NormReg(dig, value).value)) &&
              (r.Err? ==> r.msg == NormRegFailure)
  {
    match Description(iPath)
    case None => Err(DataSplit.IndexErrorMessage)
    case Some(desc) =>
      if argsMode == "class" then
        match ClassLabel(dig, grade)
        case None => Err(IntLiteralMessage(grade))
        case Some(n) => Ok(Sample(GradeLabel(n), desc))
      else
        match NormReg(dig, value)
        case Err(m) => Err(m)
        case Ok(v) => Ok(Sample(ValueLabel(v), desc))
  }

  /** A class sample read back from an index written by `process_json_meta`
      carries the recorded grade, with sagging 6 folded into 5. */
  lemma ClassSampleLabel(dig: string, iPath: string, g: nat, value: real)
    requires Description(iPath).Some?
    ensures SampleOf("class", dig, iPath, IntToString(g), value).Ok?
    ensures SampleOf("class", dig, iPath, IntToString(g), value).value.target ==
            GradeLabel(if dig == "sagging" && g == 6 then 5 else g)
  {
    ParseIntToString(g);
  }

  /** The loader's state: `args.mode`, the split mode, the two shapes of
      `json_dict`, and `area_list`. */
  class Loader {
    const argsMode: string
    const mode: string
    var classIndex: ClassIndex
    var regressionIndex: RegressionIndex
    var areaList: seq<Sample>

    constructor (argsMode: string, mode: string)
      ensures this.argsMode == argsMode && this.mode == mode
      ensures classIndex == map[] && regressionIndex == map[] && areaList == []
    {
      this.argsMode := argsMode;
      this.mode := mode;
      classIndex := map[];
      regressionIndex := map[];
      areaList := [];
    }

    /** Files one label record under `sub_fold`. */
    method ProcessJsonMeta(meta: JsonMeta, jName: string, subPath: string, subFold: string)
      returns (outcome: Outcome)
      modifies this
      ensures areaList == old(areaList)
      ensures Drops(argsMode, meta).Err? ==>
                outcome == Failed(DataSplit.IndexErrorMessage) &&
                classIndex == old(classIndex) && regressionIndex == old(regressionIndex)
      ensures Drops(argsMode, meta) == Ok(true) ==>
                outcome == Dropped && classIndex == old(classIndex) && regressionIndex == old(regressionIndex)
      ensures Drops(argsMode, meta) == Ok(false) && argsMode == "class" ==>
                var r := ClassRecords(old(classIndex), meta.annotations, subFold, StemPath(subPath, jName), mode == "test");
                classIndex == r.index && regressionIndex == old(regressionIndex) &&
                outcome == (if r.failed then Failed(DataSplit.IndexErrorMessage) else Recorded)
      ensures Drops(argsMode, meta) == Ok(false) && argsMode != "class" && meta.equipment.None? ==>
                outcome == Failed(NoneItemsMessage) &&
                classIndex == old(classIndex) && regressionIndex == old(regressionIndex)
      ensures Drops(argsMode, meta) == Ok(false) && argsMode != "class" && meta.equipment.Some? ==>
                outcome == Recorded && classIndex == old(classIndex) &&
                regressionIndex == RegressionRecords(old(regressionIndex), meta.equipment.value, subFold, StemPath(subPath, jName))
    {
      var drops := Drops(argsMode, meta);
      if drops.Err? {
        return Failed(drops.msg);
      }
      if drops.value {
        return Dropped;
      }
      var path := StemPath(subPath, jName);
      if argsMode == "class" {
        var failed := RecordClass(meta.annotations, subFold, path);
        outcome := if failed then Failed(DataSplit.IndexErrorMessage) else Recorded;
      } else if meta.equipment.None? {
        outcome := Failed(NoneItemsMessage);
      } else {
        RecordRegression(meta.equipment.value, subFold, path);
        outcome := Recorded;
      }
    }

    /** The class branch: one append per annotation, in order, until a
        name without "_" raises. */
    method RecordClass(anns: seq<(string, int)>, subFold: string, path: string) returns (failed: bool)
      modifies this
      ensures Indexed(classIndex, failed) == ClassRecords(old(classIndex), anns, subFold, path, mode == "test")
      ensures regressionIndex == old(regressionIndex) && areaList == old(areaList)
    {
      var i := 0;
      while i < |anns|
        invariant 0 <= i <= |anns|
        invariant ClassRecords(old(classIndex), anns[..i], subFold, path, mode == "test") == Indexed(classIndex, false)
        invariant regressionIndex == old(regressionIndex) && areaList == old(areaList)
      {
        assert anns[..i + 1][..i] == anns[..i];
        var key := ClassKey(anns[i].0, mode == "test");
        if key.None? {
          ClassRecordsFailedExtends(old(classIndex), anns, i + 1, subFold, path, mode == "test");
          ClassRecordsFailedStays(old(classIndex), anns, i + 1, subFold, path, mode == "test");
          assert anns[..|anns|] == anns;
          return true;
        }
        classIndex := Push(classIndex, (key.value, IntToString(anns[i].1), subFold), path);
        i := i + 1;
      }
      assert anns[..i] == anns;
      return false;
    }

    /** The regression branch: one append per measurement that names a target. */
    method RecordRegression(eq: seq<(string, real)>, subFold: string, path: string)
      modifies this
      ensures regressionIndex == RegressionRecords(old(regressionIndex), eq, subFold, path)
      ensures classIndex == old(classIndex) && areaList == old(areaList)
    {
      var i := 0;
      while i < |eq|
        invariant 0 <= i <= |eq|
        invariant regressionIndex == RegressionRecords(old(regressionIndex), eq[..i], subFold, path)
        invariant classIndex == old(classIndex) && areaList == old(areaList)
      {
        assert eq[..i + 1][..i] == eq[..i];
        if MatchesTarget(eq[i].0) {
          regressionIndex := Push(regressionIndex, (eq[i].0, eq[i].1, subFold), DataSplit.Entry(path, eq[i].1));
        }
        i := i + 1;
      }
      assert eq[..i] == eq;
    }

    /** Appends the sample for `i_path` when its image loads. */
    method SaveDict(dig: string, iPath: string, grade: string, value: real, imageLoads: bool)
      returns (outcome: Outcome)
      modifies this
      ensures classIndex == old(classIndex) && regressionIndex == old(regressionIndex)
      ensures !imageLoads ==> outcome == Dropped && areaList == old(areaList)
      ensures imageLoads && SampleOf(argsMode, dig, iPath, grade, value).Err? ==>
                outcome == Failed(SampleOf(argsMode, dig, iPath, grade, value).msg) && areaList == old(areaList)
      ensures imageLoads && SampleOf(argsMode, dig, iPath, grade, value).Ok? ==>
                outcome == Recorded && areaList == old(areaList) + [SampleOf(argsMode, dig, iPath, grade, value).value]
    {
      if !imageLoads {
        return Dropped;
      }
      var sample := SampleOf(argsMode, dig, iPath, grade, value);
      if sample.Err? {
        return Failed(sample.msg);
      }
      areaList := areaList + [sample.value];
      return Recorded;
    }
  }

  /** A failed fold stays failed, with the same index, over a longer list. */
  lemma {:induction false} ClassRecordsFailedStays(idx: ClassIndex, anns: seq<(string, int)>, n: nat,
                                                   subFold: string, path: string, testMode: bool)
    requires 0 <= n <= |anns|
    requires ClassRecords(idx, anns[..n], subFold, path, testMode).failed
    ensures ClassRecords(idx, anns, subFold, path, testMode) == ClassRecords(idx, anns[..n], subFold, path, testMode)
    decreases |anns| - n
  {
    if n < |anns| {
      assert anns[..n + 1][..n] == anns[..n];
      ClassRecordsFailedStays(idx, anns, n + 1, subFold, path, testMode);
    } else {
      assert anns[..n] == anns;
    }
  }

  /** Once an annotation without "_" is reached, the fold has failed. */
  lemma {:induction false} ClassRecordsFailedExtends(idx: ClassIndex, anns: seq<(string, int)>, n: nat,
                                                     subFold: string, path: string, testMode: bool)
    requires 0 < n <= |anns|
    requires ClassKey(anns[n - 1].0, testMode).None?
    ensures ClassRecords(idx, anns[..n], subFold, path, testMode).failed
  {
    assert anns[..n][n - 1] == anns[n - 1];
  }
}
