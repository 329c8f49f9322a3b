/** The train/val/test partitioning of tool/data_loader.py: the per-grade
    slicing of `CustomDataset_class.generate_datasets` and the group counter
    of `CustomDataset_regress.generate_datasets`. */
module DataSplit {
  import opened Wrappers
  import opened PyStr

  /** The raised `IndexError` of `path.split("_")[-2]` on a path without "_". */
  const IndexErrorMessage: string := "list index out of range"

  /** `path.split("_")[-2]` exists. */
  predicate HasArea(path: string) {
    |Split(path, '_')| >= 2
  }

  /** `path.split("_")[-2] in ["F"]`: a frontal image. */
  predicate Frontal(path: string) {
    SecondToLastField(path, '_') == Some("F")
  }

  /** The train, validation and test parts of one split. */
  datatype Splits<T> = Splits(train: seq<T>, val: seq<T>, test: seq<T>)

  // ---------------------------------------------------------------------
  // The frontal filter of the validation and test parts.
  // ---------------------------------------------------------------------

  /** The frontal entries of `xs`, in order; `None` when one of them has no
      second-to-last "_" field (the filter then raises). */
  function KeepFrontal(xs: seq<string>): (r: Option<seq<string>>)
    ensures r.Some? <==> forall k :: 0 <= k < |xs| ==> HasArea(xs[k])
  {
    if |xs| == 0 then Some([])
    else
      var init := xs[..|xs| - 1];
      var last := xs[|xs| - 1];
      assert xs == init + [last];
      var prev := KeepFrontal(init);
      if prev.None? || !HasArea(last) then None
      else Some(prev.value + (if Frontal(last) then [last] else []))
  }

  /** The filter keeps exactly the frontal entries, and never more entries
      than it was given. */
  lemma {:induction false} KeepFrontalMembers(xs: seq<string>, x: string)
    requires KeepFrontal(xs).Some?
    ensures x in KeepFrontal(xs).value <==> x in xs && Frontal(x)
    ensures |KeepFrontal(xs).value| <= |xs|
    decreases |xs|
  {
    if |xs| > 0 {
      var init := xs[..|xs| - 1];
      assert xs == init + [xs[|xs| - 1]];
      KeepFrontalMembers(init, x);
    }
  }

  /** The `tt_list` loop: appends each frontal entry in turn. */
  method FilterFrontal(xs: seq<string>) returns (r: Option<seq<string>>)
    ensures r == KeepFrontal(xs)
  {
    var kept: seq<string> := [];
    var i := 0;
    while i < |xs|
      invariant 0 <= i <= |xs|
      invariant KeepFrontal(xs[..i]) == Some(kept)
    {
      assert xs[..i + 1][..i] == xs[..i];
      assert xs[..i + 1][i] == xs[i];
      assert HasArea(xs[i]) ==>
        KeepFrontal(xs[..i + 1]) == Some(kept + (if Frontal(xs[i]) then [xs[i]] else []));
      if !HasArea(xs[i]) {
        KeepFrontalNoneExtends(xs, i + 1);
        return None;
      }
      assert kept + [] == kept;
      if Frontal(xs[i]) {
        kept := kept + [xs[i]];
      }
      i := i + 1;
    }
    assert xs[..i] == xs;
    return Some(kept);
  }

  /** Once the filter raises on a prefix, it raises on the whole list. */
  lemma KeepFrontalNoneExtends(xs: seq<string>, n: nat)
    requires n <= |xs| && KeepFrontal(xs[..n]).None?
    ensures KeepFrontal(xs).None?
  {
    var k :| 0 <= k < n && !HasArea(xs[..n][k]);
    assert xs[k] == xs[..n][k];
  }

  // ---------------------------------------------------------------------
  // Class split (tool/data_loader.py:54-75).
  // ---------------------------------------------------------------------

  /** `int(n * 0.8)` and `int(n * 0.1)`, taking the factors as exact. */
  function TrainLen(n: nat): nat { (4 * n) / 5 }
  function ValLen(n: nat): nat { n / 10 }

  lemma {:induction false} SliceLengthsFit(n: nat)
    ensures TrainLen(n) + ValLen(n) <= n
    ensures TrainLen(n) * 5 <= 4 * n < TrainLen(n) * 5 + 5
    ensures ValLen(n) * 10 <= n < ValLen(n) * 10 + 10
  {
    var t := (4 * n) / 5;
    var v := n / 10;
    assert 5 * t <= 4 * n;
    assert 10 * v <= n;
    assert 10 * (t + v) <= 9 * n;
  }

  /** `random_list[:train_len]`, `[train_len:train_len + val_len]` and the rest. */
  function SplitKeys(keys: seq<string>): (s: Splits<string>)
    ensures s.train + s.val + s.test == keys
    ensures |s.train| == TrainLen(|keys|) && |s.val| == ValLen(|keys|)
    ensures |s.test| == |keys| - TrainLen(|keys|) - ValLen(|keys|)
  {
    SliceLengthsFit(|keys|);
    var t := TrainLen(|keys|);
    var v := ValLen(|keys|);
    assert keys[..t] + keys[t..t + v] + keys[t + v..] == keys;
    Splits(keys[..t], keys[t..t + v], keys[t + v..])
  }

  /** `[grade_dict[idx] for idx in idx_list]` */
  function Lookup(gradeDict: map<string, seq<string>>, keys: seq<string>): (r: seq<seq<string>>)
    requires forall x :: x in keys ==> x in gradeDict
    ensures |r| == |keys| && forall k :: 0 <= k < |keys| ==> r[k] == gradeDict[keys[k]]
  {
    seq(|keys|, k requires 0 <= k < |keys| => gradeDict[keys[k]])
  }

  /** The per-key frontal filter of a validation or test part: each
      sub-folder filtered on its own, or `None` when one of them raises. */
  function FilterAll(gradeDict: map<string, seq<string>>, keys: seq<string>): (r: Option<seq<seq<string>>>)
    requires forall x :: x in keys ==> x in gradeDict
  {
    if forall k :: 0 <= k < |keys| ==> KeepFrontal(gradeDict[keys[k]]).Some? then
      Some(seq(|keys|, k requires 0 <= k < |keys| && KeepFrontal(gradeDict[keys[k]]).Some? =>
                         KeepFrontal(gradeDict[keys[k]]).value))
    else None
  }

  /** One grade's split. `shuffled` is `random.shuffle` applied to the grade's
      sub-folder names; each sub-folder holds a list of image paths. The train
      part takes the listed paths whole; the validation and test parts keep
      only the frontal paths of each sub-folder. */
  function ClassSplit(gradeDict: map<string, seq<string>>, shuffled: seq<string>): (r: Result<Splits<seq<string>>>)
    requires forall x :: x in shuffled ==> x in gradeDict
    ensures var keys := SplitKeys(shuffled);
            r.Ok? ==> |r.value.train| == |keys.train| && |r.value.val| == |keys.val| && |r.value.test| == |keys.test|
    ensures var keys := SplitKeys(shuffled);
            r.Ok? ==> forall k :: 0 <= k < |keys.train| ==> r.value.train[k] == gradeDict[keys.train[k]]
    ensures var keys := SplitKeys(shuffled);
            r.Ok? ==> forall k :: 0 <= k < |keys.val| ==> Some(r.value.val[k]) == KeepFrontal(gradeDict[keys.val[k]])
    ensures var keys := SplitKeys(shuffled);
            r.Ok? ==> forall k :: 0 <= k < |keys.test| ==> Some(r.value.test[k]) == KeepFrontal(gradeDict[keys.test[k]])
    ensures var keys := SplitKeys(shuffled);
            r.Ok? <==> (forall k :: 0 <= k < |keys.val| ==> KeepFrontal(gradeDict[keys.val[k]]).Some?) &&
                       (forall k :: 0 <= k < |keys.test| ==> KeepFrontal(gradeDict[keys.test[k]]).Some?)
    ensures r.Err? ==> r.msg == IndexErrorMessage
  {
    var keys := SplitKeys(shuffled);
    var train := Lookup(gradeDict, keys.train);
    var val := FilterAll(gradeDict, keys.val);
    var test := FilterAll(gradeDict, keys.test);
    if val.None? || test.None? then
      Err(IndexErrorMessage)
    else Ok(Splits(train, val.value, test.value))
  }

  /** Every validation and test sub-folder keeps exactly its frontal paths;
      the train part loses nothing. */
  lemma {:induction false} ClassSplitKeepsFrontal(gradeDict: map<string, seq<string>>, shuffled: seq<string>, k: nat, x: string)
    requires forall x :: x in shuffled ==> x in gradeDict
    requires ClassSplit(gradeDict, shuffled).Ok?
    ensures var keys := SplitKeys(shuffled);
            var s := ClassSplit(gradeDict, shuffled).value;
            (k < |keys.train| ==> (x in s.train[k] <==> x in gradeDict[keys.train[k]])) &&
            (k < |keys.val| ==> (x in s.val[k] <==> x in gradeDict[keys.val[k]] && Frontal(x))) &&
            (k < |keys.test| ==> (x in s.test[k] <==> x in gradeDict[keys.test[k]] && Frontal(x)))
  {
    var keys := SplitKeys(shuffled);
    if k < |keys.val| {
      assert KeepFrontal(gradeDict[keys.val[k]]).Some?;
      KeepFrontalMembers(gradeDict[keys.val[k]], x);
    }
    if k < |keys.test| {
      assert KeepFrontal(gradeDict[keys.test[k]]).Some?;
      KeepFrontalMembers(gradeDict[keys.test[k]], x);
    }
  }

  /** The split loop of one grade: the train part as a comprehension, the
      validation and test parts one sub-folder at a time. */
  method SplitGrade(gradeDict: map<string, seq<string>>, shuffled: seq<string>)
    returns (r: Result<Splits<seq<string>>>)
    requires forall x :: x in shuffled ==> x in gradeDict
    ensures r == ClassSplit(gradeDict, shuffled)
  {
    var keys := SplitKeys(shuffled);
    var train := Lookup(gradeDict, keys.train);
    var val := FilterEach(gradeDict, keys.val);
    var test := FilterEach(gradeDict, keys.test);
    if val.None? || test.None? {
      return Err(IndexErrorMessage);
    }
    return Ok(Splits(train, val.value, test.value));
  }

  /** `for idx in idx_list: ... in_list.append(tt_list)` */
  method FilterEach(gradeDict: map<string, seq<string>>, keys: seq<string>) returns (r: Option<seq<seq<string>>>)
    requires forall x :: x in keys ==> x in gradeDict
    ensures r == FilterAll(gradeDict, keys)
  {
    var inList: seq<seq<string>> := [];
    var i := 0;
    assert keys[..0] == [];
    assert FilterAll(gradeDict, []).Some? && |FilterAll(gradeDict, []).value| == 0;
    while i < |keys|
      invariant 0 <= i <= |keys|
      invariant FilterAll(gradeDict, keys[..i]) == Some(inList)
    {
      assert keys[..i + 1][..i] == keys[..i];
      var tt := FilterFrontal(gradeDict[keys[i]]);
      if tt.None? {
        FilterAllNoneExtends(gradeDict, keys, i + 1);
        return None;
      }
      FilterAllSnoc(gradeDict, keys, i, inList, tt.value);
      inList := inList + [tt.value];
      i := i + 1;
    }
    assert keys[..i] == keys;
    return Some(inList);
  }

  lemma FilterAllSnoc(gradeDict: map<string, seq<string>>, keys: seq<string>, i: nat,
                      prev: seq<seq<string>>, last: seq<string>)
    requires forall x :: x in keys ==> x in gradeDict
    requires i < |keys| && FilterAll(gradeDict, keys[..i]) == Some(prev)
    requires KeepFrontal(gradeDict[keys[i]]) == Some(last)
    ensures FilterAll(gradeDict, keys[..i + 1]) == Some(prev + [last])
  {
    var ks := keys[..i + 1];
    assert ks[..i] == keys[..i] && ks[i] == keys[i];
    assert forall k :: 0 <= k < i ==> ks[k] == keys[..i][k];
    assert FilterAll(gradeDict, ks).Some?;
    assert FilterAll(gradeDict, ks).value == prev + [last];
  }

  lemma FilterAllNoneExtends(gradeDict: map<string, seq<string>>, keys: seq<string>, n: nat)
    requires forall x :: x in keys ==> x in gradeDict
    requires n <= |keys| && FilterAll(gradeDict, keys[..n]).None?
    ensures FilterAll(gradeDict, keys).None?
  {
    var k :| 0 <= k < n && KeepFrontal(gradeDict[keys[..n][k]]).None?;
    assert keys[k] == keys[..n][k];
  }

  // ---------------------------------------------------------------------
  // Regression split (tool/data_loader.py:343-361).
  // ---------------------------------------------------------------------

  /** A `[path, value]` record of the regression index. */
  datatype Entry = Entry(path: string, value: real)

  datatype Part = TrainPart | ValPart | TestPart

  /** Where the group counted `i` goes: every tenth group from the ninth on
      is validation, the one after it test, all others train. */
  function PartOf(i: nat): Part {
    if i % 10 == 8 then ValPart else if i % 10 == 9 then TestPart else TrainPart
  }

  /** Group number `i` added entry by entry to the parts built so far. */
  function AddGroup(s: Splits<Entry>, g: seq<Entry>, i: nat): (r: Result<Splits<Entry>>)
    ensures r.Ok? <==> PartOf(i) == TrainPart || forall k :: 0 <= k < |g| ==> HasArea(g[k].path)
    ensures r.Err? ==> r.msg == IndexErrorMessage
  {
    if |g| == 0 then Ok(s)
    else
      var init := g[..|g| - 1];
      var e := g[|g| - 1];
      assert g == init + [e];
      match AddGroup(s, init, i)
      case Err(m) => Err(m)
      case Ok(t) => AddEntry(t, e, i)
  }

  /** One value of group `i`: train takes it, validation and test take it
      when frontal, and raise when it has no area field. */
  function AddEntry(t: Splits<Entry>, e: Entry, i: nat): Result<Splits<Entry>> {
    match PartOf(i)
    case TrainPart => Ok(t.(train := t.train + [e]))
    case ValPart =>
      if !HasArea(e.path) then Err(IndexErrorMessage)
      else if Frontal(e.path) then Ok(t.(val := t.val + [e])) else Ok(t)
    case TestPart =>
      if !HasArea(e.path) then Err(IndexErrorMessage)
      else if Frontal(e.path) then Ok(t.(test := t.test + [e])) else Ok(t)
  }

  lemma AddGroupSnoc(s: Splits<Entry>, g: seq<Entry>, j: nat, i: nat, t: Splits<Entry>)
    requires j < |g| && AddGroup(s, g[..j], i) == Ok(t)
    ensures AddGroup(s, g[..j + 1], i) == AddEntry(t, g[j], i)
  {
    assert g[..j + 1][..j] == g[..j];
    assert g[..j + 1][j] == g[j];
  }

  /** A group adds its entries to its own part only (validation and test
      keep the frontal ones) and leaves the other parts as they were. */
  lemma {:induction false} AddGroupMembers(s: Splits<Entry>, g: seq<Entry>, i: nat, e: Entry)
    requires AddGroup(s, g, i).Ok?
    ensures var r := AddGroup(s, g, i).value;
            (e in r.train <==> e in s.train || (PartOf(i) == TrainPart && e in g)) &&
            (e in r.val <==> e in s.val || (PartOf(i) == ValPart && e in g && Frontal(e.path))) &&
            (e in r.test <==> e in s.test || (PartOf(i) == TestPart && e in g && Frontal(e.path)))
    decreases |g|
  {
    if |g| > 0 {
      var init := g[..|g| - 1];
      assert g == init + [g[|g| - 1]];
      AddGroupMembers(s, init, i, e);
    }
  }

  /** The regression split of one indicator. `groups` are its per-sub-folder
      value lists, in the order the loops visit them (sorted value keys,
      then sub-folders in insertion order). */
  function RegressionSplit(groups: seq<seq<Entry>>): (r: Result<Splits<Entry>>)
    ensures r.Ok? <==> forall g, k :: 0 <= g < |groups| && PartOf(g) != TrainPart && 0 <= k < |groups[g]| ==>
                         HasArea(groups[g][k].path)
    ensures r.Err? ==> r.msg == IndexErrorMessage
  {
    if |groups| == 0 then Ok(Splits([], [], []))
    else
      var n := |groups| - 1;
      var init := groups[..n];
      assert forall g :: 0 <= g < n ==> init[g] == groups[g];
      match RegressionSplit(init)
      case Err(m) => Err(m)
      case Ok(s) => AddGroup(s, groups[n], n)
  }

  /** Train holds exactly the entries of the train groups; validation and test
      hold exactly the frontal entries of their groups. */
  lemma RegressionSplitMembers(groups: seq<seq<Entry>>, e: Entry)
    requires RegressionSplit(groups).Ok?
    ensures var s := RegressionSplit(groups).value;
            (e in s.train <==> exists g :: 0 <= g < |groups| && PartOf(g) == TrainPart && e in groups[g]) &&
            (e in s.val <==> Frontal(e.path) && exists g :: 0 <= g < |groups| && PartOf(g) == ValPart && e in groups[g]) &&
            (e in s.test <==> Frontal(e.path) && exists g :: 0 <= g < |groups| && PartOf(g) == TestPart && e in groups[g])
  {
    TrainMembers(groups, e);
    ValMembers(groups, e);
    TestMembers(groups, e);
  }

  lemma {:induction false} TrainMembers(groups: seq<seq<Entry>>, e: Entry)
    requires RegressionSplit(groups).Ok?
    ensures e in RegressionSplit(groups).value.train <==>
            exists g :: 0 <= g < |groups| && PartOf(g) == TrainPart && e in groups[g]
  {
    if |groups| > 0 {
      var n := |groups| - 1;
      var init := groups[..n];
      assert forall g :: 0 <= g < n ==> init[g] == groups[g];
      TrainMembers(init, e);
      var t := RegressionSplit(init).value;
      assert AddGroup(t, groups[n], n) == RegressionSplit(groups);
      AddGroupMembers(t, groups[n], n, e);
    }
  }

  lemma {:induction false} ValMembers(groups: seq<seq<Entry>>, e: Entry)
    requires RegressionSplit(groups).Ok?
    ensures e in RegressionSplit(groups).value.val <==>
            Frontal(e.path) && exists g :: 0 <= g < |groups| && PartOf(g) == ValPart && e in groups[g]
  {
    if |groups| > 0 {
      var n := |groups| - 1;
      var init := groups[..n];
      assert forall g :: 0 <= g < n ==> init[g] == groups[g];
      ValMembers(init, e);
      var t := RegressionSplit(init).value;
      assert AddGroup(t, groups[n], n) == RegressionSplit(groups);
      AddGroupMembers(t, groups[n], n, e);
    }
  }

  lemma {:induction false} TestMembers(groups: seq<seq<Entry>>, e: Entry)
    requires RegressionSplit(groups).Ok?
    ensures e in RegressionSplit(groups).value.test <==>
            Frontal(e.path) && exists g :: 0 <= g < |groups| && PartOf(g) == TestPart && e in groups[g]
  {
    if |groups| > 0 {
      var n := |groups| - 1;
      var init := groups[..n];
      assert forall g :: 0 <= g < n ==> init[g] == groups[g];
      TestMembers(init, e);
      var t := RegressionSplit(init).value;
      assert AddGroup(t, groups[n], n) == RegressionSplit(groups);
      AddGroupMembers(t, groups[n], n, e);
    }
  }

  /** The split loop: one pass over the groups with the counter `i`, which
      advances once per group and not once per value. */
  method GenerateRegressionSplit(groups: seq<seq<Entry>>) returns (r: Result<Splits<Entry>>)
    ensures r == RegressionSplit(groups)
  {
    var parts := Splits([], [], []);
    var i := 0;
    while i < |groups|
      invariant 0 <= i <= |groups|
      invariant RegressionSplit(groups[..i]) == Ok(parts)
    {
      assert groups[..i + 1][..i] == groups[..i];
      var added := AddValues(parts, groups[i], i);
      if added.Err? {
        RegressionSplitErr(groups, i + 1);
        return Err(IndexErrorMessage);
      }
      parts := added.value;
      i := i + 1;
    }
    assert groups[..i] == groups;
    return Ok(parts);
  }

  /** The inner loop over one group's values, for group counter `i`. */
  method AddValues(before: Splits<Entry>, valueList: seq<Entry>, i: nat) returns (r: Result<Splits<Entry>>)
    ensures r == AddGroup(before, valueList, i)
  {
    var trainSub := before.train;
    var valSub := before.val;
    var testSub := before.test;
    var j := 0;
    while j < |valueList|
      invariant 0 <= j <= |valueList|
      invariant AddGroup(before, valueList[..j], i) == Ok(Splits(trainSub, valSub, testSub))
    {
      AddGroupSnoc(before, valueList, j, i, Splits(trainSub, valSub, testSub));
      var value := valueList[j];
      if i % 10 == 8 {
        if !HasArea(value.path) {
          AddGroupErrExtends(before, valueList, j + 1, i);
          return Err(IndexErrorMessage);
        }
        if Frontal(value.path) {
          valSub := valSub + [value];
        }
      } else if i % 10 == 9 {
        if !HasArea(value.path) {
          AddGroupErrExtends(before, valueList, j + 1, i);
          return Err(IndexErrorMessage);
        }
        if Frontal(value.path) {
          testSub := testSub + [value];
        }
      } else {
        trainSub := trainSub + [value];
      }
      j := j + 1;
    }
    assert valueList[..j] == valueList;
    return Ok(Splits(trainSub, valSub, testSub));
  }

  lemma AddGroupErrExtends(s: Splits<Entry>, g: seq<Entry>, n: nat, i: nat)
    requires n <= |g| && AddGroup(s, g[..n], i).Err?
    ensures AddGroup(s, g, i).Err?
  {
    var k :| 0 <= k < n && !HasArea(g[..n][k].path);
    assert g[k] == g[..n][k];
  }

  lemma RegressionSplitErr(groups: seq<seq<Entry>>, n: nat)
    requires 0 < n <= |groups| && RegressionSplit(groups[..n - 1]).Ok?
    requires AddGroup(RegressionSplit(groups[..n - 1]).value, groups[n - 1], n - 1).Err?
    ensures RegressionSplit(groups).Err?
  {
    assert groups[..n][..n - 1] == groups[..n - 1];
    assert RegressionSplit(groups[..n]).Err?;
    var g, k :| 0 <= g < n && PartOf(g) != TrainPart && 0 <= k < |groups[..n][g]| && !HasArea(groups[..n][g][k].path);
    assert groups[..n][g] == groups[g];
  }

  /** No entry lands in two parts, provided each entry is filed in one group. */
  lemma {:induction false} RegressionSplitDisjoint(groups: seq<seq<Entry>>, e: Entry)
    requires forall g1, g2 :: 0 <= g1 < |groups| && 0 <= g2 < |groups| && e in groups[g1] && e in groups[g2] ==> g1 == g2
    requires RegressionSplit(groups).Ok?
    ensures var s := RegressionSplit(groups).value;
            !(e in s.train && e in s.val) && !(e in s.train && e in s.test) && !(e in s.val && e in s.test)
  {
    RegressionSplitMembers(groups, e);
  }
}
