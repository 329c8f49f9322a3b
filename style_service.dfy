/** The style recommender: candidates loaded from the style data files are
    scored against the user's photo with CLIP and the three best are
    returned. CLIP, the file system and the image codec are oracles. */
module StyleService {
  import opened Wrappers
  import opened PyStr

  // ---------------------------------------------------------------------
  // `_load_dataset`: the two record shapes.
  // ---------------------------------------------------------------------

  /** The `response` object of a "final" record. */
  datatype FinalResponse = FinalResponse(caption: Option<string>, promptEn: Option<string>)

  /** One JSON record. `imagePath` is the "image_path" key of a detailed
      record and `sentenceEnglish` its `caption.sentence_english`; `request`
      is the "request" key of a final record, holding its "이미지경로" entry
      when present. */
  datatype RawItem = RawItem(
    styleId: Option<string>,
    embedding: Option<seq<real>>,
    imagePath: Option<string>,
    sentenceEnglish: Option<string>,
    request: Option<Option<string>>,
    response: Option<FinalResponse>)

  /** A dataset entry: `{style_id, embedding, caption, image_path}`. */
  datatype Candidate = Candidate(styleId: string, embedding: seq<real>, caption: string, imagePath: string)

  const StyleFiles: seq<string> := ["style_data.json", "style_data_2.json", "final_style_data.json"]

  function JoinPath(dir: string, name: string): string {
    dir + "/" + name
  }

  /** `str(e)` of a `KeyError` for `key`. */
  function KeyErrorMessage(key: string): string {
    "'" + key + "'"
  }

  /** `item["response"].get("caption", "") or item["response"].get("prompt_en", "")` */
  function FinalCaption(r: FinalResponse): (t: string)
    ensures r.caption.Some? && r.caption.value != "" ==> t == r.caption.value
    ensures (r.caption.None? || r.caption.value == "") ==> t == r.promptEn.GetOr("")
  {
    var c := r.caption.GetOr("");
    if c != "" then c else r.promptEn.GetOr("")
  }

  /** One record of `_load_dataset`: `Ok(None)` when it is skipped, `Err`
      for the `KeyError` of a final record without its image path, or
      without its response once the image exists. */
  function ItemCandidate(dir: string, item: RawItem, present: string -> bool): (r: Result<Option<Candidate>>)
    ensures r.Ok? && r.value.Some? ==> present(r.value.value.imagePath)
    ensures item.imagePath.Some? ==> r.Ok?
    ensures item.imagePath.None? && item.request.None? ==> r == Ok(None)
  {
    if item.imagePath.Some? then
      var p := JoinPath(dir, item.imagePath.value);
      if present(p) then
        Ok(Some(Candidate(item.styleId.GetOr(""), item.embedding.GetOr([]), item.sentenceEnglish.GetOr(""), p)))
      else Ok(None)
    else if item.request.Some? then
      if item.request.value.None? then Err(KeyErrorMessage("이미지경로"))
      else
        var p := JoinPath(dir, item.request.value.value);
        if !present(p) then Ok(None)
        else if item.response.None? then Err(KeyErrorMessage("response"))
        else Ok(Some(Candidate(item.styleId.GetOr(""), item.embedding.GetOr([]), FinalCaption(item.response.value), p)))
    else Ok(None)
  }

  /** A detailed record takes its caption from `caption.sentence_english`,
      even when it also has a "request" key. */
  lemma DetailedRecordCaption(dir: string, item: RawItem, present: string -> bool)
    requires item.imagePath.Some? && present(JoinPath(dir, item.imagePath.value))
    ensures ItemCandidate(dir, item, present) ==
              Ok(Some(Candidate(item.styleId.GetOr(""), item.embedding.GetOr([]), item.sentenceEnglish.GetOr(""),
                                JoinPath(dir, item.imagePath.value))))
  {
  }

  /** A final record takes its caption from `response.caption`, falling
      back to `response.prompt_en`. */
  lemma FinalRecordCaption(dir: string, item: RawItem, present: string -> bool)
    requires item.imagePath.None? && item.request.Some? && item.request.value.Some?
    requires present(JoinPath(dir, item.request.value.value)) && item.response.Some?
    ensures ItemCandidate(dir, item, present).Ok?
    ensures ItemCandidate(dir, item, present).value.Some?
    ensures ItemCandidate(dir, item, present).value.value.caption ==
              if item.response.value.caption.Some? && item.response.value.caption.value != ""
              then item.response.value.caption.value
              else item.response.value.promptEn.GetOr("")
  {
  }

  function OptSeq<T>(o: Option<T>): seq<T> {
    if o.Some? then [o.value] else []
  }

  /** The records of one file, in order, stopping at the first error. */
  function LoadItems(dir: string, items: seq<RawItem>, present: string -> bool): Result<seq<Candidate>>
    decreases |items|
  {
    if |items| == 0 then Ok([])
    else
      match LoadItems(dir, items[..|items| - 1], present)
      case Err(m) => Err(m)
      case Ok(ds) =>
        match ItemCandidate(dir, items[|items| - 1], present)
        case Err(m) => Err(m)
        case Ok(c) => Ok(ds + OptSeq(c))
  }

  /** The three files in order; a missing file (`read` gives `None`) is skipped. */
  function LoadFiles(dir: string, names: seq<string>, read: string -> Option<seq<RawItem>>,
                     present: string -> bool): Result<seq<Candidate>>
    decreases |names|
  {
    if |names| == 0 then Ok([])
    else
      match LoadFiles(dir, names[..|names| - 1], read, present)
      case Err(m) => Err(m)
      case Ok(ds) =>
        match read(JoinPath(dir, names[|names| - 1]))
        case None => Ok(ds)
        case Some(items) =>
          match LoadItems(dir, items, present)
          case Err(m) => Err(m)
          case Ok(more) => Ok(ds + more)
  }

  lemma {:induction false} LoadItemsErrStays(dir: string, items: seq<RawItem>, present: string -> bool, j: nat)
    requires j <= |items| && LoadItems(dir, items[..j], present).Err?
    ensures LoadItems(dir, items, present) == LoadItems(dir, items[..j], present)
    decreases |items| - j
  {
    if j < |items| {
      assert items[..j + 1][..j] == items[..j];
      LoadItemsErrStays(dir, items, present, j + 1);
    } else {
      assert items[..j] == items;
    }
  }

  /** Every loaded candidate's image exists. */
  lemma {:induction false} LoadedImagesExist(dir: string, items: seq<RawItem>, present: string -> bool)
    requires LoadItems(dir, items, present).Ok?
    ensures forall c :: c in LoadItems(dir, items, present).value ==> present(c.imagePath)
    ensures |LoadItems(dir, items, present).value| <= |items|
    decreases |items|
  {
    if |items| > 0 {
      LoadedImagesExist(dir, items[..|items| - 1], present);
    }
  }

  /** `_load_dataset(json_dir)` for one file's records: the inner loop. */
  method LoadFile(dir: string, items: seq<RawItem>, present: string -> bool) returns (r: Result<seq<Candidate>>)
    ensures r == LoadItems(dir, items, present)
  {
    var ds: seq<Candidate> := [];
    var j := 0;
    while j < |items|
      invariant 0 <= j <= |items|
      invariant LoadItems(dir, items[..j], present) == Ok(ds)
    {
      assert items[..j + 1][..j] == items[..j];
      var c := ItemCandidate(dir, items[j], present);
      if c.Err? {
        LoadItemsErrStays(dir, items, present, j + 1);
        return Err(c.msg);
      }
      assert LoadItems(dir, items[..j + 1], present) == Ok(ds + OptSeq(c.value));
      ds := ds + OptSeq(c.value);
      j := j + 1;
    }
    assert items[..j] == items;
    r := Ok(ds);
  }

  /** `_load_dataset(json_dir)`: the loop over the three files. */
  method LoadDataset(dir: string, read: string -> Option<seq<RawItem>>, present: string -> bool)
    returns (r: Result<seq<Candidate>>)
    ensures r == LoadFiles(dir, StyleFiles, read, present)
  {
    var ds: seq<Candidate> := [];
    var k := 0;
    while k < |StyleFiles|
      invariant 0 <= k <= |StyleFiles|
      invariant LoadFiles(dir, StyleFiles[..k], read, present) == Ok(ds)
    {
      assert StyleFiles[..k + 1][..k] == StyleFiles[..k];
      var contents := read(JoinPath(dir, StyleFiles[k]));
      if contents.Some? {
        var more := LoadFile(dir, contents.value, present);
        if more.Err? {
          LoadFilesErrStays(dir, StyleFiles, read, present, k + 1);
          return Err(more.msg);
        }
        ds := ds + more.value;
      }
      k := k + 1;
    }
    assert StyleFiles[..k] == StyleFiles;
    r := Ok(ds);
  }

  lemma {:induction false} LoadFilesErrStays(dir: string, names: seq<string>, read: string -> Option<seq<RawItem>>,
                                             present: string -> bool, j: nat)
    requires j <= |names| && LoadFiles(dir, names[..j], read, present).Err?
    ensures LoadFiles(dir, names, read, present) == LoadFiles(dir, names[..j], read, present)
    decreases |names| - j
  {
    if j < |names| {
      assert names[..j + 1][..j] == names[..j];
      LoadFilesErrStays(dir, names, read, present, j + 1);
    } else {
      assert names[..j] == names;
    }
  }

  // ---------------------------------------------------------------------
  // Scoring the candidates.
  // ---------------------------------------------------------------------

  /** The outside world the candidate loop sees: whether a path exists,
      whether `Image.open` succeeds on it, `_encode_image` of the opened
      image (`None` when it raises), and CLIP's similarity of the user's
      photo to a stored embedding or to an image. */
  datatype Oracles = Oracles(
    present: string -> bool,
    opens: string -> bool,
    encode: string -> Option<string>,
    embeddingScore: seq<real> -> real,
    imageScore: string -> real)

  /** One result row: `{style_id, style_image_base64, score}`. */
  datatype StyleResult = StyleResult(styleId: string, image: string, score: real)

  /** `0.85 * score_img + 0.15 * score_txt` (the rounding to 4 places is left out). */
  function Combine(imageScore: real, textScore: real): (s: real)
    ensures imageScore <= textScore ==> imageScore <= s <= textScore
    ensures textScore <= imageScore ==> textScore <= s <= imageScore
  {
    0.85 * imageScore + 0.15 * textScore
  }

  /** The combined score rises with the image score. */
  lemma CombineMonotone(a: real, b: real, t: real)
    requires a <= b
    ensures Combine(a, t) <= Combine(b, t)
  {
  }

  /** The image score of a candidate: its stored embedding when non-empty,
      else the image itself, `None` when it cannot be opened. */
  function ImageScore(c: Candidate, o: Oracles): Option<real> {
    if |c.embedding| > 0 then Some(o.embeddingScore(c.embedding))
    else if o.opens(c.imagePath) then Some(o.imageScore(c.imagePath))
    else None
  }

  /** The base64 of the candidate's own image, or "" when it cannot be
      opened or encoded. */
  function OwnImage(path: string, o: Oracles): string {
    if o.opens(path) then o.encode(path).GetOr("") else ""
  }

  /** The row one candidate contributes, if any, with its own image. */
  function ResultOf(c: Candidate, o: Oracles, textScore: real): (r: Option<StyleResult>)
    ensures r.Some? ==> c.imagePath != "" && o.present(c.imagePath)
    ensures r.Some? ==> r.value.styleId == c.styleId && r.value.image == OwnImage(c.imagePath, o)
  {
    if c.imagePath == "" || !o.present(c.imagePath) then None
    else
      match ImageScore(c, o)
      case None => None
      case Some(s) => Some(StyleResult(c.styleId, OwnImage(c.imagePath, o), Combine(s, textScore)))
  }

  /** The candidate loop: one row per usable candidate, in dataset order. */
  function Scan(ds: seq<Candidate>, o: Oracles, textScore: real): seq<StyleResult>
    decreases |ds|
  {
    if |ds| == 0 then []
    else Scan(ds[..|ds| - 1], o, textScore) + OptSeq(ResultOf(ds[|ds| - 1], o, textScore))
  }

  /** Every row comes from a candidate of the dataset, and carries that
      candidate's own image. */
  lemma {:induction false} ScanRowsFromCandidates(ds: seq<Candidate>, o: Oracles, textScore: real)
    ensures |Scan(ds, o, textScore)| <= |ds|
    ensures forall r :: r in Scan(ds, o, textScore) ==>
              exists c :: c in ds && ResultOf(c, o, textScore) == Some(r)
    decreases |ds|
  {
    if |ds| > 0 {
      var front := ds[..|ds| - 1];
      ScanRowsFromCandidates(front, o, textScore);
      forall r | r in Scan(ds, o, textScore)
        ensures exists c :: c in ds && ResultOf(c, o, textScore) == Some(r)
      {
        if r in Scan(front, o, textScore) {
          var c :| c in front && ResultOf(c, o, textScore) == Some(r);
          assert c in ds;
        } else {
          assert ResultOf(ds[|ds| - 1], o, textScore) == Some(r);
        }
      }
    }
  }

  /** The candidate loop with the user's text score fixed. */
  method ScoreCandidates(ds: seq<Candidate>, o: Oracles, textScore: real) returns (rs: seq<StyleResult>)
    ensures rs == Scan(ds, o, textScore)
  {
    rs := [];
    var k := 0;
    while k < |ds|
      invariant 0 <= k <= |ds|
      invariant rs == Scan(ds[..k], o, textScore)
    {
      assert ds[..k + 1][..k] == ds[..k];
      var r := ResultOf(ds[k], o, textScore);
      if r.Some? {
        rs := rs + [r.value];
      }
      k := k + 1;
    }
    assert ds[..k] == ds;
  }

  // ---------------------------------------------------------------------
  // The loop as written: `if 'img' not in locals()`.
  // ---------------------------------------------------------------------

  /** The loop's state: the rows so far and the path of the image `img`
      holds, which survives from one iteration to the next. */
  datatype ScanState = ScanState(rows: seq<StyleResult>, img: Option<string>)

  function StepAsWritten(st: ScanState, c: Candidate, o: Oracles, textScore: real): ScanState {
    var p := c.imagePath;
    if p == "" || !o.present(p) then st
    else if |c.embedding| == 0 && !o.opens(p) then st
    else
      var s := if |c.embedding| > 0 then o.embeddingScore(c.embedding) else o.imageScore(p);
      var img := if |c.embedding| == 0 then Some(p) else st.img;
      var img2 := if img.None? && o.opens(p) then Some(p) else img;
      var b64 := if img2.Some? then o.encode(img2.value).GetOr("") else "";
      ScanState(st.rows + [StyleResult(c.styleId, b64, Combine(s, textScore))], img2)
  }

  function ScanAsWritten(ds: seq<Candidate>, o: Oracles, textScore: real): ScanState
    decreases |ds|
  {
    if |ds| == 0 then ScanState([], None)
    else StepAsWritten(ScanAsWritten(ds[..|ds| - 1], o, textScore), ds[|ds| - 1], o, textScore)
  }

  /** Two candidates with stored embeddings: as written, the second row
      shows the first candidate's image, while the intended loop shows its
      own. */
  lemma StaleImageShown()
    ensures var o := Oracles(p => true, p => true, p => Some(p), e => 0.5, p => 0.5);
            var ds := [Candidate("A", [1.0], "", "a.jpg"), Candidate("B", [1.0], "", "b.jpg")];
            ScanAsWritten(ds, o, 1.0).rows[1].image == "a.jpg" &&
            Scan(ds, o, 1.0)[1].image == "b.jpg"
  {
    var o := Oracles(p => true, p => true, p => Some(p), e => 0.5, p => 0.5);
    var ds := [Candidate("A", [1.0], "", "a.jpg"), Candidate("B", [1.0], "", "b.jpg")];
    assert ds[..1] == [ds[0]] && ds[..1][..0] == [];
    assert ScanAsWritten(ds[..1][..0], o, 1.0) == ScanState([], None);
    var first := ScanAsWritten(ds[..1], o, 1.0);
    assert first == StepAsWritten(ScanState([], None), ds[0], o, 1.0);
    assert first == ScanState([StyleResult("A", "a.jpg", Combine(0.5, 1.0))], Some("a.jpg"));
    assert ScanAsWritten(ds, o, 1.0) == StepAsWritten(first, ds[1], o, 1.0);
    assert Scan(ds[..1], o, 1.0) == [StyleResult("A", "a.jpg", Combine(0.5, 1.0))];
    assert ResultOf(ds[1], o, 1.0) == Some(StyleResult("B", "b.jpg", Combine(0.5, 1.0)));
  }

  // ---------------------------------------------------------------------
  // `sorted(results, key=score, reverse=True)[:3]`
  // ---------------------------------------------------------------------

  predicate SortedDesc(s: seq<StyleResult>) {
    forall i, j :: 0 <= i < j < |s| ==> s[i].score >= s[j].score
  }

  /** Places `x` before the first row that does not score higher, so rows
      with equal scores keep their order. */
  function Insert(x: StyleResult, t: seq<StyleResult>): (r: seq<StyleResult>)
    ensures |r| == |t| + 1
    decreases |t|
  {
    if |t| == 0 || x.score >= t[0].score then [x] + t else [t[0]] + Insert(x, t[1..])
  }

  /** Python's stable sort, highest score first. */
  function SortDesc(s: seq<StyleResult>): (r: seq<StyleResult>)
    ensures |r| == |s|
    decreases |s|
  {
    if |s| == 0 then [] else Insert(s[0], SortDesc(s[1..]))
  }

  lemma {:induction false} InsertPermutes(x: StyleResult, t: seq<StyleResult>)
    ensures multiset(Insert(x, t)) == multiset{x} + multiset(t)
    decreases |t|
  {
    if |t| > 0 && x.score < t[0].score {
      InsertPermutes(x, t[1..]);
      assert t == [t[0]] + t[1..];
    }
  }

  lemma ConsSorted(a: StyleResult, rest: seq<StyleResult>)
    requires SortedDesc(rest)
    requires forall k :: 0 <= k < |rest| ==> rest[k].score <= a.score
    ensures SortedDesc([a] + rest)
  {
    forall i, j | 0 <= i < j < |[a] + rest|
      ensures ([a] + rest)[i].score >= ([a] + rest)[j].score
    {
      if i > 0 {
        assert ([a] + rest)[i] == rest[i - 1] && ([a] + rest)[j] == rest[j - 1];
      } else {
        assert ([a] + rest)[j] == rest[j - 1];
      }
    }
  }

  lemma {:induction false} InsertSorted(x: StyleResult, t: seq<StyleResult>)
    requires SortedDesc(t)
    ensures SortedDesc(Insert(x, t))
    decreases |t|
  {
    if |t| == 0 || x.score >= t[0].score {
      ConsSorted(x, t);
    } else {
      var tail := t[1..];
      assert SortedDesc(tail) by {
        forall i, j | 0 <= i < j < |tail| ensures tail[i].score >= tail[j].score {
          assert tail[i] == t[i + 1] && tail[j] == t[j + 1];
        }
      }
      InsertSorted(x, tail);
      var rest := Insert(x, tail);
      InsertPermutes(x, tail);
      forall k | 0 <= k < |rest| ensures rest[k].score <= t[0].score {
        assert rest[k] in multiset(rest);
        if rest[k] != x {
          assert rest[k] in multiset(tail);
          var m :| 0 <= m < |tail| && tail[m] == rest[k];
          assert tail[m] == t[m + 1];
        }
      }
      ConsSorted(t[0], rest);
    }
  }

  /** The sort returns the same rows, ordered by score, highest first. */
  lemma {:induction false} SortDescCorrect(s: seq<StyleResult>)
    ensures multiset(SortDesc(s)) == multiset(s)
    ensures SortedDesc(SortDesc(s))
    decreases |s|
  {
    if |s| > 0 {
      SortDescCorrect(s[1..]);
      InsertPermutes(s[0], SortDesc(s[1..]));
      InsertSorted(s[0], SortDesc(s[1..]));
      assert s == [s[0]] + s[1..];
    }
  }

  /** The rows with one given score, in order. */
  function WithScore(s: seq<StyleResult>, v: real): seq<StyleResult>
    decreases |s|
  {
    if |s| == 0 then [] else (if s[0].score == v then [s[0]] else []) + WithScore(s[1..], v)
  }

  lemma {:induction false} InsertWithScore(x: StyleResult, t: seq<StyleResult>, v: real)
    requires SortedDesc(t)
    ensures WithScore(Insert(x, t), v) == WithScore([x] + t, v)
    decreases |t|
  {
    if |t| == 0 || x.score >= t[0].score {
    } else {
      var tail := t[1..];
      assert SortedDesc(tail) by {
        forall i, j | 0 <= i < j < |tail| ensures tail[i].score >= tail[j].score {
          assert tail[i] == t[i + 1] && tail[j] == t[j + 1];
        }
      }
      InsertWithScore(x, tail, v);
      var rest := Insert(x, tail);
      assert ([t[0]] + rest)[1..] == rest;
      assert ([x] + t)[1..] == t;
      assert ([x] + tail)[1..] == tail;
      if x.score == v {
        assert t[0].score > v;
      }
    }
  }

  /** Stability: among rows of equal score the sorted order is the input order. */
  lemma {:induction false} SortStable(s: seq<StyleResult>, v: real)
    ensures WithScore(SortDesc(s), v) == WithScore(s, v)
    decreases |s|
  {
    if |s| > 0 {
      SortStable(s[1..], v);
      SortDescCorrect(s[1..]);
      InsertWithScore(s[0], SortDesc(s[1..]), v);
      assert ([s[0]] + SortDesc(s[1..]))[1..] == SortDesc(s[1..]);
    }
  }

  function TopThree(rs: seq<StyleResult>): (top: seq<StyleResult>)
    ensures |top| == if |rs| < 3 then |rs| else 3
  {
    SortDesc(rs)[..if |rs| < 3 then |rs| else 3]
  }

  /** The chosen rows are the best-scoring ones, highest first: every row
      left out scores no more than any chosen row. */
  lemma TopThreeBest(rs: seq<StyleResult>)
    ensures SortedDesc(TopThree(rs))
    ensures multiset(TopThree(rs)) <= multiset(rs)
    ensures forall x :: x in multiset(rs) - multiset(TopThree(rs)) ==>
              forall i :: 0 <= i < |TopThree(rs)| ==> x.score <= TopThree(rs)[i].score
  {
    var sorted := SortDesc(rs);
    SortDescCorrect(rs);
    var n := |TopThree(rs)|;
    var top := TopThree(rs);
    var rest := sorted[n..];
    assert sorted == top + rest;
    assert multiset(sorted) == multiset(top) + multiset(rest);
    assert SortedDesc(top) by {
      forall i, j | 0 <= i < j < |top| ensures top[i].score >= top[j].score {
        assert top[i] == sorted[i] && top[j] == sorted[j];
      }
    }
    forall x | x in multiset(rs) - multiset(top)
      ensures forall i :: 0 <= i < n ==> x.score <= top[i].score
    {
      assert x in multiset(rest);
      var j :| 0 <= j < |rest| && rest[j] == x;
      forall i | 0 <= i < n ensures x.score <= top[i].score {
        assert top[i] == sorted[i] && rest[j] == sorted[n + j];
      }
    }
  }

  // ---------------------------------------------------------------------
  // The loop as written agrees with the corrected one on all but images.
  // ---------------------------------------------------------------------

  /** A row without its image: the style id and the score. */
  function Keys(rs: seq<StyleResult>): (ks: seq<(string, real)>)
    ensures |ks| == |rs|
  {
    seq(|rs|, i requires 0 <= i < |rs| => (rs[i].styleId, rs[i].score))
  }

  /** Rows that agree on ids and scores, index by index. */
  predicate SameKeys(a: seq<StyleResult>, b: seq<StyleResult>) {
    |a| == |b| && forall i :: 0 <= i < |a| ==> a[i].styleId == b[i].styleId && a[i].score == b[i].score
  }

  lemma SameKeysAreKeys(a: seq<StyleResult>, b: seq<StyleResult>)
    ensures SameKeys(a, b) <==> Keys(a) == Keys(b)
  {
    if Keys(a) == Keys(b) {
      forall i | 0 <= i < |a| ensures a[i].styleId == b[i].styleId && a[i].score == b[i].score {
        assert Keys(a)[i] == Keys(b)[i];
      }
    }
  }

  /** As written, the loop keeps the same candidates, in the same order and
      with the same scores, as the corrected loop: only the images differ. */
  lemma {:induction false} ScanAgreesOnKeys(ds: seq<Candidate>, o: Oracles, textScore: real)
    ensures SameKeys(ScanAsWritten(ds, o, textScore).rows, Scan(ds, o, textScore))
    decreases |ds|
  {
    if |ds| > 0 {
      var front := ds[..|ds| - 1];
      ScanAgreesOnKeys(front, o, textScore);
    }
  }

  lemma {:induction false} InsertKeys(x: StyleResult, t: seq<StyleResult>, y: StyleResult, u: seq<StyleResult>)
    requires x.styleId == y.styleId && x.score == y.score && SameKeys(t, u)
    ensures SameKeys(Insert(x, t), Insert(y, u))
    decreases |t|
  {
    if |t| > 0 && x.score < t[0].score {
      assert SameKeys(t[1..], u[1..]) by {
        forall i | 0 <= i < |t| - 1 ensures t[1..][i] == t[i + 1] && u[1..][i] == u[i + 1] {}
      }
      InsertKeys(x, t[1..], y, u[1..]);
      var r1 := Insert(x, t[1..]);
      var r2 := Insert(y, u[1..]);
      forall i | 0 <= i < |r1| + 1
        ensures ([t[0]] + r1)[i].styleId == ([u[0]] + r2)[i].styleId && ([t[0]] + r1)[i].score == ([u[0]] + r2)[i].score
      {
        if i > 0 {
          assert ([t[0]] + r1)[i] == r1[i - 1] && ([u[0]] + r2)[i] == r2[i - 1];
        }
      }
    } else if |t| > 0 {
      forall i | 0 <= i < |t| + 1
        ensures ([x] + t)[i].styleId == ([y] + u)[i].styleId && ([x] + t)[i].score == ([y] + u)[i].score
      {
        if i > 0 {
          assert ([x] + t)[i] == t[i - 1] && ([y] + u)[i] == u[i - 1];
        }
      }
    }
  }

  /** The sort only looks at the scores. */
  lemma {:induction false} SortKeys(s1: seq<StyleResult>, s2: seq<StyleResult>)
    requires SameKeys(s1, s2)
    ensures SameKeys(SortDesc(s1), SortDesc(s2))
    decreases |s1|
  {
    if |s1| > 0 {
      assert SameKeys(s1[1..], s2[1..]) by {
        forall i | 0 <= i < |s1| - 1 ensures s1[1..][i] == s1[i + 1] && s2[1..][i] == s2[i + 1] {}
      }
      SortKeys(s1[1..], s2[1..]);
      InsertKeys(s1[0], SortDesc(s1[1..]), s2[0], SortDesc(s2[1..]));
    }
  }

  /** The three styles recommended as written are the corrected ones, in the
      same order and with the same scores. */
  lemma RankedKeysAgree(ds: seq<Candidate>, o: Oracles, textScore: real)
    ensures Keys(TopThree(ScanAsWritten(ds, o, textScore).rows)) == Keys(TopThree(Scan(ds, o, textScore)))
  {
    var a := ScanAsWritten(ds, o, textScore).rows;
    var b := Scan(ds, o, textScore);
    ScanAgreesOnKeys(ds, o, textScore);
    SortKeys(a, b);
    var n := if |a| < 3 then |a| else 3;
    assert SameKeys(SortDesc(a)[..n], SortDesc(b)[..n]);
    SameKeysAreKeys(TopThree(a), TopThree(b));
  }

  // ---------------------------------------------------------------------
  // The keywords only shift every score.
  // ---------------------------------------------------------------------

  function Bump(x: StyleResult, d: real): StyleResult {
    x.(score := x.score + d)
  }

  function Shift(rs: seq<StyleResult>, d: real): (r: seq<StyleResult>)
    ensures |r| == |rs|
    decreases |rs|
  {
    if |rs| == 0 then [] else [Bump(rs[0], d)] + Shift(rs[1..], d)
  }

  lemma {:induction false} ShiftAppend(a: seq<StyleResult>, b: seq<StyleResult>, d: real)
    ensures Shift(a + b, d) == Shift(a, d) + Shift(b, d)
    decreases |a|
  {
    if |a| > 0 {
      assert (a + b)[1..] == a[1..] + b;
      ShiftAppend(a[1..], b, d);
    } else {
      assert a + b == b;
    }
  }

  lemma {:induction false} ShiftPrefix(a: seq<StyleResult>, d: real, n: nat)
    requires n <= |a|
    ensures Shift(a, d)[..n] == Shift(a[..n], d)
  {
    assert a == a[..n] + a[n..];
    ShiftAppend(a[..n], a[n..], d);
  }

  lemma {:induction false} ShiftInsert(x: StyleResult, t: seq<StyleResult>, d: real)
    ensures Insert(Bump(x, d), Shift(t, d)) == Shift(Insert(x, t), d)
    decreases |t|
  {
    if |t| > 0 {
      var st := Shift(t, d);
      assert st[0] == Bump(t[0], d) && st[1..] == Shift(t[1..], d);
      if x.score < t[0].score {
        ShiftInsert(x, t[1..], d);
      }
    }
  }

  lemma {:induction false} ShiftSort(s: seq<StyleResult>, d: real)
    ensures SortDesc(Shift(s, d)) == Shift(SortDesc(s), d)
    decreases |s|
  {
    if |s| > 0 {
      var ss := Shift(s, d);
      assert ss[0] == Bump(s[0], d) && ss[1..] == Shift(s[1..], d);
      ShiftSort(s[1..], d);
      ShiftInsert(s[0], SortDesc(s[1..]), d);
    }
  }

  lemma {:induction false} ScanShift(ds: seq<Candidate>, o: Oracles, t1: real, t2: real)
    ensures Scan(ds, o, t2) == Shift(Scan(ds, o, t1), 0.15 * (t2 - t1))
    decreases |ds|
  {
    if |ds| > 0 {
      var front := ds[..|ds| - 1];
      ScanShift(front, o, t1, t2);
      var c := ds[|ds| - 1];
      ShiftAppend(Scan(front, o, t1), OptSeq(ResultOf(c, o, t1)), 0.15 * (t2 - t1));
      if ResultOf(c, o, t1).Some? {
        assert Combine(ImageScore(c, o).value, t2) == Combine(ImageScore(c, o).value, t1) + 0.15 * (t2 - t1);
      }
    }
  }

  /** The text score `text_emb · text_emb` is the same for every candidate,
      so the keywords move all scores by one amount: they change neither
      which styles are recommended nor their order. */
  lemma KeywordsDoNotReorder(ds: seq<Candidate>, o: Oracles, t1: real, t2: real)
    ensures TopThree(Scan(ds, o, t2)) == Shift(TopThree(Scan(ds, o, t1)), 0.15 * (t2 - t1))
  {
    var d := 0.15 * (t2 - t1);
    var s1 := Scan(ds, o, t1);
    ScanShift(ds, o, t1, t2);
    ShiftSort(s1, d);
    var n := |TopThree(s1)|;
    assert TopThree(Scan(ds, o, t2)) == SortDesc(Shift(s1, d))[..n];
    ShiftPrefix(SortDesc(s1), d, n);
  }

  // ---------------------------------------------------------------------
  // `run_inference`
  // ---------------------------------------------------------------------

  datatype KeywordsField = KeywordList(words: seq<string>) | NotAList

  datatype StyleRequest = StyleRequest(sourceImage: Option<string>, keywords: Option<KeywordsField>)

  datatype StyleResponse = StyleSuccess(results: seq<StyleResult>) | StyleFailed(message: string)

  const MissingImageMessage: string := "Missing key: source_image_base64"
  const BadKeywordsMessage: string := "Missing or invalid key: keywords"
  const NoCandidatesMessage: string :=
    "추천 가능한 스타일 후보가 없습니다. 데이터 경로 또는 이미지/임베딩을 확인하세요."

  function JoinComma(words: seq<string>): string
    decreases |words|
  {
    if |words| == 0 then "" else if |words| == 1 then words[0] else words[0] + ", " + JoinComma(words[1..])
  }

  /** The text hint CLIP embeds. */
  function KeywordCaption(words: seq<string>): string {
    "A style with " + JoinComma(words) + "."
  }

  /** The request checks, in order. */
  function Validate(req: StyleRequest): (r: Result<seq<string>>)
    ensures r.Ok? <==> req.sourceImage.Some? && req.keywords.Some? && req.keywords.value.KeywordList?
    ensures req.sourceImage.None? ==> r == Err(MissingImageMessage)
  {
    if req.sourceImage.None? then Err(MissingImageMessage)
    else if req.keywords.None? || req.keywords.value.NotAList? then Err(BadKeywordsMessage)
    else Ok(req.keywords.value.words)
  }

  /** The answer once the dataset is loaded: failed when no candidate is
      usable, else the three best rows. */
  function Rank(rows: seq<StyleResult>): (r: StyleResponse)
    ensures r.StyleFailed? <==> |rows| == 0
    ensures r.StyleFailed? ==> r.message == NoCandidatesMessage
    ensures r.StyleSuccess? ==> 1 <= |r.results| <= 3
  {
    if |rows| == 0 then StyleFailed(NoCandidatesMessage) else StyleSuccess(TopThree(rows))
  }

  /** `run_inference`. `decodeError` is the exception decoding the user's
      image raises, if any; `textScore` gives `text_emb · text_emb` for a
      caption. */
  function Respond(req: StyleRequest, decodeError: Option<string>, dataset: Result<seq<Candidate>>,
                   o: Oracles, textScore: string -> real): (r: StyleResponse)
    ensures Validate(req).Err? ==> r == StyleFailed(Validate(req).msg)
    ensures Validate(req).Ok? && decodeError.None? && dataset.Ok? ==>
              r == Rank(Scan(dataset.value, o, textScore(KeywordCaption(Validate(req).value))))
  {
    match Validate(req)
    case Err(m) => StyleFailed(m)
    case Ok(words) =>
      if decodeError.Some? then StyleFailed(decodeError.value)
      else
        match dataset
        case Err(m) => StyleFailed(m)
        case Ok(ds) => Rank(Scan(ds, o, textScore(KeywordCaption(words))))
  }

  method RunInference(req: StyleRequest, decodeError: Option<string>, dir: string,
                      read: string -> Option<seq<RawItem>>, o: Oracles, textScore: string -> real)
    returns (r: StyleResponse)
    ensures r == Respond(req, decodeError, LoadFiles(dir, StyleFiles, read, o.present), o, textScore)
  {
    var v := Validate(req);
    if v.Err? {
      return StyleFailed(v.msg);
    }
    if decodeError.Some? {
      return StyleFailed(decodeError.value);
    }
    var t := textScore(KeywordCaption(v.value));
    var dataset := LoadDataset(dir, read, o.present);
    if dataset.Err? {
      return StyleFailed(dataset.msg);
    }
    var rows := ScoreCandidates(dataset.value, o, t);
    if |rows| == 0 {
      return StyleFailed(NoCandidatesMessage);
    }
    r := StyleSuccess(TopThree(rows));
  }
}
