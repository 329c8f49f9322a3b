/** The image and landmark geometry around the SPIGA face-landmark model:
    square crops, aspect-preserving resizes, face boxes from landmarks,
    and the line patches that draw a 68-point face. The detector, SPIGA
    itself and the drawing library are oracles. */
module SpigaDraw {
  import opened Wrappers
  import PyNum

  // ---------------------------------------------------------------------
  // `center_crop` and `resize`
  // ---------------------------------------------------------------------

  /** A PIL crop box `(left, top, right, bottom)`. */
  datatype CropBox = CropBox(left: int, top: int, right: int, bottom: int)

  /** `center_crop(image, size)` for an image of `width` x `height`. Python's
      `//` floors, which for the divisor 2 is Dafny's `/`. */
  function CenterCrop(width: int, height: int, size: int): (b: CropBox)
    ensures b.right - b.left == size && b.bottom - b.top == size
    ensures b.left == (width - size) / 2 && b.top == (height - size) / 2
  {
    var left := (width - size) / 2;
    var top := (height - size) / 2;
    CropBox(left, top, left + size, top + size)
  }

  /** The crop is centred: the margin right of and below the box is the one
      left of and above it, or one pixel more. */
  lemma CenterCropCentred(width: int, height: int, size: int)
    ensures var b := CenterCrop(width, height, size);
            0 <= (width - b.right) - b.left <= 1 && 0 <= (height - b.bottom) - b.top <= 1
  {
  }

  /** A crop of a larger image stays inside it. */
  lemma CenterCropInside(width: int, height: int, size: int)
    requires 0 <= size <= width && size <= height
    ensures var b := CenterCrop(width, height, size);
            0 <= b.left && b.right <= width && 0 <= b.top && b.bottom <= height
  {
  }

  /** `int(other * (size / longer))` */
  function Scaled(other: int, size: int, longer: int): int
    requires longer != 0
  {
    PyNum.Trunc(other as real * (size as real / longer as real))
  }

  const ZeroDivisionMessage: string := "division by zero"

  /** `resize(image, size)`: the new `(width, height)`. Width sets the scale
      only when it is strictly larger; a zero-height image that is not
      wider raises `ZeroDivisionError`. */
  function Resize(width: nat, height: nat, size: nat): (r: Result<(int, int)>)
    ensures r.Err? <==> width <= height && height == 0
    ensures r.Ok? && width > height ==> r.value == (size, Scaled(height, size, width))
    ensures r.Ok? && width <= height ==> r.value == (Scaled(width, size, height), size)
  {
    if width > height then Ok((size, Scaled(height, size, width)))
    else if height == 0 then Err(ZeroDivisionMessage)
    else Ok((Scaled(width, size, height), size))
  }

  lemma ScaledFraction(other: real, size: real, longer: real)
    requires 0.0 <= other <= longer && longer > 0.0 && size >= 0.0
    ensures 0.0 <= other * (size / longer) <= size
  {
    assert other * (size / longer) == size * (other / longer);
    assert other / longer <= 1.0;
    assert size * (other / longer) <= size * 1.0;
  }

  lemma ScaledBounds(other: int, size: nat, longer: int)
    requires 0 <= other <= longer && longer > 0
    ensures 0 <= Scaled(other, size, longer) <= size
  {
    var v := other as real * (size as real / longer as real);
    ScaledFraction(other as real, size as real, longer as real);
    PyNum.TruncMonotone(0.0, v);
    PyNum.TruncMonotone(v, size as real);
    PyNum.TruncOfInt(0);
    PyNum.TruncOfInt(size);
  }

  /** The longer side becomes `size` and the other side is scaled down to at
      most `size`; a square image becomes `size` x `size`. */
  lemma ResizeFits(width: nat, height: nat, size: nat)
    requires width > 0 || height > 0
    ensures Resize(width, height, size).Ok?
    ensures var (w, h) := Resize(width, height, size).value;
            0 <= w <= size && 0 <= h <= size && (w == size || h == size)
    ensures width == height ==> Resize(width, height, size).value == (size, size)
  {
    if width > height {
      ScaledBounds(height, size, width);
    } else {
      ScaledBounds(width, size, height);
      if width == height {
        assert width as real * (size as real / height as real) == size as real;
        PyNum.TruncOfInt(size);
      }
    }
  }

  // ---------------------------------------------------------------------
  // `get_landmarks`: corner boxes to size boxes.
  // ---------------------------------------------------------------------

  /** A detector box `(x, y, x1, y1)`. */
  datatype Corners = Corners(x: real, y: real, x1: real, y1: real)

  /** A SPIGA box `(x, y, width, height)`. */
  datatype Box = Box(x: real, y: real, w: real, h: real)

  function CornersToBox(c: Corners): Box {
    Box(c.x, c.y, c.x1 - c.x, c.y1 - c.y)
  }

  function BoxToCorners(b: Box): Corners {
    Corners(b.x, b.y, b.x + b.w, b.y + b.h)
  }

  /** The conversion loses nothing: the corners come back from the box. */
  lemma CornersRoundTrip(c: Corners)
    ensures BoxToCorners(CornersToBox(c)) == c
    ensures CornersToBox(BoxToCorners(CornersToBox(c))) == CornersToBox(c)
  {
  }

  /** The size boxes of the detector's corner boxes, in order. */
  function BoxesOf(boxes: seq<Corners>): (bs: seq<Box>)
    ensures |bs| == |boxes|
    ensures forall i :: 0 <= i < |boxes| ==> BoxToCorners(bs[i]) == boxes[i]
  {
    seq(|boxes|, i requires 0 <= i < |boxes| => CornersToBox(boxes[i]))
  }

  /** The loop over `boxes` in `get_landmarks`. */
  method ConvertBoxes(boxes: seq<Corners>) returns (boxLs: seq<Box>)
    ensures boxLs == BoxesOf(boxes)
  {
    boxLs := [];
    var k := 0;
    while k < |boxes|
      invariant 0 <= k <= |boxes|
      invariant |boxLs| == k
      invariant forall i :: 0 <= i < k ==> boxLs[i] == CornersToBox(boxes[i])
    {
      boxLs := boxLs + [CornersToBox(boxes[k])];
      k := k + 1;
    }
  }

  datatype Point = Point(x: real, y: real)

  /** What `get_landmarks(image, detector)` returns: `[]` without a face,
      else SPIGA's landmarks (`infer`) for the converted boxes. */
  function LandmarksOf(boxes: seq<Corners>, infer: seq<Box> -> seq<seq<Point>>): (ldms: seq<seq<Point>>)
    ensures |boxes| == 0 ==> ldms == []
    ensures |boxes| > 0 ==>
              exists bs :: |bs| == |boxes| && ldms == infer(bs) &&
                           forall i :: 0 <= i < |bs| ==> BoxToCorners(bs[i]) == boxes[i]
  {
    if |boxes| == 0 then [] else infer(BoxesOf(boxes))
  }

  method GetLandmarks(boxes: seq<Corners>, infer: seq<Box> -> seq<seq<Point>>) returns (ldms: seq<seq<Point>>)
    ensures ldms == LandmarksOf(boxes, infer)
  {
    var boxLs := ConvertBoxes(boxes);
    if |boxLs| == 0 {
      return [];
    }
    ldms := infer(boxLs);
  }

  // ---------------------------------------------------------------------
  // `bbox_from_landmarks`
  // ---------------------------------------------------------------------

  function MinOf(s: seq<real>): (m: real)
    requires |s| > 0
    ensures forall i :: 0 <= i < |s| ==> m <= s[i]
    ensures exists i :: 0 <= i < |s| && m == s[i]
    decreases |s|
  {
    if |s| == 1 then s[0]
    else
      var rest := MinOf(s[1..]);
      assert forall i :: 1 <= i < |s| ==> s[i] == s[1..][i - 1];
      if s[0] <= rest then s[0] else rest
  }

  function MaxOf(s: seq<real>): (m: real)
    requires |s| > 0
    ensures forall i :: 0 <= i < |s| ==> s[i] <= m
    ensures exists i :: 0 <= i < |s| && m == s[i]
    decreases |s|
  {
    if |s| == 1 then s[0]
    else
      var rest := MaxOf(s[1..]);
      assert forall i :: 1 <= i < |s| ==> s[i] == s[1..][i - 1];
      if s[0] >= rest then s[0] else rest
  }

  function Xs(ldm: seq<Point>): (r: seq<real>)
    ensures |r| == |ldm| && forall i :: 0 <= i < |ldm| ==> r[i] == ldm[i].x
  {
    seq(|ldm|, i requires 0 <= i < |ldm| => ldm[i].x)
  }

  function Ys(ldm: seq<Point>): (r: seq<real>)
    ensures |r| == |ldm| && forall i :: 0 <= i < |ldm| ==> r[i] == ldm[i].y
  {
    seq(|ldm|, i requires 0 <= i < |ldm| => ldm[i].y)
  }

  /** The box of one face: its landmarks' extent, 5 wider on every side. */
  function FaceBox(ldm: seq<Point>): Box
    requires |ldm| > 0
  {
    var xMin, xMax := MinOf(Xs(ldm)), MaxOf(Xs(ldm));
    var yMin, yMax := MinOf(Ys(ldm)), MaxOf(Ys(ldm));
    Box(xMin - 5.0, yMin - 5.0, (xMax - xMin) + 10.0, (yMax - yMin) + 10.0)
  }

  /** Every landmark lies strictly inside its face box, 5 or more from each edge. */
  lemma LandmarksInsideBox(ldm: seq<Point>)
    requires |ldm| > 0
    ensures var b := FaceBox(ldm);
            forall i :: 0 <= i < |ldm| ==>
              b.x + 5.0 <= ldm[i].x <= b.x + b.w - 5.0 && b.y + 5.0 <= ldm[i].y <= b.y + b.h - 5.0
  {
  }

  /** The box is tight: some landmark is exactly 5 from its left edge and
      some exactly 5 from its right edge. */
  lemma FaceBoxTight(ldm: seq<Point>)
    requires |ldm| > 0
    ensures var b := FaceBox(ldm);
            (exists i :: 0 <= i < |ldm| && ldm[i].x == b.x + 5.0) &&
            (exists i :: 0 <= i < |ldm| && ldm[i].x == b.x + b.w - 5.0)
  {
    var xs := Xs(ldm);
    var i :| 0 <= i < |xs| && MinOf(xs) == xs[i];
    var j :| 0 <= j < |xs| && MaxOf(xs) == xs[j];
    assert ldm[i].x == FaceBox(ldm).x + 5.0;
    assert ldm[j].x == FaceBox(ldm).x + FaceBox(ldm).w - 5.0;
  }

  /** The `ValueError` of unpacking `zip(*ldm)` for a face without landmarks. */
  const EmptyFaceMessage: string := "not enough values to unpack (expected 2, got 0)"

  predicate NoEmptyFace(faces: seq<seq<Point>>) {
    forall i :: 0 <= i < |faces| ==> |faces[i]| > 0
  }

  /** The boxes of all faces, in order. */
  function FaceBoxes(faces: seq<seq<Point>>): (bs: seq<Box>)
    requires NoEmptyFace(faces)
    ensures |bs| == |faces| && forall i :: 0 <= i < |faces| ==> bs[i] == FaceBox(faces[i])
  {
    seq(|faces|, i requires 0 <= i < |faces| => FaceBox(faces[i]))
  }

  /** `bbox_from_landmarks(landmarks)`: one box per face, in order. */
  method BboxFromLandmarks(faces: seq<seq<Point>>) returns (r: Result<seq<Box>>)
    ensures r.Err? <==> !NoEmptyFace(faces)
    ensures r.Err? ==> r.msg == EmptyFaceMessage
    ensures r.Ok? ==> r.value == FaceBoxes(faces)
  {
    var bbox: seq<Box> := [];
    var k := 0;
    while k < |faces|
      invariant 0 <= k <= |faces|
      invariant |bbox| == k
      invariant forall i :: 0 <= i < k ==> |faces[i]| > 0 && bbox[i] == FaceBox(faces[i])
    {
      if |faces[k]| == 0 {
        return Err(EmptyFaceMessage);
      }
      bbox := bbox + [FaceBox(faces[k])];
      k := k + 1;
    }
    r := Ok(bbox);
  }

  // ---------------------------------------------------------------------
  // `get_patch` and the 68-point layout.
  // ---------------------------------------------------------------------

  datatype PathOp = MoveTo | LineTo | ClosePoly

  datatype Patch = Patch(contour: seq<Point>, ops: seq<PathOp>, closed: bool)

  const IndexErrorMessage: string := "list index out of range"

  /** `[Path.MOVETO] + [Path.LINETO] * (n - 1)`; a negative repeat is empty. */
  function OpenOps(n: nat): (ops: seq<PathOp>)
    ensures |ops| == if n == 0 then 1 else n
    ensures ops[0] == MoveTo && forall i :: 1 <= i < |ops| ==> ops[i] == LineTo
  {
    [MoveTo] + seq(if n == 0 then 0 else n - 1, i => LineTo)
  }

  /** The path `get_patch(landmarks, closed)` draws: its points and codes.
      Closing repeats the first point and ends with CLOSEPOLY; closing an
      empty contour raises `IndexError`. */
  function PatchOf(landmarks: seq<Point>, closed: bool): (r: Result<Patch>)
    ensures r.Err? <==> closed && |landmarks| == 0
    ensures r.Err? ==> r.msg == IndexErrorMessage
    ensures r.Ok? && |landmarks| > 0 ==> |r.value.ops| == |r.value.contour|
    ensures r.Ok? ==> |r.value.ops| > 0 && r.value.ops[0] == MoveTo && r.value.closed == closed
    ensures r.Ok? && !closed ==> r.value.contour == landmarks && r.value.ops == OpenOps(|landmarks|)
    ensures r.Ok? && closed ==>
              r.value.contour == landmarks + [landmarks[0]] &&
              r.value.ops == OpenOps(|landmarks|) + [ClosePoly]
  {
    if !closed then Ok(Patch(landmarks, OpenOps(|landmarks|), false))
    else if |landmarks| == 0 then Err(IndexErrorMessage)
    else Ok(Patch(landmarks + [landmarks[0]], OpenOps(|landmarks|) + [ClosePoly], true))
  }

  /** `get_patch`, which appends to the contour in place. */
  method GetPatch(landmarks: seq<Point>, closed: bool) returns (r: Result<Patch>)
    ensures r == PatchOf(landmarks, closed)
  {
    var contour := landmarks;
    var ops := OpenOps(|contour|);
    if closed {
      if |contour| == 0 {
        return Err(IndexErrorMessage);
      }
      contour := contour + [contour[0]];
      ops := ops + [ClosePoly];
    }
    r := Ok(Patch(contour, ops, closed));
  }

  /** One drawn feature: a landmark slice `[lo:hi]` and whether it is closed. */
  datatype Part = Part(lo: nat, hi: nat, closed: bool)

  /** Face outline, two eyebrows, nose bridge and base, two eyes, outer and inner lips. */
  const FaceParts: seq<Part> := [
    Part(0, 17, false), Part(17, 22, false), Part(22, 27, false), Part(27, 31, false),
    Part(31, 36, false), Part(36, 42, true), Part(42, 48, true), Part(48, 60, true), Part(60, 68, true)]

  /** The nine slices are non-empty and run back to back from 0 to 68. */
  lemma FacePartsContiguous()
    ensures |FaceParts| == 9 && FaceParts[0].lo == 0 && FaceParts[8].hi == 68
    ensures forall k :: 0 <= k < 9 ==> FaceParts[k].lo < FaceParts[k].hi
    ensures forall k :: 0 <= k < 8 ==> FaceParts[k].hi == FaceParts[k + 1].lo
  {
  }

  /** Hence every landmark index 0..67 is in exactly one slice. */
  lemma FacePartsPartition(n: nat)
    requires n < 68
    ensures exists k :: 0 <= k < 9 && FaceParts[k].lo <= n < FaceParts[k].hi
    ensures forall k, m :: (0 <= k < 9 && 0 <= m < 9 && FaceParts[k].lo <= n < FaceParts[k].hi &&
                            FaceParts[m].lo <= n < FaceParts[m].hi) ==> k == m
  {
    FacePartsContiguous();
    if n < 17 { assert FaceParts[0].lo <= n < FaceParts[0].hi; }
    else if n < 22 { assert FaceParts[1].lo <= n < FaceParts[1].hi; }
    else if n < 27 { assert FaceParts[2].lo <= n < FaceParts[2].hi; }
    else if n < 31 { assert FaceParts[3].lo <= n < FaceParts[3].hi; }
    else if n < 36 { assert FaceParts[4].lo <= n < FaceParts[4].hi; }
    else if n < 42 { assert FaceParts[5].lo <= n < FaceParts[5].hi; }
    else if n < 48 { assert FaceParts[6].lo <= n < FaceParts[6].hi; }
    else if n < 60 { assert FaceParts[7].lo <= n < FaceParts[7].hi; }
    else { assert FaceParts[8].lo <= n < FaceParts[8].hi; }
    forall k, m | 0 <= k < 9 && 0 <= m < 9 && FaceParts[k].lo <= n < FaceParts[k].hi &&
                  FaceParts[m].lo <= n < FaceParts[m].hi
      ensures k == m
    {
      if k < m {
        PartsOrdered(k, m);
      } else if m < k {
        PartsOrdered(m, k);
      }
    }
  }

  /** A later slice starts no earlier than an earlier one ends. */
  lemma PartsOrdered(k: nat, m: nat)
    requires k < m < 9
    ensures FaceParts[k].hi <= FaceParts[m].lo
    decreases m - k
  {
    FacePartsContiguous();
    if k + 1 < m {
      PartsOrdered(k + 1, m);
    }
  }

  /** Python's clamped slice `s[lo:hi]`. */
  function Slice(s: seq<Point>, lo: nat, hi: nat): (r: seq<Point>)
    ensures hi <= |s| && lo <= hi ==> r == s[lo..hi]
    ensures lo <= hi ==> (|r| == 0 <==> |s| <= lo || hi == lo)
  {
    var h := if hi <= |s| then hi else |s|;
    var l := if lo <= h then lo else h;
    s[l..h]
  }

  /** The patch of feature `j` of a face: `get_patch` of its slice. */
  function PartPatch(face: seq<Point>, j: nat): (r: Result<Patch>)
    requires j < |FaceParts|
    ensures r.Err? <==> FaceParts[j].closed && |face| <= FaceParts[j].lo
  {
    PatchOf(Slice(face, FaceParts[j].lo, FaceParts[j].hi), FaceParts[j].closed)
  }

  /** Only a face of at most 60 landmarks makes a feature fail. */
  lemma PartFailsOnShortFace(face: seq<Point>, k: nat)
    requires k < |FaceParts| && PartPatch(face, k).Err?
    ensures |face| <= 60
  {
  }

  /** The patches drawn for one face, feature by feature. */
  predicate PatchesOfFace(patches: seq<Patch>, face: seq<Point>) {
    |patches| == |FaceParts| && forall j :: 0 <= j < |FaceParts| ==> PartPatch(face, j) == Ok(patches[j])
  }

  /** The nine patches of one face in `conditioning_from_landmarks`. A face
      with 60 landmarks or fewer leaves a closed slice empty, which raises. */
  method FacePatches(face: seq<Point>) returns (r: Result<seq<Patch>>)
    ensures r.Err? <==> |face| <= 60
    ensures r.Err? ==> r.msg == IndexErrorMessage
    ensures r.Ok? ==> PatchesOfFace(r.value, face)
    ensures r.Ok? ==> forall j :: 0 <= j < |FaceParts| ==> r.value[j].closed == FaceParts[j].closed
  {
    var patches: seq<Patch> := [];
    var k := 0;
    while k < |FaceParts|
      invariant 0 <= k <= |FaceParts|
      invariant |patches| == k
      invariant forall j :: 0 <= j < k ==> PartPatch(face, j) == Ok(patches[j])
    {
      var part := FaceParts[k];
      var p := GetPatch(Slice(face, part.lo, part.hi), part.closed);
      if p.Err? {
        PartFailsOnShortFace(face, k);
        return Err(p.msg);
      }
      patches := patches + [p.value];
      k := k + 1;
    }
    assert PartPatch(face, 8).Ok?;
    r := Ok(patches);
  }

  // ---------------------------------------------------------------------
  // `get_draw`
  // ---------------------------------------------------------------------

  /** The pose image: all black at the input size, or the drawing of the
      faces' patches on a `size` x `size` canvas. */
  datatype PoseImage = BlackImage(width: int, height: int) | Drawing(size: int, faces: seq<seq<Patch>>)

  /** The faces of a drawing, each the patches of its refined landmarks. */
  predicate DrawnFaces(faces: seq<seq<Patch>>, spigas: seq<seq<Point>>) {
    |faces| == |spigas| && forall f :: 0 <= f < |faces| ==> PatchesOfFace(faces[f], spigas[f])
  }

  /** Every refined face has the 61 or more landmarks the closed features need. */
  predicate AllDrawable(spigas: seq<seq<Point>>) {
    forall f :: 0 <= f < |spigas| ==> |spigas[f]| > 60
  }

  /** `get_draw(pil_img, size)` after detection: `boxes` are the detector's
      boxes, `infer` is SPIGA on the detector's boxes and `refine` SPIGA
      again on the landmark boxes. */
  method GetDraw(width: int, height: int, size: int, boxes: seq<Corners>,
                 infer: seq<Box> -> seq<seq<Point>>, refine: seq<Box> -> seq<seq<Point>>)
    returns (r: Result<PoseImage>)
    ensures var ldms := LandmarksOf(boxes, infer);
            |ldms| == 0 ==> r == Ok(BlackImage(width, height))
    ensures var ldms := LandmarksOf(boxes, infer);
            |ldms| > 0 ==>
              (r.Ok? <==> NoEmptyFace(ldms) && AllDrawable(refine(FaceBoxes(ldms))))
    ensures r.Err? ==> r.msg == EmptyFaceMessage || r.msg == IndexErrorMessage
    ensures r.Ok? && r.value.Drawing? ==>
              var ldms := LandmarksOf(boxes, infer);
              r.value.size == size && |ldms| > 0 && NoEmptyFace(ldms) &&
              DrawnFaces(r.value.faces, refine(FaceBoxes(ldms)))
  {
    var ldms := GetLandmarks(boxes, infer);
    if |ldms| == 0 {
      return Ok(BlackImage(width, height));
    }
    var bbox := BboxFromLandmarks(ldms);
    if bbox.Err? {
      return Err(bbox.msg);
    }
    var spigas := refine(bbox.value);
    var drawn: seq<seq<Patch>> := [];
    var f := 0;
    while f < |spigas|
      invariant 0 <= f <= |spigas|
      invariant |drawn| == f
      invariant forall g :: 0 <= g < f ==> |spigas[g]| > 60 && PatchesOfFace(drawn[g], spigas[g])
    {
      var patches := FacePatches(spigas[f]);
      if patches.Err? {
        return Err(patches.msg);
      }
      drawn := drawn + [patches.value];
      f := f + 1;
    }
    r := Ok(Drawing(size, drawn));
  }
}
