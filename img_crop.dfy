/** The dataset crop tool: for every annotation of one labelling
    sub-directory it crops the annotated face part out of the source image
    (the whole image for face part 0) and writes it, resized to 256 x 256,
    under a name derived from the image file name and the face part. Image
    reading is an oracle that gives the image's shape, or nothing when the
    file cannot be read. */
module ImgCrop {
  import opened Wrappers
  import opened PyStr
  import opened PyNum

  /** What the tool reads from one annotation file: `info.filename`,
      `images.bbox` (`None` for null) and `images.facepart`. */
  datatype Annotation = Annotation(filename: string, bbox: Option<seq<int>>, facepart: int)

  /** `img.shape[0]` and `img.shape[1]`. */
  datatype Shape = Shape(height: nat, width: nat)

  /** The crop bounds as computed, before slicing. */
  datatype Box = Box(y1: int, y2: int, x1: int, x2: int)

  /** The rows `top..bottom` and columns `left..right` a slice really takes. */
  datatype Region = Region(top: nat, bottom: nat, left: nat, right: nat)

  /** One `cv2.imwrite`: the path and the part of the source image it holds. */
  datatype Write = Write(path: string, region: Region)

  datatype Outcome = Skipped | Saved(write: Write)

  const ListIndexMessage: string := "list index out of range"
  /** `cv2.resize` refuses an empty image. */
  const EmptyResizeMessage: string := "(-215:Assertion failed) !ssize.empty() in function 'resize'"

  /** `int(a / 2)`: true division, then truncation toward zero. */
  function Half(a: int): (r: int)
    ensures a >= 0 ==> 0 <= r && 2 * r <= a <= 2 * r + 1
    ensures a < 0 ==> r <= 0 && 2 * r - 1 <= a <= 2 * r
  {
    Trunc(a as real / 2.0)
  }

  /** Truncation rounds a negative odd value up: `int(-3 / 2)` is -1. */
  lemma HalfTruncates()
    ensures Half(-3) == -1 && Half(3) == 1
  {
  }

  /** The per-axis integer midpoint of the corners `(bbox[0], bbox[1])` and
      `(bbox[2], bbox[3])`. */
  function Centre(bbox: seq<int>): (c: (int, int))
    requires |bbox| >= 4
  {
    (Half(bbox[0] + bbox[2]), Half(bbox[1] + bbox[3]))
  }

  /** The midpoint lies between the corners on each axis. */
  lemma CentreBetween(bbox: seq<int>)
    requires |bbox| >= 4 && bbox[0] <= bbox[2] && bbox[1] <= bbox[3]
    ensures bbox[0] - 1 <= Centre(bbox).0 <= bbox[2]
    ensures bbox[1] - 1 <= Centre(bbox).1 <= bbox[3]
    ensures bbox[0] >= 0 ==> bbox[0] <= Centre(bbox).0
    ensures bbox[1] >= 0 ==> bbox[1] <= Centre(bbox).1
  {
  }

  /** Half the larger extent of the box. */
  function CropLength(bbox: seq<int>): (l: int)
    requires |bbox| >= 4
    ensures bbox[0] <= bbox[2] || bbox[1] <= bbox[3] ==> l >= 0
    ensures 2 * l <= bbox[3] - bbox[1] + 1 || 2 * l <= bbox[2] - bbox[0] + 1
  {
    Half(MaxI(bbox[3] - bbox[1], bbox[2] - bbox[0]))
  }

  /** The square of half-side `CropLength` around the centre, with the
      lower bounds raised to 0 and the upper bounds lowered to the image. */
  function CropBox(bbox: seq<int>, shape: Shape): (b: Box)
    requires |bbox| >= 4
    ensures b.x1 >= 0 && b.y1 >= 0 && b.x2 <= shape.width && b.y2 <= shape.height
    ensures b.x1 >= Centre(bbox).0 - CropLength(bbox) && b.x2 <= Centre(bbox).0 + CropLength(bbox)
    ensures b.y1 >= Centre(bbox).1 - CropLength(bbox) && b.y2 <= Centre(bbox).1 + CropLength(bbox)
    ensures b.x1 == Centre(bbox).0 - CropLength(bbox) || b.x1 == 0
    ensures b.x2 == Centre(bbox).0 + CropLength(bbox) || b.x2 == shape.width
    ensures b.y1 == Centre(bbox).1 - CropLength(bbox) || b.y1 == 0
    ensures b.y2 == Centre(bbox).1 + CropLength(bbox) || b.y2 == shape.height
  {
    var c := Centre(bbox);
    var l := CropLength(bbox);
    Box(MaxI(c.1 - l, 0), MinI(c.1 + l, shape.height), MaxI(c.0 - l, 0), MinI(c.0 + l, shape.width))
  }

  /** A square that fits in the image is kept whole. */
  lemma SquareInsideKept(bbox: seq<int>, shape: Shape)
    requires |bbox| >= 4
    requires 0 <= Centre(bbox).0 - CropLength(bbox) && Centre(bbox).0 + CropLength(bbox) <= shape.width
    requires 0 <= Centre(bbox).1 - CropLength(bbox) && Centre(bbox).1 + CropLength(bbox) <= shape.height
    ensures CropBox(bbox, shape) ==
            Box(Centre(bbox).1 - CropLength(bbox), Centre(bbox).1 + CropLength(bbox),
                Centre(bbox).0 - CropLength(bbox), Centre(bbox).0 + CropLength(bbox))
  {
  }

  /** `start:stop` on an axis of length `n`, as Python and NumPy read it: a
      negative bound counts from the end, and both are clamped to the axis. */
  function SliceRange(start: int, stop: int, n: nat): (r: (nat, nat))
    ensures r.0 <= r.1 <= n
    ensures 0 <= start && 0 <= stop ==> r.0 == MinI(start, n) && r.1 == MaxI(MinI(stop, n), r.0)
    ensures stop < 0 && 0 <= stop + n ==> r.1 == MaxI(stop + n, r.0)
  {
    var lo := if start < 0 then MaxI(start + n, 0) else MinI(start, n);
    var hi := if stop < 0 then MaxI(stop + n, 0) else MinI(stop, n);
    (lo, MaxI(hi, lo))
  }

  /** `img[y1:y2, x1:x2]` */
  function Slice(b: Box, shape: Shape): (r: Region)
    ensures r.top <= r.bottom <= shape.height && r.left <= r.right <= shape.width
  {
    var rows := SliceRange(b.y1, b.y2, shape.height);
    var cols := SliceRange(b.x1, b.x2, shape.width);
    Region(rows.0, rows.1, cols.0, cols.1)
  }

  /** When the upper bounds are not negative the slice takes exactly the
      clamped box (empty when it is inverted). */
  lemma SliceOfClampedBox(bbox: seq<int>, shape: Shape)
    requires |bbox| >= 4
    requires CropBox(bbox, shape).x2 >= 0 && CropBox(bbox, shape).y2 >= 0
    ensures var b := CropBox(bbox, shape);
            var r := Slice(b, shape);
            r.top == MinI(b.y1, shape.height) && r.bottom == MaxI(b.y2, r.top) &&
            r.left == MinI(b.x1, shape.width) && r.right == MaxI(b.x2, r.left)
  {
  }

  /** A box lying wholly left of the image has a negative `x2`, which the
      slice counts from the right edge: the crop is not empty but a band at
      the left of the image. */
  lemma NegativeStopWraps()
    ensures CropBox([-60, 10, -40, 30], Shape(100, 100)) == Box(10, 30, 0, -40)
    ensures Slice(CropBox([-60, 10, -40, 30], Shape(100, 100)), Shape(100, 100)) == Region(10, 30, 0, 60)
  {
    var bbox := [-60, 10, -40, 30];
    assert Centre(bbox) == (-50, 20) by {
      assert Half(-100) == -50;
      assert Half(40) == 20;
    }
    assert CropLength(bbox) == 10 by {
      assert Half(20) == 10;
    }
  }

  predicate IsEmpty(r: Region) {
    r.top == r.bottom || r.left == r.right
  }

  /** The name of the crop: the file name without its last four characters,
      "_", the face part padded to two digits, and ".jpg". */
  function OutputName(filename: string, facepart: int): (name: string)
    ensures EndsWith(name, ".jpg")
    ensures StartsWith(name, DropLast(filename, 4) + "_")
  {
    var stem := DropLast(filename, 4);
    var part := ZFill(IntToString(facepart), 2);
    var name := stem + "_" + part + ".jpg";
    assert name[..|stem + "_"|] == stem + "_";
    assert name[|name| - 4..] == ".jpg";
    name
  }

  lemma NatToStringSmall(n: nat)
    requires n < 100
    ensures NatToString(n) == if n < 10 then [DigitChar(n)] else [DigitChar(n / 10), DigitChar(n % 10)]
  {
  }

  /** Face parts 0 to 99 are written as exactly two digits. */
  lemma TwoDigitPart(facepart: int)
    requires 0 <= facepart < 100
    ensures ZFill(IntToString(facepart), 2) == [DigitChar(facepart / 10), DigitChar(facepart % 10)]
  {
    NatToStringSmall(facepart);
    if facepart < 10 {
      assert seq(1, _ => '0') == ['0'];
    }
  }

  /** Different face parts (below 100) of one file get different names,
      so their crops do not overwrite each other. */
  lemma PartsGetOwnNames(filename: string, p: int, q: int)
    requires 0 <= p < 100 && 0 <= q < 100 && p != q
    ensures OutputName(filename, p) != OutputName(filename, q)
  {
    TwoDigitPart(p);
    TwoDigitPart(q);
    var stem := DropLast(filename, 4) + "_";
    var np := OutputName(filename, p);
    var nq := OutputName(filename, q);
    assert np[|stem|] == DigitChar(p / 10) && np[|stem| + 1] == DigitChar(p % 10);
    assert nq[|stem|] == DigitChar(q / 10) && nq[|stem| + 1] == DigitChar(q % 10);
    assert p == 10 * (p / 10) + p % 10 && q == 10 * (q / 10) + q % 10;
  }

  /** Only the length of the extension counts: two images that differ in
      it alone are written to the same name. */
  lemma ExtensionIgnored(stem: string, e1: string, e2: string, facepart: int)
    requires |e1| == 4 && |e2| == 4
    ensures OutputName(stem + e1, facepart) == OutputName(stem + e2, facepart)
  {
    assert DropLast(stem + e1, 4) == stem;
    assert DropLast(stem + e2, 4) == stem;
  }

  /** The part of the image that is resized and written: all of it for face
      part 0, else the slice of the crop box. */
  function Crop(facepart: int, bbox: seq<int>, shape: Shape): (r: Region)
    requires |bbox| >= 4
    ensures facepart == 0 ==> r == Region(0, shape.height, 0, shape.width)
    ensures r.top <= r.bottom <= shape.height && r.left <= r.right <= shape.width
  {
    if facepart == 0 then Region(0, shape.height, 0, shape.width)
    else Slice(CropBox(bbox, shape), shape)
  }

  /** One annotation: `imread` is `cv2.imread` of a path, giving the shape of
      the image or `None`; `imgDir` and `saveDir` are the source and crop
      directories of this sub-directory. */
  function Process(anno: Annotation, imgDir: string, saveDir: string, imread: string -> Option<Shape>): (r: Result<Outcome>)
    ensures r == Ok(Skipped) <==> imread(imgDir + "/" + anno.filename).None? || anno.bbox.None?
    ensures r.Err? <==>
              imread(imgDir + "/" + anno.filename).Some? && anno.bbox.Some? &&
              (|anno.bbox.value| < 4 ||
               IsEmpty(Crop(anno.facepart, anno.bbox.value, imread(imgDir + "/" + anno.filename).value)))
    ensures r.Ok? && r.value.Saved? ==>
              |anno.bbox.value| >= 4 &&
              r.value.write == Write(saveDir + "/" + OutputName(anno.filename, anno.facepart),
                                     Crop(anno.facepart, anno.bbox.value, imread(imgDir + "/" + anno.filename).value)) &&
              !IsEmpty(r.value.write.region)
  {
    match imread(imgDir + "/" + anno.filename)
    case None => Ok(Skipped)
    case Some(shape) =>
      match anno.bbox
      case None => Ok(Skipped)
      case Some(bbox) =>
        if |bbox| < 4 then Err(ListIndexMessage)
        else
          var region := Crop(anno.facepart, bbox, shape);
          if IsEmpty(region) then Err(EmptyResizeMessage)
          else Ok(Saved(Write(saveDir + "/" + OutputName(anno.filename, anno.facepart), region)))
  }

  /** The writes after the loop has seen `annos`, or the error that stopped it. */
  function Writes(annos: seq<Annotation>, imgDir: string, saveDir: string, imread: string -> Option<Shape>): Result<seq<Write>>
    decreases |annos|
  {
    if |annos| == 0 then Ok([])
    else
      match Writes(annos[..|annos| - 1], imgDir, saveDir, imread)
      case Err(e) => Err(e)
      case Ok(ws) =>
        match Process(annos[|annos| - 1], imgDir, saveDir, imread)
        case Err(e) => Err(e)
        case Ok(Skipped) => Ok(ws)
        case Ok(Saved(w)) => Ok(ws + [w])
  }

  lemma {:induction false} WritesErrStays(annos: seq<Annotation>, imgDir: string, saveDir: string,
                                          imread: string -> Option<Shape>, j: nat)
    requires j <= |annos| && Writes(annos[..j], imgDir, saveDir, imread).Err?
    ensures Writes(annos, imgDir, saveDir, imread) == Writes(annos[..j], imgDir, saveDir, imread)
    decreases |annos| - j
  {
    if j < |annos| {
      assert annos[..j + 1][..j] == annos[..j];
      WritesErrStays(annos, imgDir, saveDir, imread, j + 1);
    } else {
      assert annos[..j] == annos;
    }
  }

  /** Every crop goes to a ".jpg" file of the crop directory and holds a
      non-empty part of its image. */
  lemma {:induction false} WritesInSaveDir(annos: seq<Annotation>, imgDir: string, saveDir: string,
                                           imread: string -> Option<Shape>)
    requires Writes(annos, imgDir, saveDir, imread).Ok?
    ensures forall w :: w in Writes(annos, imgDir, saveDir, imread).value ==>
              StartsWith(w.path, saveDir + "/") && EndsWith(w.path, ".jpg") && !IsEmpty(w.region)
    decreases |annos|
  {
    if |annos| > 0 {
      WritesInSaveDir(annos[..|annos| - 1], imgDir, saveDir, imread);
      var last := annos[|annos| - 1];
      var o := Process(last, imgDir, saveDir, imread);
      if o.value.Saved? {
        var name := OutputName(last.filename, last.facepart);
        var path := saveDir + "/" + name;
        assert path[..|saveDir + "/"|] == saveDir + "/";
        assert path[|path| - 4..] == name[|name| - 4..];
      }
    }
  }

  /** Every annotation that is not skipped is written: as many crops as
      annotations with a readable image and a bounding box. */
  lemma {:induction false} WritesCount(annos: seq<Annotation>, imgDir: string, saveDir: string,
                                       imread: string -> Option<Shape>)
    requires Writes(annos, imgDir, saveDir, imread).Ok?
    ensures |Writes(annos, imgDir, saveDir, imread).value| == Kept(annos, imgDir, imread)
    decreases |annos|
  {
    if |annos| > 0 {
      WritesCount(annos[..|annos| - 1], imgDir, saveDir, imread);
    }
  }

  /** The number of annotations with a readable image and a bounding box. */
  function Kept(annos: seq<Annotation>, imgDir: string, imread: string -> Option<Shape>): nat
    decreases |annos|
  {
    if |annos| == 0 then 0
    else
      var a := annos[|annos| - 1];
      Kept(annos[..|annos| - 1], imgDir, imread) +
        (if imread(imgDir + "/" + a.filename).Some? && a.bbox.Some? then 1 else 0)
  }

  /** The loop over the annotation files of one sub-directory. */
  method CropSubdirectory(annos: seq<Annotation>, imgDir: string, saveDir: string, imread: string -> Option<Shape>)
    returns (r: Result<seq<Write>>)
    ensures r == Writes(annos, imgDir, saveDir, imread)
  {
    var written: seq<Write> := [];
    var k := 0;
    while k < |annos|
      invariant 0 <= k <= |annos|
      invariant Writes(annos[..k], imgDir, saveDir, imread) == Ok(written)
    {
      assert annos[..k + 1][..k] == annos[..k];
      var o := Process(annos[k], imgDir, saveDir, imread);
      if o.Err? {
        WritesErrStays(annos, imgDir, saveDir, imread, k + 1);
        return Err(o.msg);
      }
      if o.value.Saved? {
        written := written + [o.value.write];
      }
      k := k + 1;
    }
    assert annos[..k] == annos;
    r := Ok(written);
  }
}
