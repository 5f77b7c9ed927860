/**
 * The YOLO exporter: the manifest, the file names, the normalised
 * coordinates and the label lines, and the loops that walk the three
 * splits, their images and each image's annotations.
 *
 * Nothing is written: a run is described by the label files it would
 * produce (their paths and lines) and by the exception that stopped it.
 * The shuffled train/val/test lists are inputs, as are the image sizes and
 * the six-decimal float formatting.
 */
module DatasetExport {
  import opened Wrappers
  import opened Text
  import opened AnnotationProcessing

  /**
   * One stored annotation, a dictionary: it always has a polygon, and may
   * have a bounding box and a class id.
   */
  datatype AnnotationRecord = AnnotationRecord(polygon: seq<Point>, bbox: Option<BBox>, classId: Option<int>)

  /** The exception that stops an export: a dictionary lookup of a missing key. */
  datatype ExportError = KeyError(key: string)

  type Dim = n: int | n > 0 witness 1

  /** An image's pixel size. */
  datatype ImageSize = ImageSize(width: Dim, height: Dim)

  // ---------------------------------------------------------------------
  // The manifest (data.yaml)
  // ---------------------------------------------------------------------

  datatype DataYaml = DataYaml(names: seq<string>, nc: int, test: string, train: string, val: string)

  lemma PickId(ids: set<int>) returns (x: int)
    requires ids != {}
    ensures x in ids
  {
    assert exists y :: y in ids by {
      if forall y :: y !in ids {
        assert false;
      }
    }
    x :| x in ids;
  }

  lemma {:induction false} SetHasMin(ids: set<int>)
    requires ids != {}
    ensures exists m :: m in ids && forall k :: k in ids ==> m <= k
    decreases ids
  {
    var x := PickId(ids);
    if ids == {x} {
      assert forall k :: k in ids ==> x <= k;
    } else {
      var rest := ids - {x};
      SetHasMin(rest);
      var m :| m in rest && forall k :: k in rest ==> m <= k;
      var least := if x < m then x else m;
      forall k | k in ids
        ensures least <= k
      {
        if k != x {
          assert k in rest;
        }
      }
      assert least in ids;
    }
  }

  /** `r` lists every id of `ids` once, in ascending order. */
  predicate AscendingListing(r: seq<int>, ids: set<int>)
  {
    && |r| == |ids|
    && (forall k :: 0 <= k < |r| ==> r[k] in ids)
    && (forall id :: id in ids ==> id in r)
    && (forall i, j :: 0 <= i < j < |r| ==> r[i] < r[j])
  }

  lemma AscendingCons(ids: set<int>, m: int, rest: seq<int>)
    requires m in ids && forall k :: k in ids ==> m <= k
    requires AscendingListing(rest, ids - {m})
    ensures AscendingListing([m] + rest, ids)
  {
    ConsListsAll(ids, m, rest);
    ConsAscends(ids, m, rest);
  }

  lemma ConsListsAll(ids: set<int>, m: int, rest: seq<int>)
    requires m in ids
    requires |rest| == |ids - {m}|
    requires forall k :: 0 <= k < |rest| ==> rest[k] in ids - {m}
    requires forall id :: id in ids - {m} ==> id in rest
    ensures |[m] + rest| == |ids|
    ensures forall k :: 0 <= k < |[m] + rest| ==> ([m] + rest)[k] in ids
    ensures forall id :: id in ids ==> id in [m] + rest
  {
    var r := [m] + rest;
    assert |ids - {m}| == |ids| - 1;
    forall id | id in ids
      ensures id in r
    {
      if id != m {
        assert id in ids - {m};
      }
    }
  }

  lemma ConsAscends(ids: set<int>, m: int, rest: seq<int>)
    requires forall k :: k in ids ==> m <= k
    requires forall k :: 0 <= k < |rest| ==> rest[k] in ids - {m}
    requires forall i, j :: 0 <= i < j < |rest| ==> rest[i] < rest[j]
    ensures forall i, j :: 0 <= i < j < |[m] + rest| ==> ([m] + rest)[i] < ([m] + rest)[j]
  {
    var r := [m] + rest;
    forall i, j | 0 <= i < j < |r|
      ensures r[i] < r[j]
    {
      if i == 0 {
        assert r[j] == rest[j - 1] && r[j] in ids - {m};
      } else {
        assert r[i] == rest[i - 1] && r[j] == rest[j - 1];
      }
    }
  }

  /** The class ids in ascending order, as sorting the dictionary's keys gives them. */
  function SortedIds(ids: set<int>): (r: seq<int>)
    ensures AscendingListing(r, ids)
    decreases ids
  {
    if ids == {} then []
    else
      SetHasMin(ids);
      var m :| m in ids && forall k :: k in ids ==> m <= k;
      var rest := SortedIds(ids - {m});
      AscendingCons(ids, m, rest);
      [m] + rest
  }

  /**
   * The class names of the manifest: with a non-empty id-to-name map, the
   * names in ascending id order; otherwise the single class "object".
   */
  function ClassNameList(classNames: Option<map<int, string>>): (names: seq<string>)
    ensures classNames.None? || classNames.value == map[] ==> names == ["object"]
    ensures classNames.Some? && classNames.value != map[] ==>
      var ids := SortedIds(classNames.value.Keys);
      |names| == |classNames.value| && forall k :: 0 <= k < |names| ==> names[k] == classNames.value[ids[k]]
  {
    if classNames.Some? && classNames.value != map[] then
      var m := classNames.value;
      var ids := SortedIds(m.Keys);
      seq(|ids|, k requires 0 <= k < |ids| => m[ids[k]])
    else
      ["object"]
  }

  /** The manifest: the class names, their count, and each split's image directory. */
  function DataYamlFor(classNames: Option<map<int, string>>): (y: DataYaml)
    ensures y.names == ClassNameList(classNames) && y.nc == |y.names|
    ensures y.train == "train/images" && y.val == "val/images" && y.test == "test/images"
  {
    var names := ClassNameList(classNames);
    DataYaml(names, |names|, "test/images", "train/images", "val/images")
  }

  /** The image directory the manifest gives for a split. */
  function ManifestDir(y: DataYaml, split: string): string
  {
    if split == "train" then y.train else if split == "val" then y.val else y.test
  }

  // ---------------------------------------------------------------------
  // File names inside the export directory
  // ---------------------------------------------------------------------

  const Splits: seq<string> := ["train", "val", "test"]

  /** Where an image is copied: `<split>/images/<basename>`. */
  function ImageDest(split: string, imagePath: string): (dest: string)
    ensures split + "/images/" <= dest
    ensures Basename(dest) == Basename(imagePath)
  {
    AppendSlash(split, Basename(imagePath));
    BasenameOfJoin(split + "/images", Basename(imagePath));
    split + "/images/" + Basename(imagePath)
  }

  /** The label file: `<split>/labels/<basename without its last extension>.txt`. */
  function LabelPath(split: string, imagePath: string): (path: string)
    ensures split + "/labels/" <= path
    ensures Basename(path) == SplitExt(Basename(imagePath)).0 + ".txt"
  {
    var stem := SplitExt(Basename(imagePath)).0;
    StemHasNoSlash(Basename(imagePath));
    LabelFileName(split, stem);
    split + "/labels/" + stem + ".txt"
  }

  lemma LabelFileName(split: string, stem: string)
    requires '/' !in stem
    ensures Basename(split + "/labels/" + stem + ".txt") == stem + ".txt"
  {
    var name := stem + ".txt";
    assert '/' !in name;
    assert split + "/labels/" + stem + ".txt" == split + "/labels/" + name;
    LabelsSlash(split, name);
    BasenameOfJoin(split + "/labels", name);
  }

  lemma StemHasNoSlash(name: string)
    requires '/' !in name
    ensures '/' !in SplitExt(name).0
  {
    SplitExtJoin(name);
    assert forall k :: 0 <= k < |SplitExt(name).0| ==> SplitExt(name).0[k] == name[k];
  }

  lemma LabelsSlash(split: string, b: string)
    ensures split + "/labels/" + b == split + "/labels" + "/" + b
  {
  }

  lemma AppendSlash(split: string, b: string)
    ensures split + "/images/" + b == split + "/images" + "/" + b
  {
  }

  /** The manifest names the very directories the images are copied into. */
  lemma ManifestPointsAtImageDirs(classNames: Option<map<int, string>>, k: nat, imagePath: string)
    requires k < |Splits|
    ensures ImageDest(Splits[k], imagePath) == ManifestDir(DataYamlFor(classNames), Splits[k]) + "/" + Basename(imagePath)
  {
    var y := DataYamlFor(classNames);
    ImageDirsOfManifest(y, k, Basename(imagePath));
  }

  lemma ImageDirsOfManifest(y: DataYaml, k: nat, b: string)
    requires k < |Splits|
    requires y.train == "train/images" && y.val == "val/images" && y.test == "test/images"
    ensures Splits[k] + "/images/" + b == ManifestDir(y, Splits[k]) + "/" + b
  {
    var split := Splits[k];
    assert ManifestDir(y, split) == split + "/images" by {
      if k == 0 {
        assert split == "train";
      } else if k == 1 {
        assert split == "val";
      } else {
        assert split == "test";
      }
    }
    AppendSlash(split, b);
  }

  /** The label file of `<dir>/<stem>.<ext>` is `<split>/labels/<stem>.txt`, whatever the directory. */
  lemma LabelPathOfFile(split: string, dir: string, stem: string, ext: string)
    requires '/' !in stem && '/' !in ext && '.' !in ext
    requires exists k :: 0 <= k < |stem| && stem[k] != '.'
    ensures LabelPath(split, dir + "/" + stem + "." + ext) == split + "/labels/" + stem + ".txt"
  {
    assert dir + "/" + stem + "." + ext == dir + "/" + (stem + "." + ext);
    BasenameOfJoin(dir, stem + "." + ext);
    SplitExtOfName(stem, ext);
  }

  /**
   * Two images of one split share a label file exactly when their basenames
   * have the same stem (so `a.jpg` and `a.png` write the same file).
   */
  lemma LabelPathCollision(split: string, p: string, q: string)
    ensures LabelPath(split, p) == LabelPath(split, q) <==> SplitExt(Basename(p)).0 == SplitExt(Basename(q)).0
  {
    ConcatCancel(split + "/labels/", SplitExt(Basename(p)).0, SplitExt(Basename(q)).0, ".txt");
  }

  // ---------------------------------------------------------------------
  // Normalised coordinates and label lines
  // ---------------------------------------------------------------------

  /**
   * The normalised coordinates as the exporter computes them: it enumerates
   * the vertices, and vertex i contributes ONE value, its x over the width
   * when i is even and its y over the height when i is odd.
   */
  function Normalized(polygon: seq<Point>, size: ImageSize): (coords: seq<real>)
    ensures |coords| == |polygon|
  {
    seq(|polygon|, i requires 0 <= i < |polygon| =>
      if i % 2 == 0 then polygon[i].x as real / size.width as real
      else polygon[i].y as real / size.height as real)
  }

  /**
   * What the exporter's list keeps of a polygon: one value per vertex, from
   * which only the x of the even vertices and the y of the odd ones can be
   * recovered.
   */
  lemma NormalizedKeepsHalf(polygon: seq<Point>, size: ImageSize)
    ensures |Normalized(polygon, size)| == |polygon|
    ensures forall i :: 0 <= i < |polygon| && i % 2 == 0 ==>
      Normalized(polygon, size)[i] * size.width as real == polygon[i].x as real
    ensures forall i :: 0 <= i < |polygon| && i % 2 == 1 ==>
      Normalized(polygon, size)[i] * size.height as real == polygon[i].y as real
  {
  }

  /** Two different polygons that the exporter's list cannot tell apart. */
  lemma NormalizedLosesCoordinates()
    ensures var size := ImageSize(100, 100);
      var p := [Point(10, 20), Point(30, 40), Point(50, 60)];
      var q := [Point(10, 99), Point(77, 40), Point(50, 0)];
      p != q && Normalized(p, size) == Normalized(q, size) && |Normalized(p, size)| == 3
  {
    var size := ImageSize(100, 100);
    var p := [Point(10, 20), Point(30, 40), Point(50, 60)];
    var q := [Point(10, 99), Point(77, 40), Point(50, 0)];
    assert p[0] != q[0];
    assert Normalized(p, size)[0] == Normalized(q, size)[0];
    assert Normalized(p, size)[1] == Normalized(q, size)[1];
    assert Normalized(p, size)[2] == Normalized(q, size)[2];
  }

  /** The intended normalisation: x over the width and y over the height, for every vertex. */
  function NormalizedPairs(polygon: seq<Point>, size: ImageSize): (coords: seq<real>)
    ensures |coords| == 2 * |polygon|
  {
    seq(2 * |polygon|, i requires 0 <= i < 2 * |polygon| =>
      if i % 2 == 0 then polygon[i / 2].x as real / size.width as real
      else polygon[i / 2].y as real / size.height as real)
  }

  /** A vertex with real coordinates, in pixels. */
  datatype PixelPoint = PixelPoint(x: real, y: real)

  /** Scales a flat list of normalised values back to pixel pairs, for an image of `width` by `height`. */
  function Denormalized(coords: seq<real>, width: real, height: real): (pairs: seq<PixelPoint>)
    requires |coords| % 2 == 0
    ensures |pairs| == |coords| / 2
  {
    seq(|coords| / 2, k requires 0 <= k < |coords| / 2 => PixelPoint(coords[2 * k] * width, coords[2 * k + 1] * height))
  }

  /** The vertices as pairs of reals. */
  function AsPairs(polygon: seq<Point>): (pairs: seq<PixelPoint>)
    ensures |pairs| == |polygon|
  {
    seq(|polygon|, k requires 0 <= k < |polygon| => PixelPoint(polygon[k].x as real, polygon[k].y as real))
  }

  /** The intended normalisation loses nothing: scaling back gives every vertex. */
  lemma NormalizedPairsRoundTrip(polygon: seq<Point>, size: ImageSize)
    ensures Denormalized(NormalizedPairs(polygon, size), size.width as real, size.height as real) == AsPairs(polygon)
  {
    var c := NormalizedPairs(polygon, size);
    var w, h := size.width as real, size.height as real;
    assert |c| % 2 == 0 && |c| / 2 == |polygon|;
    var d := Denormalized(c, w, h);
    forall k | 0 <= k < |polygon|
      ensures d[k] == AsPairs(polygon)[k]
    {
      assert (2 * k) % 2 == 0 && (2 * k) / 2 == k;
      assert (2 * k + 1) % 2 == 1 && (2 * k + 1) / 2 == k;
      assert c[2 * k] * w == polygon[k].x as real;
      assert c[2 * k + 1] * h == polygon[k].y as real;
    }
  }

  /** The vertex at the centre of a w x h image (w, h even) normalises to 0.5. */
  lemma CentreNormalizesToHalf(polygon: seq<Point>, size: ImageSize, i: nat)
    requires i < |polygon| && size.width % 2 == 0 && size.height % 2 == 0
    requires polygon[i] == Point(size.width / 2, size.height / 2)
    ensures Normalized(polygon, size)[i] == 0.5
  {
    HalfOverWhole(size.width);
    HalfOverWhole(size.height);
  }

  lemma HalfOverWhole(n: Dim)
    requires n % 2 == 0
    ensures (n / 2) as real / n as real == 0.5
  {
    var half := (n / 2) as real;
    assert half * 2.0 == n as real;
  }

  function FormatAll(coords: seq<real>, fmt: real -> string): (strs: seq<string>)
    ensures |strs| == |coords|
  {
    seq(|coords|, i requires 0 <= i < |coords| => fmt(coords[i]))
  }

  /**
   * One label line: the class id, a space, the formatted coordinates joined
   * by single spaces, and a newline. `fmt` stands for the six-decimal format.
   */
  function LabelLine(classId: int, coords: seq<real>, fmt: real -> string): (line: string)
    ensures IntToString(classId) + " " <= line
    ensures line[|line| - 1] == '\n'
  {
    IntToString(classId) + " " + Join(FormatAll(coords, fmt), ' ') + "\n"
  }

  /**
   * A label line is a single line, and splitting it at spaces gives back the
   * class id and each formatted coordinate (an empty field when there are none).
   */
  lemma LabelLineFields(classId: int, coords: seq<real>, fmt: real -> string)
    requires forall i :: 0 <= i < |coords| ==> ' ' !in fmt(coords[i]) && '\n' !in fmt(coords[i])
    ensures var line := LabelLine(classId, coords, fmt);
      && line[|line| - 1] == '\n'
      && '\n' !in line[..|line| - 1]
      && Split(line[..|line| - 1], ' ') == [IntToString(classId)] + (if coords == [] then [""] else FormatAll(coords, fmt))
  {
    var line := LabelLine(classId, coords, fmt);
    var id := IntToString(classId);
    var strs := FormatAll(coords, fmt);
    var body := id + " " + Join(strs, ' ');
    assert line == body + "\n";
    assert line[..|line| - 1] == body;
    IntToStringHasNoSeparator(classId, ' ');
    IntToStringHasNoSeparator(classId, '\n');
    JoinExcludes(strs, ' ', '\n');
    var fields := [id] + (if coords == [] then [""] else strs);
    assert body == Join(fields, ' ');
    SplitJoin(fields, ' ');
  }

  /** The line an annotation contributes, or the KeyError its missing class id raises. */
  function AnnotationLine(rec: AnnotationRecord, size: ImageSize, fmt: real -> string): (r: Result<string, ExportError>)
    ensures r.Err? <==> rec.classId.None?
    ensures r.Err? ==> r.error == KeyError("class_id")
  {
    match rec.classId
    case None => Err(KeyError("class_id"))
    case Some(id) => Ok(LabelLine(id, Normalized(rec.polygon, size), fmt))
  }

  // ---------------------------------------------------------------------
  // Loops that stop at the first exception
  // ---------------------------------------------------------------------

  /** What a loop has produced so far, and the exception that stopped it, if any. */
  datatype Progress<T> = Progress(done: seq<T>, failure: Option<ExportError>)

  /** Runs `q` after `p`, unless `p` raised. */
  function Then<T>(p: Progress<T>, q: Progress<T>): Progress<T>
  {
    if p.failure.Some? then p else Progress(p.done + q.done, q.failure)
  }

  /** A loop over `xs` whose body is `step`, stopped by the first exception. */
  function Run<X, T>(xs: seq<X>, step: X -> Progress<T>): Progress<T>
  {
    if xs == [] then Progress([], None)
    else Then(Run(xs[..|xs| - 1], step), step(xs[|xs| - 1]))
  }

  /** Once an exception is raised, the rest of the loop does nothing. */
  lemma {:induction false} FailureSticks<X, T>(xs: seq<X>, ys: seq<X>, step: X -> Progress<T>)
    requires Run(xs, step).failure.Some?
    ensures Run(xs + ys, step) == Run(xs, step)
    decreases |ys|
  {
    if ys == [] {
      assert xs + ys == xs;
    } else {
      var ys' := ys[..|ys| - 1];
      assert (xs + ys)[..|xs + ys| - 1] == xs + ys';
      FailureSticks(xs, ys', step);
    }
  }

  /** The loop over the first `i + 1` elements is the loop over the first `i`, then one iteration. */
  lemma RunPrefix<X, T>(xs: seq<X>, i: nat, step: X -> Progress<T>)
    requires i < |xs|
    ensures Run(xs[..i + 1], step) == Then(Run(xs[..i], step), step(xs[i]))
  {
    assert xs[..i + 1][..i] == xs[..i];
  }

  /** A loop stopped by iteration `i` ends as it stood after that iteration. */
  lemma RunStopsAt<X, T>(xs: seq<X>, i: nat, step: X -> Progress<T>)
    requires i < |xs| && Run(xs[..i + 1], step).failure.Some?
    ensures Run(xs, step) == Run(xs[..i + 1], step)
  {
    assert xs == xs[..i + 1] + xs[i + 1..];
    FailureSticks(xs[..i + 1], xs[i + 1..], step);
  }

  /** The loop over all the elements. */
  lemma RunWhole<X, T>(xs: seq<X>, step: X -> Progress<T>)
    ensures Run(xs[..|xs|], step) == Run(xs, step)
  {
    assert xs[..|xs|] == xs;
  }

  /** A loop over three elements, unrolled. */
  lemma RunThree<X, T>(x0: X, x1: X, x2: X, step: X -> Progress<T>)
    ensures Run([x0, x1, x2], step) == Then(Then(Then(Progress([], None), step(x0)), step(x1)), step(x2))
  {
    assert [x0, x1, x2][..2] == [x0, x1];
    assert [x0, x1][..1] == [x0];
    assert [x0][..0] == [];
    assert Run([x0], step) == Then(Progress([], None), step(x0));
    assert Run([x0, x1], step) == Then(Run([x0], step), step(x1));
  }

  /** A loop completes exactly when no iteration raises. */
  lemma {:induction false} RunSucceedsIff<X, T>(xs: seq<X>, step: X -> Progress<T>)
    ensures Run(xs, step).failure.None? <==> forall k :: 0 <= k < |xs| ==> step(xs[k]).failure.None?
    decreases |xs|
  {
    if xs != [] {
      var init := xs[..|xs| - 1];
      RunSucceedsIff(init, step);
      assert forall k :: 0 <= k < |init| ==> init[k] == xs[k];
    }
  }

  /** When every failing iteration raises `e`, a loop that stops stops with `e`. */
  lemma {:induction false} RunFailsWith<X, T>(xs: seq<X>, step: X -> Progress<T>, e: ExportError)
    requires forall k :: 0 <= k < |xs| ==> step(xs[k]).failure.Some? ==> step(xs[k]).failure == Some(e)
    ensures Run(xs, step).failure.Some? ==> Run(xs, step).failure == Some(e)
    decreases |xs|
  {
    if xs != [] {
      var init := xs[..|xs| - 1];
      assert forall k :: 0 <= k < |init| ==> init[k] == xs[k];
      RunFailsWith(init, step, e);
    }
  }

  /** A completed loop whose iterations each produce one item produces one item per element, in order. */
  lemma {:induction false} RunOneEach<X, T>(xs: seq<X>, step: X -> Progress<T>)
    requires forall k :: 0 <= k < |xs| ==> step(xs[k]).failure.None? && |step(xs[k]).done| == 1
    ensures Run(xs, step).failure.None?
    ensures |Run(xs, step).done| == |xs|
    ensures forall k :: 0 <= k < |xs| ==> Run(xs, step).done[k] == step(xs[k]).done[0]
    decreases |xs|
  {
    if xs != [] {
      var init := xs[..|xs| - 1];
      assert forall k :: 0 <= k < |init| ==> init[k] == xs[k];
      RunOneEach(init, step);
    }
  }

  // ---------------------------------------------------------------------
  // The annotation loop: one label file
  // ---------------------------------------------------------------------

  /** The body of the annotation loop: one record's line, or the exception reading it raises. */
  function LineStep(size: ImageSize, fmt: real -> string): AnnotationRecord -> Progress<string>
  {
    rec =>
      match AnnotationLine(rec, size, fmt)
      case Ok(line) => Progress([line], None)
      case Err(e) => Progress([], Some(e))
  }

  /**
   * Writes one line per annotation, in order, until an annotation without a
   * class id raises; the lines written before it stay in the file.
   */
  method WriteLabelLines(anns: seq<AnnotationRecord>, size: ImageSize, fmt: real -> string)
    returns (written: Progress<string>)
    ensures written == Run(anns, LineStep(size, fmt))
  {
    written := Progress([], None);
    var i := 0;
    while i < |anns|
      invariant 0 <= i <= |anns|
      invariant written == Run(anns[..i], LineStep(size, fmt))
      invariant written.failure.None?
    {
      var ann := anns[i];
      RunPrefix(anns, i, LineStep(size, fmt));
      match ann.classId {
        case None =>
          written := Progress(written.done, Some(KeyError("class_id")));
          RunStopsAt(anns, i, LineStep(size, fmt));
          return;
        case Some(classId) =>
          var normalized := Normalized(ann.polygon, size);
          written := Progress(written.done + [LabelLine(classId, normalized, fmt)], None);
      }
      i := i + 1;
    }
    RunWhole(anns, LineStep(size, fmt));
  }

  /**
   * A label file is complete exactly when every annotation has a class id;
   * it then holds one line per annotation, in order.
   */
  lemma LabelLinesComplete(anns: seq<AnnotationRecord>, size: ImageSize, fmt: real -> string)
    ensures var w := Run(anns, LineStep(size, fmt));
      w.failure.None? <==> forall k :: 0 <= k < |anns| ==> anns[k].classId.Some?
    ensures var w := Run(anns, LineStep(size, fmt));
      w.failure.None? ==>
        && |w.done| == |anns|
        && forall k :: 0 <= k < |anns| ==>
             w.done[k] == LabelLine(anns[k].classId.value, Normalized(anns[k].polygon, size), fmt)
  {
    var step := LineStep(size, fmt);
    RunSucceedsIff(anns, step);
    if Run(anns, step).failure.None? {
      RunOneEach(anns, step);
    }
  }

  /** A complete label file has exactly one newline per annotation, when formatted floats hold no blanks. */
  lemma LabelFileLineCount(anns: seq<AnnotationRecord>, size: ImageSize, fmt: real -> string)
    requires forall r: real :: ' ' !in fmt(r) && '\n' !in fmt(r)
    requires Run(anns, LineStep(size, fmt)).failure.None?
    ensures Count(Concat(Run(anns, LineStep(size, fmt)).done), '\n') == |anns|
  {
    var lines := Run(anns, LineStep(size, fmt)).done;
    LabelLinesComplete(anns, size, fmt);
    forall k | 0 <= k < |lines|
      ensures |lines[k]| > 0 && lines[k][|lines[k]| - 1] == '\n' && '\n' !in lines[k][..|lines[k]| - 1]
    {
      var coords := Normalized(anns[k].polygon, size);
      assert lines[k] == LabelLine(anns[k].classId.value, coords, fmt);
      LabelLineFields(anns[k].classId.value, coords, fmt);
    }
    CountLines(lines);
  }

  // ---------------------------------------------------------------------
  // The image loop: one split
  // ---------------------------------------------------------------------

  /**
   * What exporting one image produces: the lines of its label file, filed
   * under the split and the image they belong to, which fix where the image
   * is copied and where the lines are written.
   */
  datatype LabelFile = LabelFile(split: string, image: string, lines: seq<string>)
  {
    /** Where the image is copied. */
    function CopyPath(): string { ImageDest(split, image) }

    /** Where the lines are written. */
    function TextPath(): string { LabelPath(split, image) }
  }

  /** Exporting one image: a path with no entry raises `KeyError` before its (empty) label file is filled. */
  function ImageResult(split: string, annotations: map<string, seq<AnnotationRecord>>,
                       sizeOf: string -> ImageSize, fmt: real -> string, p: string): (r: Progress<LabelFile>)
    ensures |r.done| == 1 && r.done[0].split == split && r.done[0].image == p
    ensures p !in annotations ==> r.failure == Some(KeyError(p))
    ensures r.failure.None? <==>
      p in annotations && forall a :: 0 <= a < |annotations[p]| ==> annotations[p][a].classId.Some?
  {
    if p !in annotations then
      Progress([LabelFile(split, p, [])], Some(KeyError(p)))
    else
      var w := Run(annotations[p], LineStep(sizeOf(p), fmt));
      LabelLinesComplete(annotations[p], sizeOf(p), fmt);
      Progress([LabelFile(split, p, w.done)], w.failure)
  }

  /** The body of the image loop of one split: `ImageResult` of the image. */
  function ImageStep(split: string, annotations: map<string, seq<AnnotationRecord>>,
                     sizeOf: string -> ImageSize, fmt: real -> string): string -> Progress<LabelFile>
  {
    p => ImageResult(split, annotations, sizeOf, fmt, p)
  }

  /** Copies one image and writes its label file, stopping at the first missing key. */
  method ExportImage(split: string, imagePath: string, annotations: map<string, seq<AnnotationRecord>>,
                     sizeOf: string -> ImageSize, fmt: real -> string)
    returns (result: Progress<LabelFile>)
    ensures result == ImageResult(split, annotations, sizeOf, fmt, imagePath)
  {
    var file := LabelFile(split, imagePath, []);
    if imagePath !in annotations {
      return Progress([file], Some(KeyError(imagePath)));
    }
    var lines := WriteLabelLines(annotations[imagePath], sizeOf(imagePath), fmt);
    result := Progress([file.(lines := lines.done)], lines.failure);
  }

  /** One pass of the image loop extends the run by that image's result; a failing pass ends the run. */
  lemma ImageIteration(split: string, images: seq<string>, annotations: map<string, seq<AnnotationRecord>>,
                       sizeOf: string -> ImageSize, fmt: real -> string, i: nat,
                       written: Progress<LabelFile>, result: Progress<LabelFile>)
    requires i < |images|
    requires written == Run(images[..i], ImageStep(split, annotations, sizeOf, fmt)) && written.failure.None?
    requires result == ImageResult(split, annotations, sizeOf, fmt, images[i])
    ensures Progress(written.done + result.done, result.failure) == Run(images[..i + 1], ImageStep(split, annotations, sizeOf, fmt))
    ensures result.failure.Some? ==>
      Run(images, ImageStep(split, annotations, sizeOf, fmt)) == Run(images[..i + 1], ImageStep(split, annotations, sizeOf, fmt))
  {
    var step := ImageStep(split, annotations, sizeOf, fmt);
    assert step(images[i]) == result;
    RunPrefix(images, i, step);
    if result.failure.Some? {
      RunStopsAt(images, i, step);
    }
  }

  /** Copies each image of a split and writes its label file, in the split's order. */
  method ExportSplit(split: string, images: seq<string>, annotations: map<string, seq<AnnotationRecord>>,
                     sizeOf: string -> ImageSize, fmt: real -> string)
    returns (written: Progress<LabelFile>)
    ensures written == Run(images, ImageStep(split, annotations, sizeOf, fmt))
  {
    ghost var step := ImageStep(split, annotations, sizeOf, fmt);
    written := Progress([], None);
    var i := 0;
    while i < |images|
      invariant 0 <= i <= |images|
      invariant written == Run(images[..i], step)
      invariant written.failure.None?
    {
      var imagePath := images[i];
      var result := ExportImage(split, imagePath, annotations, sizeOf, fmt);
      ImageIteration(split, images, annotations, sizeOf, fmt, i, written, result);
      written := Progress(written.done + result.done, result.failure);
      if result.failure.Some? {
        return;
      }
      i := i + 1;
    }
    RunWhole(images, step);
  }

  // ---------------------------------------------------------------------
  // The split loop: the whole export
  // ---------------------------------------------------------------------

  /** The body of the split loop: the image loop over the split's images. */
  function SplitStep(annotations: map<string, seq<AnnotationRecord>>, sizeOf: string -> ImageSize,
                     fmt: real -> string): ((string, seq<string>)) -> Progress<LabelFile>
  {
    (pair: (string, seq<string>)) => Run(pair.1, ImageStep(pair.0, annotations, sizeOf, fmt))
  }

  /** Each split name with its image list, in the fixed order train, val, test. */
  function SplitPairs(train: seq<string>, val: seq<string>, test: seq<string>): seq<(string, seq<string>)>
  {
    [(Splits[0], train), (Splits[1], val), (Splits[2], test)]
  }

  /**
   * The export: the manifest is prepared, the splits are processed in order,
   * and the manifest is written only when no exception stopped the loops.
   */
  method ExportYoloDataset(annotations: map<string, seq<AnnotationRecord>>, classNames: Option<map<int, string>>,
                           train: seq<string>, val: seq<string>, test: seq<string>,
                           sizeOf: string -> ImageSize, fmt: real -> string)
    returns (written: Progress<LabelFile>, manifest: Option<DataYaml>)
    ensures written == Run(SplitPairs(train, val, test), SplitStep(annotations, sizeOf, fmt))
    ensures manifest == if written.failure.None? then Some(DataYamlFor(classNames)) else None
  {
    var dataYaml := DataYamlFor(classNames);
    var pairs := SplitPairs(train, val, test);
    ghost var step := SplitStep(annotations, sizeOf, fmt);
    written := Progress([], None);
    manifest := None;
    for j := 0 to |pairs|
      invariant written == Run(pairs[..j], step)
      invariant written.failure.None?
    {
      var (splitName, splitData) := pairs[j];
      var files := ExportSplit(splitName, splitData, annotations, sizeOf, fmt);
      assert step(pairs[j]) == files;
      RunPrefix(pairs, j, step);
      written := Progress(written.done + files.done, files.failure);
      if files.failure.Some? {
        RunStopsAt(pairs, j, step);
        return;
      }
    }
    RunWhole(pairs, step);
    manifest := Some(dataYaml);
  }

  /** Every record of every listed image has a class id, and every listed image has an entry. */
  predicate Exportable(annotations: map<string, seq<AnnotationRecord>>, images: seq<string>)
  {
    forall k :: 0 <= k < |images| ==>
      images[k] in annotations &&
      forall a :: 0 <= a < |annotations[images[k]]| ==> annotations[images[k]][a].classId.Some?
  }

  /** One split exports completely exactly when its images are exportable, producing one file per image, in order. */
  lemma SplitExportComplete(split: string, images: seq<string>, annotations: map<string, seq<AnnotationRecord>>,
                            sizeOf: string -> ImageSize, fmt: real -> string)
    ensures var w := Run(images, ImageStep(split, annotations, sizeOf, fmt));
      w.failure.None? <==> Exportable(annotations, images)
    ensures var w := Run(images, ImageStep(split, annotations, sizeOf, fmt));
      w.failure.None? ==>
        && |w.done| == |images|
        && forall k :: 0 <= k < |images| ==>
             && w.done[k].image == images[k]
             && w.done[k].CopyPath() == ImageDest(split, images[k])
             && w.done[k].TextPath() == LabelPath(split, images[k])
             && |w.done[k].lines| == |annotations[images[k]]|
  {
    var step := ImageStep(split, annotations, sizeOf, fmt);
    RunSucceedsIff(images, step);
    forall k | 0 <= k < |images|
      ensures step(images[k]).failure.None? <==>
        images[k] in annotations && forall a :: 0 <= a < |annotations[images[k]]| ==> annotations[images[k]][a].classId.Some?
      ensures step(images[k]).failure.None? ==> |step(images[k]).done[0].lines| == |annotations[images[k]]|
    {
      if images[k] in annotations {
        LabelLinesComplete(annotations[images[k]], sizeOf(images[k]), fmt);
      }
    }
    if Run(images, step).failure.None? {
      RunOneEach(images, step);
    }
  }

  /**
   * The whole export completes exactly when every image of the three lists
   * is exportable; its files are then the train files, then the val files,
   * then the test files.
   */
  lemma ExportComplete(annotations: map<string, seq<AnnotationRecord>>,
                       train: seq<string>, val: seq<string>, test: seq<string>,
                       sizeOf: string -> ImageSize, fmt: real -> string)
    ensures var w := Run(SplitPairs(train, val, test), SplitStep(annotations, sizeOf, fmt));
      w.failure.None? <==> Exportable(annotations, train + val + test)
    ensures var w := Run(SplitPairs(train, val, test), SplitStep(annotations, sizeOf, fmt));
      w.failure.None? ==>
        w.done == Run(train, ImageStep("train", annotations, sizeOf, fmt)).done
                + Run(val, ImageStep("val", annotations, sizeOf, fmt)).done
                + Run(test, ImageStep("test", annotations, sizeOf, fmt)).done
  {
    var t := Run(train, ImageStep("train", annotations, sizeOf, fmt));
    var v := Run(val, ImageStep("val", annotations, sizeOf, fmt));
    var u := Run(test, ImageStep("test", annotations, sizeOf, fmt));
    RunSplits(annotations, train, val, test, sizeOf, fmt);
    SplitSucceedsIff("train", train, annotations, sizeOf, fmt);
    SplitSucceedsIff("val", val, annotations, sizeOf, fmt);
    SplitSucceedsIff("test", test, annotations, sizeOf, fmt);
    ExportableAppend(annotations, train, val);
    ExportableAppend(annotations, train + val, test);
    assert [] + t.done == t.done;
  }

  /** The split loop, unrolled over its three splits. */
  lemma RunSplits(annotations: map<string, seq<AnnotationRecord>>,
                  train: seq<string>, val: seq<string>, test: seq<string>,
                  sizeOf: string -> ImageSize, fmt: real -> string)
    ensures Run(SplitPairs(train, val, test), SplitStep(annotations, sizeOf, fmt))
      == Then(Then(Then(Progress([], None),
                        Run(train, ImageStep("train", annotations, sizeOf, fmt))),
                   Run(val, ImageStep("val", annotations, sizeOf, fmt))),
              Run(test, ImageStep("test", annotations, sizeOf, fmt)))
  {
    var step := SplitStep(annotations, sizeOf, fmt);
    RunThree(("train", train), ("val", val), ("test", test), step);
  }

  /** One split completes exactly when its images are exportable. */
  lemma SplitSucceedsIff(split: string, images: seq<string>, annotations: map<string, seq<AnnotationRecord>>,
                         sizeOf: string -> ImageSize, fmt: real -> string)
    ensures Run(images, ImageStep(split, annotations, sizeOf, fmt)).failure.None? <==> Exportable(annotations, images)
  {
    SplitExportComplete(split, images, annotations, sizeOf, fmt);
  }

  lemma ExportableAppend(annotations: map<string, seq<AnnotationRecord>>, a: seq<string>, b: seq<string>)
    ensures Exportable(annotations, a + b) <==> Exportable(annotations, a) && Exportable(annotations, b)
  {
    assert forall k :: 0 <= k < |a| ==> (a + b)[k] == a[k];
    assert forall k :: 0 <= k < |b| ==> (a + b)[|a| + k] == b[k];
  }

  /**
   * When no record of the listed images has a class id, exporting a split
   * either completes or stops with `KeyError("class_id")`.
   */
  lemma SplitFailsOnClassId(split: string, images: seq<string>, annotations: map<string, seq<AnnotationRecord>>,
                            sizeOf: string -> ImageSize, fmt: real -> string)
    requires forall p :: p in annotations ==> forall a :: 0 <= a < |annotations[p]| ==> annotations[p][a].classId.None?
    requires forall k :: 0 <= k < |images| ==> images[k] in annotations
    ensures var w := Run(images, ImageStep(split, annotations, sizeOf, fmt));
      w.failure.Some? ==> w.failure == Some(KeyError("class_id"))
  {
    var e := KeyError("class_id");
    var step := ImageStep(split, annotations, sizeOf, fmt);
    forall k | 0 <= k < |images|
      ensures step(images[k]).failure.Some? ==> step(images[k]).failure == Some(e)
    {
      var anns := annotations[images[k]];
      var lstep := LineStep(sizeOf(images[k]), fmt);
      forall a | 0 <= a < |anns|
        ensures lstep(anns[a]).failure == Some(e)
      {
        assert anns[a].classId.None?;
      }
      RunFailsWith(anns, lstep, e);
    }
    RunFailsWith(images, step, e);
  }

  lemma PartsStored(annotations: map<string, seq<AnnotationRecord>>, a: seq<string>, b: seq<string>, c: seq<string>)
    requires forall k :: 0 <= k < |a + b + c| ==> (a + b + c)[k] in annotations
    ensures forall k :: 0 <= k < |a| ==> a[k] in annotations
    ensures forall k :: 0 <= k < |b| ==> b[k] in annotations
    ensures forall k :: 0 <= k < |c| ==> c[k] in annotations
  {
    var all := a + b + c;
    assert forall j :: 0 <= j < |a| ==> all[j] == a[j];
    assert forall j :: 0 <= j < |b| ==> all[|a| + j] == b[j];
    assert forall j :: 0 <= j < |c| ==> all[|a| + |b| + j] == c[j];
  }

  /**
   * When every stored record lacks a class id and every listed image is
   * stored, an export that lists an image with at least one record stops
   * with `KeyError("class_id")`, and so writes no manifest.
   */
  lemma ExportWithoutClassIdsFails(annotations: map<string, seq<AnnotationRecord>>,
                                   train: seq<string>, val: seq<string>, test: seq<string>,
                                   sizeOf: string -> ImageSize, fmt: real -> string)
    requires forall p :: p in annotations ==> forall a :: 0 <= a < |annotations[p]| ==> annotations[p][a].classId.None?
    requires forall k :: 0 <= k < |train + val + test| ==> (train + val + test)[k] in annotations
    requires exists k :: 0 <= k < |train + val + test| && |annotations[(train + val + test)[k]]| > 0
    ensures Run(SplitPairs(train, val, test), SplitStep(annotations, sizeOf, fmt)).failure == Some(KeyError("class_id"))
  {
    var all := train + val + test;
    var k :| 0 <= k < |all| && |annotations[all[k]]| > 0;
    assert !Exportable(annotations, all) by {
      assert annotations[all[k]][0].classId.None?;
    }
    ExportComplete(annotations, train, val, test, sizeOf, fmt);
    RunSplits(annotations, train, val, test, sizeOf, fmt);
    PartsStored(annotations, train, val, test);
    SplitFailsOnClassId("train", train, annotations, sizeOf, fmt);
    SplitFailsOnClassId("val", val, annotations, sizeOf, fmt);
    SplitFailsOnClassId("test", test, annotations, sizeOf, fmt);
  }

  /**
   * With no class id anywhere and exactly the stored images listed across
   * the splits (as splitting the dictionary's keys gives them), the export
   * stops exactly when some stored image has a record, and it then stops
   * with `KeyError("class_id")`.
   */
  lemma ExportWithoutClassIdsIff(annotations: map<string, seq<AnnotationRecord>>,
                                 train: seq<string>, val: seq<string>, test: seq<string>,
                                 sizeOf: string -> ImageSize, fmt: real -> string)
    requires forall p :: p in annotations ==> forall a :: 0 <= a < |annotations[p]| ==> annotations[p][a].classId.None?
    requires forall k :: 0 <= k < |train + val + test| ==> (train + val + test)[k] in annotations
    requires forall p :: p in annotations ==> p in train + val + test
    ensures var w := Run(SplitPairs(train, val, test), SplitStep(annotations, sizeOf, fmt));
      && (w.failure.Some? <==> exists p :: p in annotations && |annotations[p]| > 0)
      && (w.failure.Some? ==> w.failure == Some(KeyError("class_id")))
  {
    var all := train + val + test;
    ExportComplete(annotations, train, val, test, sizeOf, fmt);
    if p :| p in annotations && |annotations[p]| > 0 {
      var k :| 0 <= k < |all| && all[k] == p;
      ExportWithoutClassIdsFails(annotations, train, val, test, sizeOf, fmt);
    } else {
      assert Exportable(annotations, all);
    }
  }
}
